/** `mergeReaction`: an SMS tapback added to, or taken off, a stored reaction list. */
module Tapback {
  import opened Text
  import opened Records

  /** The first position of `v`, or -1. */
  function IndexOf(list: seq<string>, v: string): (i: int)
    ensures -1 <= i < |list| && (i >= 0 <==> v in list)
    ensures i >= 0 ==> list[i] == v && v !in list[..i]
  {
    IndexFrom(list, v, 0)
  }

  function IndexFrom(list: seq<string>, v: string, k: nat): (i: int)
    requires k <= |list| && v !in list[..k]
    ensures -1 <= i < |list| && (i >= 0 <==> v in list)
    ensures i >= 0 ==> list[i] == v && v !in list[..i]
    decreases |list| - k
  {
    if k == |list| then assert list[..k] == list; -1
    else if list[k] == v then k
    else assert list[..k + 1] == list[..k] + [list[k]]; IndexFrom(list, v, k + 1)
  }

  method IndexOfString(list: seq<string>, v: string) returns (i: int)
    ensures i == IndexOf(list, v)
  {
    i := 0;
    while i < |list|
      invariant 0 <= i <= |list| && v !in list[..i]
      invariant IndexOf(list, v) == IndexFrom(list, v, i)
    {
      if list[i] == v {
        return;
      }
      i := i + 1;
    }
    i := -1;
  }

  function Without(r: Reaction, actor: string): Reaction {
    var idx := IndexOf(r.actors, actor);
    if idx < 0 then r
    else r.(actors := r.actors[..idx] + r.actors[idx + 1..], count := if r.count > 0 then r.count - 1 else r.count)
  }

  function WithoutIf(r: Reaction, emoji: string, actor: string): Reaction {
    if r.emoji == emoji then Without(r, actor) else r
  }

  function RemoveFrom(rs: seq<Reaction>, emoji: string, actor: string): (r: seq<Reaction>)
    ensures |r| == |rs|
  {
    seq(|rs|, i requires 0 <= i < |rs| => WithoutIf(rs[i], emoji, actor))
  }

  /** The first entry of the emoji, or the length. */
  function EntryOf(rs: seq<Reaction>, emoji: string, k: nat): (i: nat)
    requires k <= |rs|
    ensures k <= i <= |rs| && (i < |rs| ==> rs[i].emoji == emoji)
    ensures forall j :: k <= j < i ==> rs[j].emoji != emoji
    decreases |rs| - k
  {
    if k == |rs| || rs[k].emoji == emoji then k else EntryOf(rs, emoji, k + 1)
  }

  function With(r: Reaction, actor: string): Reaction {
    if actor in r.actors then r else r.(actors := r.actors + [actor], count := r.count + 1)
  }

  function AddTo(rs: seq<Reaction>, emoji: string, actor: string): seq<Reaction> {
    var i := EntryOf(rs, emoji, 0);
    if i < |rs| then rs[i := With(rs[i], actor)] else rs + [Reaction(emoji, 1, [actor])]
  }

  predicate Live(r: Reaction) {
    r.count > 0 && TrimSpace(r.emoji) != ""
  }

  function Compacted(rs: seq<Reaction>, n: nat): (r: seq<Reaction>)
    requires n <= |rs|
    ensures forall x :: x in r ==> Live(x)
  {
    if n == 0 then [] else Compacted(rs, n - 1) + if Live(rs[n - 1]) then [rs[n - 1]] else []
  }

  /** Whether the code sets `changed`. */
  predicate Touches(rs: seq<Reaction>, emoji: string, actor: string, remove: bool) {
    if remove then exists i :: 0 <= i < |rs| && rs[i].emoji == emoji && actor in rs[i].actors
    else var i := EntryOf(rs, emoji, 0); i == |rs| || actor !in rs[i].actors
  }

  function Merged(rs: seq<Reaction>, emoji: string, actor: string, remove: bool): seq<Reaction> {
    if !Touches(rs, emoji, actor, remove) then rs else
      var next := if remove then RemoveFrom(rs, emoji, actor) else AddTo(rs, emoji, actor);
      Compacted(next, |next|)
  }

  method RemoveActor(r: Reaction, actor: string) returns (next: Reaction, found: bool)
    ensures next == Without(r, actor)
    ensures found <==> actor in r.actors
    ensures !found ==> next == r
  {
    var idx := IndexOfString(r.actors, actor);
    next, found := r, idx >= 0;
    if found {
      next := next.(actors := r.actors[..idx] + r.actors[idx + 1..]);
      if next.count > 0 {
        next := next.(count := next.count - 1);
      }
    }
  }

  method MergeReaction(existing: seq<Reaction>, emoji: string, actor: string, remove: bool)
    returns (next: seq<Reaction>, changed: bool)
    ensures next == Merged(existing, emoji, actor, remove)
    ensures changed == Touches(existing, emoji, actor, remove)
  {
    hide TrimSpace, Without;
    var reactions := existing;
    changed := false;
    if remove {
      var i := 0;
      while i < |reactions|
        invariant i <= |reactions| == |existing|
        invariant forall k :: 0 <= k < i ==> reactions[k] == WithoutIf(existing[k], emoji, actor)
        invariant forall k :: i <= k < |existing| ==> reactions[k] == existing[k]
        invariant changed <==> exists k :: 0 <= k < i && existing[k].emoji == emoji && actor in existing[k].actors
      {
        if reactions[i].emoji == emoji {
          var r, found := RemoveActor(reactions[i], actor);
          if found {
            reactions := reactions[i := r];
            changed := true;
          }
        }
        i := i + 1;
      }
      assert changed ==> reactions == RemoveFrom(existing, emoji, actor);
    } else {
      var i := 0;
      while i < |reactions| && reactions[i].emoji != emoji
        invariant i <= |reactions| && reactions == existing
        invariant EntryOf(existing, emoji, 0) == EntryOf(existing, emoji, i)
      {
        i := i + 1;
      }
      if i < |reactions| {
        var idx := IndexOfString(reactions[i].actors, actor);
        if idx < 0 {
          var entry := reactions[i];
          reactions := reactions[i := entry.(actors := entry.actors + [actor], count := entry.count + 1)];
          changed := true;
        }
      } else {
        reactions := reactions + [Reaction(emoji, 1, [actor])];
        changed := true;
      }
    }
    if !changed {
      return existing, false;
    }
    next := [];
    var n := 0;
    while n < |reactions|
      invariant n <= |reactions| && next == Compacted(reactions, n)
    {
      if reactions[n].count > 0 && TrimSpace(reactions[n].emoji) != "" {
        next := next + [reactions[n]];
      }
      n := n + 1;
    }
  }

  /** On any entry, well formed or not: the actor's first place goes, and the count goes down unless
      it is zero already. */
  lemma RemovesOne(r: Reaction, actor: string)
    ensures var t := Without(r, actor);
      if actor !in r.actors then t == r else
        && t.emoji == r.emoji && (r.count > 0 ==> t.count == r.count - 1) && (r.count <= 0 ==> t.count == r.count)
        && exists k :: 0 <= k < |r.actors| && r.actors[k] == actor && actor !in r.actors[..k]
             && t.actors == r.actors[..k] + r.actors[k + 1..]
  {
    var k := IndexOf(r.actors, actor);
    assert actor in r.actors ==> actor !in r.actors[..k];
  }

  // ----- What the list stands for -----

  predicate Distinct(s: seq<string>) {
    forall i, j :: 0 <= i < j < |s| ==> s[i] != s[j]
  }

  predicate EntryOK(r: Reaction) {
    Live(r) && r.count == |r.actors| && Distinct(r.actors)
  }

  /** Distinct non-blank emojis, distinct actors in each entry, and counts that agree. */
  predicate WellFormed(rs: seq<Reaction>) {
    && (forall i :: 0 <= i < |rs| ==> EntryOK(rs[i]))
    && forall i, j :: 0 <= i < j < |rs| ==> rs[i].emoji != rs[j].emoji
  }

  predicate Reacted(rs: seq<Reaction>, emoji: string, actor: string) {
    exists i :: 0 <= i < |rs| && rs[i].emoji == emoji && actor in rs[i].actors
  }

  lemma {:induction false} CompactedLive(rs: seq<Reaction>, n: nat)
    requires n <= |rs| && forall i :: 0 <= i < n ==> Live(rs[i])
    ensures Compacted(rs, n) == rs[..n]
  {
    hide Live;
    if n > 0 { CompactedLive(rs, n - 1); }
  }

  lemma {:induction false} CompactedDropsOne(rs: seq<Reaction>, i: nat, n: nat)
    requires i < n <= |rs| && !Live(rs[i]) && forall k :: 0 <= k < n && k != i ==> Live(rs[k])
    ensures Compacted(rs, n) == rs[..i] + rs[i + 1..n]
  {
    hide Live;
    if n == i + 1 {
      CompactedLive(rs, i);
    } else {
      CompactedDropsOne(rs, i, n - 1);
    }
  }

  lemma DropFirst(actors: seq<string>, a: string)
    requires Distinct(actors) && a in actors
    ensures var idx := IndexOf(actors, a); var rest := actors[..idx] + actors[idx + 1..];
      Distinct(rest) && |rest| == |actors| - 1 && forall b :: b in rest <==> b in actors && b != a
  {
    var idx := IndexOf(actors, a);
    var rest := actors[..idx] + actors[idx + 1..];
    assert forall k :: 0 <= k < |rest| ==> rest[k] == actors[if k < idx then k else k + 1];
    forall b | b != a && b in actors ensures b in rest {
      var k :| 0 <= k < |actors| && actors[k] == b;
      assert rest[if k < idx then k else k - 1] == b;
    }
  }

  /** The entry that lost its last actor. */
  lemma EntryGone(rs: seq<Reaction>, i: nat, actor: string, e: string, a: string)
    requires WellFormed(rs) && i < |rs| && rs[i].actors == [actor]
    ensures var r := rs[..i] + rs[i + 1..];
      WellFormed(r) && (Reacted(r, e, a) <==> Reacted(rs, e, a) && (e, a) != (rs[i].emoji, actor))
  {
    hide EntryOK;
    var r := rs[..i] + rs[i + 1..];
    assert forall k :: 0 <= k < |r| ==> r[k] == rs[if k < i then k else k + 1];
    if Reacted(rs, e, a) && (e, a) != (rs[i].emoji, actor) {
      var k :| 0 <= k < |rs| && rs[k].emoji == e && a in rs[k].actors;
      assert r[if k < i then k else k - 1] == rs[k];
    }
  }

  /** An entry whose actors changed, with the emoji kept. */
  lemma EntryChanged(rs: seq<Reaction>, i: nat, n: Reaction, e: string, a: string)
    requires WellFormed(rs) && i < |rs| && n.emoji == rs[i].emoji && EntryOK(n)
    ensures WellFormed(rs[i := n])
    ensures Reacted(rs[i := n], e, a) <==> if e == n.emoji then a in n.actors else Reacted(rs, e, a)
    ensures e == n.emoji ==> (Reacted(rs, e, a) <==> a in rs[i].actors)
  {
    hide EntryOK;
    var r := rs[i := n];
    if e == n.emoji {
      assert a in n.actors ==> r[i].emoji == e && a in r[i].actors;
      assert a in rs[i].actors ==> rs[i].emoji == e;
    } else if Reacted(rs, e, a) {
      var k :| 0 <= k < |rs| && rs[k].emoji == e && a in rs[k].actors;
      assert r[k] == rs[k];
    }
  }

  lemma {:induction false} RemoveShape(rs: seq<Reaction>, emoji: string, actor: string, i: nat)
    requires WellFormed(rs) && i < |rs| && rs[i].emoji == emoji && actor in rs[i].actors
    ensures EntryOK(rs[i])
    ensures Merged(rs, emoji, actor, true) ==
      if |rs[i].actors| == 1 then rs[..i] + rs[i + 1..] else rs[i := Without(rs[i], actor)]
  {
    hide TrimSpace, Distinct;
    var next := RemoveFrom(rs, emoji, actor);
    assert next == rs[i := Without(rs[i], actor)];
    assert next[i].count == |rs[i].actors| - 1;
    if |rs[i].actors| == 1 {
      CompactedDropsOne(next, i, |next|);
    } else {
      CompactedLive(next, |next|);
    }
  }

  lemma WithoutKeepsEntryOK(r: Reaction, actor: string)
    requires EntryOK(r) && actor in r.actors && |r.actors| != 1
    ensures EntryOK(Without(r, actor)) && Without(r, actor).emoji == r.emoji
    ensures forall b :: b in Without(r, actor).actors <==> b in r.actors && b != actor
  {
    hide TrimSpace;
    DropFirst(r.actors, actor);
  }

  lemma {:induction false} RemoveDeletes(rs: seq<Reaction>, emoji: string, actor: string, e: string, a: string)
    requires WellFormed(rs)
    ensures WellFormed(Merged(rs, emoji, actor, true))
    ensures Reacted(Merged(rs, emoji, actor, true), e, a) <==> Reacted(rs, e, a) && (e, a) != (emoji, actor)
    ensures Touches(rs, emoji, actor, true) <==> Reacted(rs, emoji, actor)
  {
    hide EntryOK, RemoveFrom, Compacted;
    if Reacted(rs, emoji, actor) {
      hide Merged, IndexOf, Without;
      var i :| 0 <= i < |rs| && rs[i].emoji == emoji && actor in rs[i].actors;
      RemoveShape(rs, emoji, actor, i);
      if |rs[i].actors| == 1 {
        assert rs[i].actors == [actor];
        EntryGone(rs, i, actor, e, a);
      } else {
        WithoutKeepsEntryOK(rs[i], actor);
        EntryChanged(rs, i, Without(rs[i], actor), e, a);
      }
    }
  }

  lemma {:induction false} AddShape(rs: seq<Reaction>, emoji: string, actor: string)
    requires WellFormed(rs) && !Reacted(rs, emoji, actor) && TrimSpace(emoji) != ""
    ensures var i := EntryOf(rs, emoji, 0);
      Merged(rs, emoji, actor, false) ==
      if i < |rs| then rs[i := With(rs[i], actor)] else rs + [Reaction(emoji, 1, [actor])]
  {
    hide TrimSpace, Distinct;
    var next := AddTo(rs, emoji, actor);
    CompactedLive(next, |next|);
  }

  /** A blank emoji never stays in the list. */
  lemma {:induction false} AddBlank(rs: seq<Reaction>, emoji: string, actor: string)
    requires WellFormed(rs) && TrimSpace(emoji) == ""
    ensures Merged(rs, emoji, actor, false) == rs && Touches(rs, emoji, actor, false)
  {
    hide TrimSpace, Distinct;
    var next := rs + [Reaction(emoji, 1, [actor])];
    assert EntryOf(rs, emoji, 0) == |rs|;
    CompactedDropsOne(next, |rs|, |next|);
  }

  lemma {:induction false} EntryAppended(rs: seq<Reaction>, emoji: string, actor: string, e: string, a: string)
    requires WellFormed(rs) && EntryOf(rs, emoji, 0) == |rs| && TrimSpace(emoji) != ""
    ensures var r := rs + [Reaction(emoji, 1, [actor])];
      WellFormed(r) && (Reacted(r, e, a) <==> Reacted(rs, e, a) || (e, a) == (emoji, actor))
  {
    hide TrimSpace;
    var r := rs + [Reaction(emoji, 1, [actor])];
    assert r[|rs|].emoji == emoji && actor in r[|rs|].actors;
    if Reacted(rs, e, a) {
      var k :| 0 <= k < |rs| && rs[k].emoji == e && a in rs[k].actors;
      assert r[k] == rs[k];
    }
  }

  lemma TouchesNew(rs: seq<Reaction>, emoji: string, actor: string)
    requires WellFormed(rs)
    ensures Touches(rs, emoji, actor, false) <==> !Reacted(rs, emoji, actor)
  {
    hide EntryOK;
  }

  lemma WithKeepsEntryOK(r: Reaction, actor: string)
    requires EntryOK(r) && actor !in r.actors
    ensures EntryOK(With(r, actor)) && With(r, actor).emoji == r.emoji
    ensures With(r, actor).actors == r.actors + [actor]
  {
    hide TrimSpace;
  }

  lemma EntryFound(rs: seq<Reaction>, emoji: string, actor: string)
    requires WellFormed(rs) && !Reacted(rs, emoji, actor) && EntryOf(rs, emoji, 0) < |rs|
    ensures var r := rs[EntryOf(rs, emoji, 0)]; EntryOK(r) && r.emoji == emoji && actor !in r.actors
  {
    hide EntryOK;
  }

  lemma {:induction false} AddInserts(rs: seq<Reaction>, emoji: string, actor: string, e: string, a: string)
    requires WellFormed(rs) && TrimSpace(emoji) != ""
    ensures WellFormed(Merged(rs, emoji, actor, false))
    ensures Reacted(Merged(rs, emoji, actor, false), e, a) <==> Reacted(rs, e, a) || (e, a) == (emoji, actor)
    ensures Touches(rs, emoji, actor, false) <==> !Reacted(rs, emoji, actor)
  {
    hide TrimSpace, Touches, EntryOK, With, WellFormed, Reacted, EntryOf;
    TouchesNew(rs, emoji, actor);
    if !Reacted(rs, emoji, actor) {
      hide Merged;
      AddShape(rs, emoji, actor);
      var i := EntryOf(rs, emoji, 0);
      if i < |rs| {
        EntryFound(rs, emoji, actor);
        WithKeepsEntryOK(rs[i], actor);
        EntryChanged(rs, i, With(rs[i], actor), e, a);
      } else {
        EntryAppended(rs, emoji, actor, e, a);
      }
    }
  }

  /** Main result: on well-formed lists `mergeReaction` is insertion and deletion on the set of
      (emoji, actor) pairs, and it keeps the list well formed. */
  lemma {:induction false} MergeIsSetUpdate(rs: seq<Reaction>, emoji: string, actor: string, remove: bool,
        e: string, a: string)
    requires WellFormed(rs)
    ensures var r := Merged(rs, emoji, actor, remove);
      && WellFormed(r)
      && (Reacted(r, e, a) <==>
          if remove then Reacted(rs, e, a) && (e, a) != (emoji, actor)
          else Reacted(rs, e, a) || ((e, a) == (emoji, actor) && TrimSpace(emoji) != ""))
  {
    hide TrimSpace, Merged, WellFormed, Reacted;
    if remove {
      RemoveDeletes(rs, emoji, actor, e, a);
    } else if TrimSpace(emoji) == "" {
      AddBlank(rs, emoji, actor);
    } else {
      AddInserts(rs, emoji, actor, e, a);
    }
  }

  /** Main result: `changed` tells whether the set of pairs changed exactly when it is not an
      addition of a blank emoji, which reports a change and stores nothing. */
  lemma ChangedIsExact(rs: seq<Reaction>, emoji: string, actor: string, remove: bool)
    requires WellFormed(rs)
    ensures (Touches(rs, emoji, actor, remove) <==>
              exists e, a :: Reacted(Merged(rs, emoji, actor, remove), e, a) != Reacted(rs, e, a))
       <==> remove || TrimSpace(emoji) != ""
  {
    hide TrimSpace, Merged, WellFormed, Reacted, Touches;
    var r := Merged(rs, emoji, actor, remove);
    forall e, a
      ensures Reacted(r, e, a) != Reacted(rs, e, a) ==> (e, a) == (emoji, actor)
    {
      MergeIsSetUpdate(rs, emoji, actor, remove, e, a);
    }
    if remove {
      RemoveDeletes(rs, emoji, actor, emoji, actor);
    } else if TrimSpace(emoji) == "" {
      AddBlank(rs, emoji, actor);
    } else {
      AddInserts(rs, emoji, actor, emoji, actor);
    }
  }

  lemma MergeIdempotent(rs: seq<Reaction>, emoji: string, actor: string, remove: bool)
    requires WellFormed(rs)
    ensures var r := Merged(rs, emoji, actor, remove); Merged(r, emoji, actor, remove) == r
  {
    var r := Merged(rs, emoji, actor, remove);
    MergeIsSetUpdate(rs, emoji, actor, remove, emoji, actor);
    if !remove && TrimSpace(emoji) == "" {
      AddBlank(rs, emoji, actor);
    } else {
      SettledPairIsNoChange(r, emoji, actor, remove);
    }
  }

  lemma SettledPairIsNoChange(rs: seq<Reaction>, emoji: string, actor: string, remove: bool)
    requires WellFormed(rs) && Reacted(rs, emoji, actor) == !remove
    ensures Merged(rs, emoji, actor, remove) == rs
  {
    hide EntryOK, Compacted;
    if !remove {
      var i :| 0 <= i < |rs| && rs[i].emoji == emoji && actor in rs[i].actors;
      assert EntryOf(rs, emoji, 0) == i;
    }
  }

  lemma WithoutUndoesWith(r: Reaction, actor: string)
    requires EntryOK(r) && actor !in r.actors
    ensures Without(With(r, actor), actor) == r
  {
    hide TrimSpace;
    assert IndexOf(r.actors + [actor], actor) == |r.actors|;
  }

  /** Main result: taking off a reaction that was just added restores the exact list. */
  lemma {:induction false} RemoveUndoesAdd(rs: seq<Reaction>, emoji: string, actor: string)
    requires WellFormed(rs) && !Reacted(rs, emoji, actor) && TrimSpace(emoji) != ""
    ensures Merged(Merged(rs, emoji, actor, false), emoji, actor, true) == rs
  {
    hide TrimSpace, Merged, Without, EntryOK;
    var r := Merged(rs, emoji, actor, false);
    AddShape(rs, emoji, actor);
    AddInserts(rs, emoji, actor, emoji, actor);
    var i := EntryOf(rs, emoji, 0);
    assert r[i].emoji == emoji && actor in r[i].actors;
    RemoveShape(r, emoji, actor, i);
    if i < |rs| {
      assert actor !in rs[i].actors;
      WithoutUndoesWith(rs[i], actor);
      EntriesCount(rs, i);
    }
  }

  lemma EntriesCount(rs: seq<Reaction>, i: nat)
    requires WellFormed(rs) && i < |rs|
    ensures |rs[i].actors| >= 1
  {
    assert EntryOK(rs[i]);
  }
}
