/** What a stored Signal reaction list says about the updates that made it, and what happens
    when a batch of updates is applied again after a crash. */
module ReactionHistory {
  import opened Text
  import opened Records
  import opened Tapback
  import opened SignalReactions

  /** The counts of an entry, or of a missing one, agree with its actors. */
  predicate Sound(r: Reaction) {
    Distinct(r.actors) && r.count >= |r.actors|
  }

  lemma {:induction false} UpdatedEntrySound(r: Reaction, actor: string, emoji: string)
    requires Sound(r)
    ensures Sound(UpdatedEntry(r, actor, emoji))
    ensures UpdatedEntry(r, actor, emoji).count - |UpdatedEntry(r, actor, emoji).actors|
         == r.count - |r.actors| + if actor == "" && emoji != "" && r.emoji == emoji then 1 else 0
    ensures forall a :: a in UpdatedEntry(r, actor, emoji).actors <==>
      if a == actor && actor != "" then emoji != "" && r.emoji == emoji else a in r.actors
  {
    if actor != "" && actor in r.actors {
      DropFirst(r.actors, actor);
    }
  }

  lemma EntrySound(rs: seq<Reaction>, x: string)
    requires Canonical(rs)
    ensures Sound(Entry(rs, x))
    ensures Entry(rs, x).count > 0 <==> exists i :: 0 <= i < |rs| && rs[i].emoji == x
  {
    hide Less;
    SortedDistinct(rs);
    if i :| 0 <= i < |rs| && rs[i].emoji == x {
      EntryIs(rs, |rs|, i);
      assert EntryFine(rs[i]);
    } else {
      EntryAbsent(rs, |rs|, x);
    }
  }

  /** The list before it is packed and sorted: one entry per emoji, trimmed names. */
  predicate Loose(rs: seq<Reaction>) {
    DistinctEmojis(rs) && forall i :: 0 <= i < |rs| ==> Trimmed(rs[i].emoji)
  }

  lemma ClearedLoose(rs: seq<Reaction>, actor: string)
    requires Canonical(rs)
    ensures Loose(rs) && Loose(Cleared(rs, actor))
  {
    hide Less;
    SortedDistinct(rs);
    assert forall i :: 0 <= i < |rs| ==> EntryFine(rs[i]) && Cleared(rs, actor)[i].emoji == rs[i].emoji;
  }

  lemma ChosenLoose(rs: seq<Reaction>, emoji: string, actor: string)
    requires Loose(rs) && Trimmed(emoji)
    ensures Loose(Chosen(rs, emoji, actor))
  {
    if emoji != "" {
      ChosenEntry(rs, emoji, actor, emoji);
    }
  }

  function Next(rs: seq<Reaction>, actor: string, emoji: string): seq<Reaction> {
    Chosen(Cleared(rs, actor), emoji, actor)
  }

  lemma NextEntry(rs: seq<Reaction>, actor: string, emoji: string, x: string)
    requires Canonical(rs) && Trimmed(emoji)
    ensures Loose(Next(rs, actor, emoji))
    ensures Entry(Next(rs, actor, emoji), x) == UpdatedEntry(Entry(rs, x), actor, emoji)
  {
    hide Canonical, EntryAt, Loose;
    ClearedLoose(rs, actor);
    ClearedEntry(rs, |rs|, actor, x);
    ChosenLoose(Cleared(rs, actor), emoji, actor);
    if emoji != "" {
      LooseParts(Cleared(rs, actor));
      ChosenEntry(Cleared(rs, actor), emoji, actor, x);
    }
  }

  lemma LooseParts(rs: seq<Reaction>)
    requires Loose(rs)
    ensures DistinctEmojis(rs) && forall i :: 0 <= i < |rs| ==> Trimmed(rs[i].emoji)
  {
  }

  function Finished(rs: seq<Reaction>): seq<Reaction> {
    SortedByEmoji(Packed(rs, |rs|), |Packed(rs, |rs|)|)
  }

  lemma FinishedEntry(rs: seq<Reaction>, x: string)
    requires Loose(rs)
    ensures StrictlySorted(Finished(rs))
    ensures Entry(Finished(rs), x) == if Stays(Entry(rs, x)) then Entry(rs, x) else NoEntry(x)
    ensures forall k :: 0 <= k < |Finished(rs)| ==>
      Stays(Finished(rs)[k]) && exists i :: 0 <= i < |rs| && Finished(rs)[k] == rs[i]
  {
    hide SortedByEmoji, Packed, EntryAt, Less;
    PackedMembers(rs, |rs|);
    PackedEntry(rs, |rs|, x);
    var p := Packed(rs, |rs|);
    SortedKeepsEntries(p, |p|, x);
    forall k | 0 <= k < |Finished(rs)|
      ensures Stays(Finished(rs)[k]) && exists i :: 0 <= i < |rs| && Finished(rs)[k] == rs[i]
    {
      var j :| 0 <= j < |p| && Finished(rs)[k] == p[j];
      var i :| 0 <= i < |rs| && rs[i] == p[j];
    }
  }

  /** An update keeps the list canonical and changes each emoji's entry as `UpdatedEntry` says. */
  lemma UpdateLaw(rs: seq<Reaction>, actorId: string, emojiArg: string, x: string)
    requires Canonical(rs) && x != ""
    ensures Canonical(Updated(rs, actorId, emojiArg))
    ensures Entry(Updated(rs, actorId, emojiArg), x)
      == UpdatedEntry(Entry(rs, x), TrimSpace(actorId), TrimSpace(emojiArg))
  {
    hide Canonical, EntryAt, UpdatedEntry, Loose, EntryFine, Cleared, Chosen;
    var actor, emoji := TrimSpace(actorId), TrimSpace(emojiArg);
    if HasChange(rs, actorId, emojiArg) {
      var next := Next(rs, actor, emoji);
      NextEntry(rs, actor, emoji, x);
      FinishedEntry(next, x);
      assert Updated(rs, actorId, emojiArg) == Finished(next);
      EntrySound(rs, x);
      UpdatedEntrySound(Entry(rs, x), actor, emoji);
      EntryWithoutCount(UpdatedEntry(Entry(rs, x), actor, emoji));
      FinishedCanonical(rs, actor, emoji);
    } else {
      NoChangeEntry(rs, actor, x);
    }
  }

  lemma EntryWithoutCount(r: Reaction)
    requires Sound(r)
    ensures r.count <= 0 ==> r == NoEntry(r.emoji)
  {
  }

  lemma NoChangeEntry(rs: seq<Reaction>, actor: string, x: string)
    requires Canonical(rs) && (actor == "" || forall i :: 0 <= i < |rs| ==> actor !in rs[i].actors)
    ensures UpdatedEntry(Entry(rs, x), actor, "") == Entry(rs, x)
  {
    SortedDistinct(rs);
    if i :| 0 <= i < |rs| && rs[i].emoji == x {
      EntryIs(rs, |rs|, i);
    } else {
      EntryAbsent(rs, |rs|, x);
    }
  }

  lemma {:induction false} FinishedCanonical(rs: seq<Reaction>, actor: string, emoji: string)
    requires Canonical(rs) && Trimmed(emoji)
    ensures Canonical(Finished(Next(rs, actor, emoji)))
  {
    hide Next, Finished, EntryAt, UpdatedEntry, Less;
    var next := Next(rs, actor, emoji);
    var f := Finished(next);
    NextEntry(rs, actor, emoji, "");
    FinishedEntry(next, "");
    forall k | 0 <= k < |f| ensures EntryFine(f[k]) {
      var i :| 0 <= i < |next| && f[k] == next[i];
      EntryIs(next, |next|, i);
      NextEntry(rs, actor, emoji, f[k].emoji);
      EntrySound(rs, f[k].emoji);
      UpdatedEntrySound(Entry(rs, f[k].emoji), actor, emoji);
    }
  }

  // ----- Histories -----

  /** The raw actor and emoji of one call; an empty emoji removes. */
  datatype Update = Update(actor: string, emoji: string)

  function RunFrom(rs: seq<Reaction>, us: seq<Update>): seq<Reaction> {
    if us == [] then rs else
      Updated(RunFrom(rs, us[..|us| - 1]), us[|us| - 1].actor, us[|us| - 1].emoji)
  }

  /** The emoji the actor last chose, empty when it never chose or last removed. */
  function LastChoice(us: seq<Update>, actor: string): string {
    if us == [] then ""
    else if TrimSpace(us[|us| - 1].actor) == actor then TrimSpace(us[|us| - 1].emoji)
    else LastChoice(us[..|us| - 1], actor)
  }

  predicate IsAnonymous(u: Update) {
    TrimSpace(u.actor) == "" && TrimSpace(u.emoji) != ""
  }

  function AnonymousCount(us: seq<Update>, emoji: string): nat {
    if us == [] then 0 else
      AnonymousCount(us[..|us| - 1], emoji)
      + if IsAnonymous(us[|us| - 1]) && TrimSpace(us[|us| - 1].emoji) == emoji then 1 else 0
  }

  /** The list lists, for each emoji, exactly the actors who last chose it. */
  ghost predicate TellsHistory(rs: seq<Reaction>, us: seq<Update>, x: string) {
    && (forall a :: a in Entry(rs, x).actors <==> a != "" && LastChoice(us, a) == x)
    && Entry(rs, x).count == |Entry(rs, x).actors| + AnonymousCount(us, x)
  }

  /** Main result: after any updates from the empty list, the list is strictly sorted by emoji;
      an actor stands in exactly the entry it last chose, in none when it last removed; and each
      count is the number of distinct actors plus the anonymous reactions. */
  lemma {:induction false} ListRecordsHistory(us: seq<Update>, x: string)
    requires x != ""
    ensures Canonical(RunFrom([], us))
    ensures TellsHistory(RunFrom([], us), us, x)
  {
    hide Entry, Updated, UpdatedEntry, Canonical, TellsHistory, EntryAt;
    if us == [] {
      EmptyTells(x);
    } else {
      var init, u := us[..|us| - 1], us[|us| - 1];
      ListRecordsHistory(init, x);
      TellsNext(RunFrom([], init), init, u, x);
      assert us == init + [u];
    }
  }

  lemma EmptyTells(x: string)
    requires x != ""
    ensures Canonical([]) && TellsHistory([], [], x)
  {
    EntryAbsent([], 0, x);
    EmptyCanonical();
  }

  /** One more update is told as well. */
  lemma TellsNext(rs: seq<Reaction>, us: seq<Update>, u: Update, x: string)
    requires x != "" && Canonical(rs) && TellsHistory(rs, us, x)
    ensures Canonical(Updated(rs, u.actor, u.emoji)) && TellsHistory(Updated(rs, u.actor, u.emoji), us + [u], x)
  {
    hide EntryAt, Updated, UpdatedEntry, Canonical, TrimSpace;
    assert (us + [u])[..|us|] == us;
    UpdateLaw(rs, u.actor, u.emoji, x);
    EntrySound(rs, x);
    UpdatedEntrySound(Entry(rs, x), TrimSpace(u.actor), TrimSpace(u.emoji));
  }

  lemma EmptyCanonical()
    ensures Canonical([])
  {
  }

  // ----- Applying a batch again -----

  lemma {:induction false} RunStaysCanonical(rs: seq<Reaction>, us: seq<Update>)
    requires Canonical(rs)
    ensures Canonical(RunFrom(rs, us))
  {
    hide Canonical, Updated;
    if us != [] {
      RunStaysCanonical(rs, us[..|us| - 1]);
      UpdateLaw(RunFrom(rs, us[..|us| - 1]), us[|us| - 1].actor, us[|us| - 1].emoji, "x");
    }
  }

  /** The list without the actors in `A`. */
  function Drop(s: seq<string>, A: set<string>): seq<string> {
    if s == [] then [] else Drop(s[..|s| - 1], A) + if s[|s| - 1] in A then [] else [s[|s| - 1]]
  }

  lemma {:induction false} DropConcat(s: seq<string>, t: seq<string>, A: set<string>)
    ensures Drop(s + t, A) == Drop(s, A) + Drop(t, A)
  {
    if t == [] {
      assert s + t == s;
    } else {
      DropConcat(s, t[..|t| - 1], A);
      assert (s + t)[..|s + t| - 1] == s + t[..|t| - 1];
    }
  }

  lemma {:induction false} DropNone(s: seq<string>, A: set<string>)
    requires forall a :: a in s ==> a !in A
    ensures Drop(s, A) == s
  {
    if s != [] {
      assert forall a :: a in s[..|s| - 1] ==> a in s;
      DropNone(s[..|s| - 1], A);
    }
  }

  lemma {:induction false} DropTwice(s: seq<string>, A: set<string>, B: set<string>)
    ensures Drop(Drop(s, A), B) == Drop(s, A + B)
  {
    if s != [] {
      DropTwice(s[..|s| - 1], A, B);
      DropConcat(Drop(s[..|s| - 1], A), if s[|s| - 1] in A then [] else [s[|s| - 1]], B);
      assert Drop([s[|s| - 1]], B) == if s[|s| - 1] in B then [] else [s[|s| - 1]];
    }
  }

  lemma SplitAtIndex(s: seq<string>, a: string)
    requires Distinct(s) && a in s
    ensures var idx := IndexOf(s, a); s == s[..idx] + [a] + s[idx + 1..] && a !in s[idx + 1..]
  {
    var idx := IndexOf(s, a);
    assert forall k :: idx < k < |s| ==> s[k] != s[idx];
  }

  lemma WithoutDrops(r: Reaction, a: string)
    requires Distinct(r.actors)
    ensures Without(r, a).actors == Drop(r.actors, {a})
  {
    hide Distinct, IndexOf, Drop;
    var idx := IndexOf(r.actors, a);
    if idx < 0 {
      DropNone(r.actors, {a});
    } else {
      var front, back := r.actors[..idx], r.actors[idx + 1..];
      SplitAtIndex(r.actors, a);
      DropConcat(front + [a], back, {a});
      DropConcat(front, [a], {a});
      DropNone(front, {a});
      DropNone(back, {a});
      DropSingle(a);
    }
  }

  lemma DropSingle(a: string)
    ensures Drop([a], {a}) == []
  {
  }

  lemma UpdatedActors(r: Reaction, a: string, e: string)
    requires Sound(r) && a != ""
    ensures UpdatedEntry(r, a, e).actors == Drop(r.actors, {a}) + if e != "" && r.emoji == e then [a] else []
  {
    WithoutDrops(r, a);
    UpdatedEntrySound(r, a, "");
  }

  /** Two entries that differ at most in where the actors of `A` stand. */
  ghost predicate AgreeBeyond(r: Reaction, t: Reaction, A: set<string>) {
    && r.emoji == t.emoji && Sound(r) && Sound(t)
    && r.count - |r.actors| == t.count - |t.actors|
    && Drop(r.actors, A) == Drop(t.actors, A)
  }

  lemma DropUpdated(r: Reaction, a: string, e: string, A: set<string>)
    requires Sound(r) && a != ""
    ensures Drop(UpdatedEntry(r, a, e).actors, A - {a})
         == Drop(Drop(r.actors, A), {a}) + if e != "" && r.emoji == e then [a] else []
    ensures Drop(UpdatedEntry(r, a, e).actors, A + {a}) == Drop(Drop(r.actors, A), {a})
  {
    UpdatedActors(r, a, e);
    var tail := if e != "" && r.emoji == e then [a] else [];
    var kept := Drop(r.actors, {a});
    DropConcat(kept, tail, A - {a});
    DropConcat(kept, tail, A + {a});
    DropTwice(r.actors, {a}, A - {a});
    DropTwice(r.actors, {a}, A + {a});
    DropTwice(r.actors, A, {a});
    assert {a} + (A - {a}) == A + {a} == {a} + (A + {a});
    assert Drop(tail, A - {a}) == tail && Drop(tail, A + {a}) == [];
  }

  /** An update of `a` settles where `a` stands. */
  lemma AgreementGrows(r: Reaction, t: Reaction, A: set<string>, a: string, e: string)
    requires AgreeBeyond(r, t, A)
    ensures AgreeBeyond(UpdatedEntry(r, a, e), UpdatedEntry(t, a, e), if a == "" then A else A - {a})
  {
    UpdatedEntrySound(r, a, e);
    UpdatedEntrySound(t, a, e);
    if a != "" {
      DropUpdated(r, a, e, A);
      DropUpdated(t, a, e, A);
    }
  }

  lemma AgreementSpoiled(r: Reaction, t: Reaction, A: set<string>, a: string, e: string)
    requires AgreeBeyond(r, t, A) && (a == "" ==> e == "")
    ensures AgreeBeyond(UpdatedEntry(r, a, e), t, if a == "" then A else A + {a})
  {
    UpdatedEntrySound(r, a, e);
    if a != "" {
      DropUpdated(r, a, e, A);
      DropTwice(t.actors, A, {a});
    }
  }

  function Actors(us: seq<Update>): set<string> {
    if us == [] then {} else
      Actors(us[..|us| - 1]) + if TrimSpace(us[|us| - 1].actor) == "" then {} else {TrimSpace(us[|us| - 1].actor)}
  }

  predicate NoneAnonymous(us: seq<Update>) {
    forall i :: 0 <= i < |us| ==> !IsAnonymous(us[i])
  }

  lemma {:induction false} RunSpoilsOnlyItsActors(rs: seq<Reaction>, us: seq<Update>, x: string)
    requires Canonical(rs) && x != "" && NoneAnonymous(us)
    ensures AgreeBeyond(Entry(RunFrom(rs, us), x), Entry(rs, x), Actors(us))
  {
    hide EntryAt, Updated, UpdatedEntry, Canonical, TrimSpace, Sound, Drop;
    if us == [] {
      EntrySound(rs, x);
    } else {
      var mid, u := RunFrom(rs, us[..|us| - 1]), us[|us| - 1];
      RunSpoilsOnlyItsActors(rs, us[..|us| - 1], x);
      RunStaysCanonical(rs, us[..|us| - 1]);
      UpdateLaw(mid, u.actor, u.emoji, x);
      assert !IsAnonymous(u);
      AgreementSpoiled(Entry(mid, x), Entry(rs, x), Actors(us[..|us| - 1]), TrimSpace(u.actor), TrimSpace(u.emoji));
      assert Actors(us) ==
        if TrimSpace(u.actor) == "" then Actors(us[..|us| - 1]) else Actors(us[..|us| - 1]) + {TrimSpace(u.actor)};
    }
  }

  lemma {:induction false} RunSettlesItsActors(rs: seq<Reaction>, ts: seq<Reaction>, A: set<string>,
        us: seq<Update>, x: string)
    requires Canonical(rs) && Canonical(ts) && x != "" && AgreeBeyond(Entry(rs, x), Entry(ts, x), A)
    ensures AgreeBeyond(Entry(RunFrom(rs, us), x), Entry(RunFrom(ts, us), x), A - Actors(us))
  {
    hide EntryAt, Updated, UpdatedEntry, Canonical, TrimSpace, Sound, Drop;
    if us == [] {
      assert A - Actors(us) == A;
    } else {
      var init, u := us[..|us| - 1], us[|us| - 1];
      var a := TrimSpace(u.actor);
      RunSettlesItsActors(rs, ts, A, init, x);
      RunStaysCanonical(rs, init);
      RunStaysCanonical(ts, init);
      UpdateLaw(RunFrom(rs, init), u.actor, u.emoji, x);
      UpdateLaw(RunFrom(ts, init), u.actor, u.emoji, x);
      AgreementGrows(Entry(RunFrom(rs, init), x), Entry(RunFrom(ts, init), x), A - Actors(init), a, TrimSpace(u.emoji));
      assert A - Actors(us) == if a == "" then A - Actors(init) else A - Actors(init) - {a};
    }
  }

  /** A canonical list is determined by its entries. */
  lemma {:induction false} CanonicalExtensional(s: seq<Reaction>, t: seq<Reaction>)
    requires StrictlySorted(s) && StrictlySorted(t) && forall r :: r in s <==> r in t
    ensures s == t
  {
    hide Less;
    assert forall i :: 0 <= i < |s| ==> s[i] in t;
    assert forall i :: 0 <= i < |t| ==> t[i] in s;
    if s != [] && t != [] {
      if s[0] != t[0] {
        assert s[0] in t && t[0] in s;
        LessAsym(s[0].emoji, t[0].emoji);
      }
      SortedTail(s);
      SortedTail(t);
      CanonicalExtensional(s[1..], t[1..]);
      assert s == [s[0]] + s[1..] && t == [t[0]] + t[1..];
    }
  }

  lemma SortedTail(s: seq<Reaction>)
    requires StrictlySorted(s) && s != []
    ensures StrictlySorted(s[1..]) && forall r :: r in s[1..] <==> r in s && r != s[0]
  {
    hide Less;
    forall r | r in s[1..] ensures r != s[0] {
      LessIrreflexive(s[0].emoji);
    }
    assert forall r :: r in s ==> r == s[0] || r in s[1..];
  }

  lemma EntryMembers(s: seq<Reaction>, r: Reaction)
    requires Canonical(s)
    ensures r in s <==> r.emoji != "" && r.count > 0 && Entry(s, r.emoji) == r
  {
    hide Less;
    SortedDistinct(s);
    if i :| 0 <= i < |s| && s[i].emoji == r.emoji {
      EntryIs(s, |s|, i);
      assert EntryFine(s[i]);
      assert r in s ==> exists j :: 0 <= j < |s| && s[j] == r;
    } else {
      EntryAbsent(s, |s|, r.emoji);
    }
  }

  lemma SameEntriesSameList(s: seq<Reaction>, t: seq<Reaction>)
    requires Canonical(s) && Canonical(t) && forall x :: x != "" ==> Entry(s, x) == Entry(t, x)
    ensures s == t
  {
    hide EntryAt, EntryFine;
    forall r ensures r in s <==> r in t {
      EntryMembers(s, r);
      EntryMembers(t, r);
    }
    CanonicalExtensional(s, t);
  }

  lemma AgreementComplete(r: Reaction, t: Reaction, A: set<string>)
    requires AgreeBeyond(r, t, A) && A == {}
    ensures r == t
  {
    DropNone(r.actors, A);
    DropNone(t.actors, A);
  }

  lemma {:induction false} ReplayIsNoChange(rs: seq<Reaction>, us: seq<Update>)
    requires Canonical(rs) && NoneAnonymous(us)
    ensures RunFrom(RunFrom(rs, us), us) == RunFrom(rs, us)
  {
    hide EntryAt, Updated, Canonical, AgreeBeyond, RunFrom;
    var once := RunFrom(rs, us);
    RunStaysCanonical(rs, us);
    RunStaysCanonical(once, us);
    forall x | x != "" ensures Entry(RunFrom(once, us), x) == Entry(once, x) {
      RunSpoilsOnlyItsActors(rs, us, x);
      RunSettlesItsActors(once, rs, Actors(us), us, x);
      AgreementComplete(Entry(RunFrom(once, us), x), Entry(once, x), Actors(us) - Actors(us));
    }
    SameEntriesSameList(RunFrom(once, us), once);
  }

  lemma {:induction false} RunCountsAnonymous(rs: seq<Reaction>, us: seq<Update>, x: string)
    requires Canonical(rs) && x != ""
    ensures Entry(RunFrom(rs, us), x).count - |Entry(RunFrom(rs, us), x).actors|
         == Entry(rs, x).count - |Entry(rs, x).actors| + AnonymousCount(us, x)
  {
    hide EntryAt, Updated, UpdatedEntry, Canonical;
    if us != [] {
      var mid, u := RunFrom(rs, us[..|us| - 1]), us[|us| - 1];
      RunCountsAnonymous(rs, us[..|us| - 1], x);
      RunStaysCanonical(rs, us[..|us| - 1]);
      UpdateLaw(mid, u.actor, u.emoji, x);
      EntrySound(mid, x);
      UpdatedEntrySound(Entry(mid, x), TrimSpace(u.actor), TrimSpace(u.emoji));
    }
  }

  lemma {:induction false} AnonymousCounted(us: seq<Update>, i: nat)
    requires i < |us| && IsAnonymous(us[i])
    ensures AnonymousCount(us, TrimSpace(us[i].emoji)) > 0
  {
    if i < |us| - 1 { AnonymousCounted(us[..|us| - 1], i); }
  }

  /** Main result: applying a batch of updates a second time leaves every list as it was exactly
      when no update of the batch is an anonymous reaction. */
  lemma {:induction false} ReplayIsNoChangeExactly(us: seq<Update>)
    ensures (forall rs :: Canonical(rs) ==> RunFrom(RunFrom(rs, us), us) == RunFrom(rs, us)) <==> NoneAnonymous(us)
  {
    hide Canonical, RunFrom, EntryAt;
    if NoneAnonymous(us) {
      forall rs | Canonical(rs) ensures RunFrom(RunFrom(rs, us), us) == RunFrom(rs, us) {
        ReplayIsNoChange(rs, us);
      }
    } else {
      var i :| 0 <= i < |us| && IsAnonymous(us[i]);
      var x := TrimSpace(us[i].emoji);
      AnonymousCounted(us, i);
      EmptyCanonical();
      RunStaysCanonical([], us);
      RunCountsAnonymous(RunFrom([], us), us, x);
      assert RunFrom(RunFrom([], us), us) != RunFrom([], us);
    }
  }
}
