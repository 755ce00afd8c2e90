/** `updateStoredReactions`: one actor's choice of emoji, or its removal, applied to a stored
    reaction list that is kept sorted by emoji. An empty actor is anonymous: it only counts. */
module SignalReactions {
  import opened Text
  import opened Records
  import opened Tapback

  // ----- The steps of the source -----

  /** The actor leaves every entry. */
  function Cleared(rs: seq<Reaction>, actor: string): (r: seq<Reaction>)
    ensures |r| == |rs|
  {
    seq(|rs|, i requires 0 <= i < |rs| => if actor == "" then rs[i] else Without(rs[i], actor))
  }

  /** The first entry of the emoji, or the length. */
  function Matching(rs: seq<Reaction>, emoji: string, k: nat): (i: nat)
    requires k <= |rs|
    ensures k <= i <= |rs| && (i < |rs| ==> TrimSpace(rs[i].emoji) == emoji)
    ensures forall j :: k <= j < i ==> TrimSpace(rs[j].emoji) != emoji
    decreases |rs| - k
  {
    hide TrimSpace;
    if k == |rs| || TrimSpace(rs[k].emoji) == emoji then k else Matching(rs, emoji, k + 1)
  }

  function Counted(r: Reaction, emoji: string, actor: string): Reaction {
    Reaction(emoji, r.count + 1, if actor != "" && actor !in r.actors then r.actors + [actor] else r.actors)
  }

  function Fresh(emoji: string, actor: string): Reaction {
    Reaction(emoji, 1, if actor == "" then [] else [actor])
  }

  function Chosen(rs: seq<Reaction>, emoji: string, actor: string): seq<Reaction> {
    if emoji == "" then rs else
      var i := Matching(rs, emoji, 0);
      if i < |rs| then rs[i := Counted(rs[i], emoji, actor)] else rs + [Fresh(emoji, actor)]
  }

  function Cleaned(r: Reaction): Reaction { r.(emoji := TrimSpace(r.emoji)) }

  predicate Stays(r: Reaction) { r.emoji != "" && r.count > 0 }

  function Packed(rs: seq<Reaction>, n: nat): seq<Reaction>
    requires n <= |rs|
  {
    if n == 0 then [] else
      Packed(rs, n - 1) + if Stays(Cleaned(rs[n - 1])) then [Cleaned(rs[n - 1])] else []
  }

  /** Where an entry goes among the first `n`: before every entry with a greater emoji. */
  function Place(rs: seq<Reaction>, n: nat, r: Reaction): (p: nat)
    requires n <= |rs|
    ensures p <= n && (p == 0 || !Less(r.emoji, rs[p - 1].emoji))
    ensures forall k :: p <= k < n ==> Less(r.emoji, rs[k].emoji)
  {
    if n == 0 || !Less(r.emoji, rs[n - 1].emoji) then n else Place(rs, n - 1, r)
  }

  function Inserted(rs: seq<Reaction>, r: Reaction): seq<Reaction> {
    var p := Place(rs, |rs|, r);
    rs[..p] + [r] + rs[p..]
  }

  function SortedByEmoji(rs: seq<Reaction>, n: nat): (s: seq<Reaction>)
    requires n <= |rs|
    ensures |s| == n
  {
    if n == 0 then [] else Inserted(SortedByEmoji(rs, n - 1), rs[n - 1])
  }

  predicate HasChange(rs: seq<Reaction>, actor: string, emoji: string) {
    TrimSpace(emoji) != "" ||
    (TrimSpace(actor) != "" && exists i :: 0 <= i < |rs| && TrimSpace(actor) in rs[i].actors)
  }

  function Updated(rs: seq<Reaction>, actor: string, emoji: string): seq<Reaction> {
    if !HasChange(rs, actor, emoji) then rs else
      var next := Chosen(Cleared(rs, TrimSpace(actor)), TrimSpace(emoji), TrimSpace(actor));
      var packed := Packed(next, |next|);
      SortedByEmoji(packed, |packed|)
  }

  /** `sort.Slice` by emoji, as an insertion sort. */
  method SortByEmoji(rs: seq<Reaction>) returns (s: seq<Reaction>)
    ensures s == SortedByEmoji(rs, |rs|)
  {
    s := [];
    var n := 0;
    while n < |rs|
      invariant n <= |rs| && s == SortedByEmoji(rs, n)
    {
      var p: nat := |s|;
      while p > 0 && Less(rs[n].emoji, s[p - 1].emoji)
        invariant 0 <= p <= |s|
        invariant Place(s, |s|, rs[n]) == Place(s, p, rs[n])
      {
        p := p - 1;
      }
      s := s[..p] + [rs[n]] + s[p..];
      n := n + 1;
    }
  }

  method ClearActor(existing: seq<Reaction>, actor: string) returns (reactions: seq<Reaction>, changed: bool)
    requires actor != ""
    ensures reactions == Cleared(existing, actor)
    ensures changed <==> exists k :: 0 <= k < |existing| && actor in existing[k].actors
    ensures !changed ==> reactions == existing
  {
    hide Without;
    reactions, changed := existing, false;
    var i := 0;
    while i < |reactions|
      invariant i <= |reactions| == |existing|
      invariant forall k :: 0 <= k < i ==> reactions[k] == Without(existing[k], actor)
      invariant forall k :: i <= k < |existing| ==> reactions[k] == existing[k]
      invariant changed <==> exists k :: 0 <= k < i && actor in existing[k].actors
      invariant !changed ==> reactions == existing
    {
      var r, found := RemoveActor(reactions[i], actor);
      if found {
        reactions := reactions[i := r];
        changed := true;
      }
      i := i + 1;
    }
  }

  method ChooseEmoji(existing: seq<Reaction>, emoji: string, actor: string) returns (reactions: seq<Reaction>)
    requires emoji != ""
    ensures reactions == Chosen(existing, emoji, actor)
  {
    hide TrimSpace;
    var i := 0;
    while i < |existing| && TrimSpace(existing[i].emoji) != emoji
      invariant i <= |existing|
      invariant Matching(existing, emoji, 0) == Matching(existing, emoji, i)
    {
      i := i + 1;
    }
    if i < |existing| {
      var r := existing[i];
      if actor != "" && actor !in r.actors {
        r := r.(actors := r.actors + [actor]);
      }
      reactions := existing[i := r.(emoji := emoji, count := r.count + 1)];
    } else {
      reactions := existing + [Reaction(emoji, 1, if actor != "" then [actor] else [])];
    }
  }

  method Compact(reactions: seq<Reaction>) returns (compacted: seq<Reaction>)
    ensures compacted == Packed(reactions, |reactions|)
  {
    hide TrimSpace;
    compacted := [];
    var n := 0;
    while n < |reactions|
      invariant n <= |reactions| && compacted == Packed(reactions, n)
    {
      var r := reactions[n].(emoji := TrimSpace(reactions[n].emoji));
      if r.emoji != "" && r.count > 0 {
        compacted := compacted + [r];
      }
      n := n + 1;
    }
  }

  method UpdateStoredReactions(existing: seq<Reaction>, actorId: string, emojiArg: string)
    returns (next: seq<Reaction>, changed: bool)
    ensures next == Updated(existing, actorId, emojiArg)
    ensures changed == HasChange(existing, actorId, emojiArg)
    ensures changed <==>
      || TrimSpace(emojiArg) != ""
      || (TrimSpace(actorId) != "" && exists i :: 0 <= i < |existing| && TrimSpace(actorId) in existing[i].actors)
    ensures !changed ==> next == existing
  {
    hide TrimSpace, Without, SortedByEmoji, Packed, Chosen;
    var reactions := existing;
    var actor, emoji := TrimSpace(actorId), TrimSpace(emojiArg);
    changed := false;
    if actor != "" {
      reactions, changed := ClearActor(reactions, actor);
    } else {
      assert Cleared(existing, actor) == existing;
    }
    if emoji != "" {
      reactions := ChooseEmoji(reactions, emoji, actor);
      changed := true;
    } else {
      ChoosingNothing(reactions, actor);
    }
    if !changed {
      return existing, false;
    }
    reactions := Compact(reactions);
    next := SortByEmoji(reactions);
  }

  lemma ChoosingNothing(rs: seq<Reaction>, actor: string)
    ensures Chosen(rs, "", actor) == rs
  {
  }

  // ----- What the list stands for -----

  predicate EntryFine(r: Reaction) {
    Trimmed(r.emoji) && r.emoji != "" && r.count >= 1 && r.count >= |r.actors| && Distinct(r.actors)
  }

  predicate StrictlySorted(rs: seq<Reaction>) {
    forall i, j :: 0 <= i < j < |rs| ==> Less(rs[i].emoji, rs[j].emoji)
  }

  /** Strictly sorted by emoji; an entry counts its distinct actors and its anonymous reactions. */
  predicate Canonical(rs: seq<Reaction>) {
    StrictlySorted(rs) && forall i :: 0 <= i < |rs| ==> EntryFine(rs[i])
  }

  function NoEntry(emoji: string): Reaction { Reaction(emoji, 0, []) }

  /** The entry of an emoji among the first `n`. */
  function EntryAt(rs: seq<Reaction>, n: nat, emoji: string): (r: Reaction)
    requires n <= |rs|
    ensures r.emoji == emoji
  {
    if n == 0 then NoEntry(emoji)
    else if rs[n - 1].emoji == emoji then rs[n - 1]
    else EntryAt(rs, n - 1, emoji)
  }

  function Entry(rs: seq<Reaction>, emoji: string): Reaction {
    EntryAt(rs, |rs|, emoji)
  }

  predicate DistinctEmojis(rs: seq<Reaction>) {
    forall i, j :: 0 <= i < j < |rs| ==> rs[i].emoji != rs[j].emoji
  }

  lemma {:induction false} EntryIs(rs: seq<Reaction>, n: nat, i: nat)
    requires i < n <= |rs| && DistinctEmojis(rs)
    ensures EntryAt(rs, n, rs[i].emoji) == rs[i]
  {
    if i < n - 1 { EntryIs(rs, n - 1, i); }
  }

  lemma {:induction false} EntryAbsent(rs: seq<Reaction>, n: nat, emoji: string)
    requires n <= |rs| && forall i :: 0 <= i < n ==> rs[i].emoji != emoji
    ensures EntryAt(rs, n, emoji) == NoEntry(emoji)
  {
    if n > 0 { EntryAbsent(rs, n - 1, emoji); }
  }

  lemma {:induction false} EntryOfPrefix(rs: seq<Reaction>, t: seq<Reaction>, n: nat, emoji: string)
    requires n <= |rs| && n <= |t| && forall i :: 0 <= i < n ==> rs[i] == t[i]
    ensures EntryAt(rs, n, emoji) == EntryAt(t, n, emoji)
  {
    if n > 0 { EntryOfPrefix(rs, t, n - 1, emoji); }
  }

  /** What one update does to the entry of one emoji. */
  function UpdatedEntry(r: Reaction, actor: string, emoji: string): Reaction {
    var cleared := if actor == "" then r else Without(r, actor);
    if emoji != "" && r.emoji == emoji then Counted(cleared, emoji, actor) else cleared
  }

  lemma {:induction false} ClearedEntry(rs: seq<Reaction>, n: nat, actor: string, x: string)
    requires n <= |rs|
    ensures EntryAt(Cleared(rs, actor), n, x) ==
      if actor == "" then EntryAt(rs, n, x) else Without(EntryAt(rs, n, x), actor)
  {
    if n > 0 { ClearedEntry(rs, n - 1, actor, x); }
  }

  lemma ChosenEntry(rs: seq<Reaction>, emoji: string, actor: string, x: string)
    requires DistinctEmojis(rs) && emoji != "" && forall i :: 0 <= i < |rs| ==> Trimmed(rs[i].emoji)
    ensures DistinctEmojis(Chosen(rs, emoji, actor))
    ensures Entry(Chosen(rs, emoji, actor), x) ==
      if x == emoji then Counted(Entry(rs, x), emoji, actor) else Entry(rs, x)
  {
    hide TrimSpace;
    var i, c := Matching(rs, emoji, 0), Chosen(rs, emoji, actor);
    if i < |rs| {
      if x == emoji {
        EntryIs(rs, |rs|, i);
        EntryIs(c, |c|, i);
      } else {
        SameElsewhere(rs, |rs|, i, c[i], x);
      }
    } else {
      EntryOfPrefix(rs, c, |rs|, x);
      if x == emoji { EntryAbsent(rs, |rs|, x); }
    }
  }

  lemma {:induction false} SameElsewhere(rs: seq<Reaction>, n: nat, i: nat, r: Reaction, x: string)
    requires n <= |rs| && i < |rs| && r.emoji == rs[i].emoji && x != r.emoji
    ensures EntryAt(rs[i := r], n, x) == EntryAt(rs, n, x)
  {
    if n > 0 { SameElsewhere(rs, n - 1, i, r, x); }
  }

  lemma {:induction false} PackedEntry(rs: seq<Reaction>, n: nat, x: string)
    requires n <= |rs| && DistinctEmojis(rs) && forall i :: 0 <= i < |rs| ==> Trimmed(rs[i].emoji)
    ensures Entry(Packed(rs, n), x) == if Stays(EntryAt(rs, n, x)) then EntryAt(rs, n, x) else NoEntry(x)
  {
    hide TrimSpace;
    if n > 0 {
      PackedEntry(rs, n - 1, x);
      var p := Packed(rs, n - 1);
      EntryOfPrefix(p, Packed(rs, n), |p|, x);
      if rs[n - 1].emoji == x { EntryAbsent(rs, n - 1, x); }
    }
  }

  lemma {:induction false} PackedMembers(rs: seq<Reaction>, n: nat)
    requires n <= |rs| && DistinctEmojis(rs) && forall i :: 0 <= i < |rs| ==> Trimmed(rs[i].emoji)
    ensures DistinctEmojis(Packed(rs, n))
    ensures forall k :: 0 <= k < |Packed(rs, n)| ==>
      Stays(Packed(rs, n)[k]) && exists i :: 0 <= i < n && rs[i] == Packed(rs, n)[k]
  {
    hide TrimSpace;
    if n > 0 { PackedMembers(rs, n - 1); }
  }

  lemma InsertedSorted(rs: seq<Reaction>, r: Reaction)
    requires StrictlySorted(rs) && forall i :: 0 <= i < |rs| ==> rs[i].emoji != r.emoji
    ensures StrictlySorted(Inserted(rs, r))
  {
    hide Less;
    var p := Place(rs, |rs|, r);
    forall i | 0 <= i < p ensures Less(rs[i].emoji, r.emoji) {
      LessTotal(rs[p - 1].emoji, r.emoji);
      if i < p - 1 { LessTrans(rs[i].emoji, rs[p - 1].emoji, r.emoji); }
    }
  }

  lemma SortedDistinct(rs: seq<Reaction>)
    requires StrictlySorted(rs)
    ensures DistinctEmojis(rs)
  {
    forall i, j | 0 <= i < j < |rs| ensures rs[i].emoji != rs[j].emoji {
      LessIrreflexive(rs[i].emoji);
    }
  }

  lemma InsertedEntry(rs: seq<Reaction>, r: Reaction, x: string)
    requires StrictlySorted(rs) && forall i :: 0 <= i < |rs| ==> rs[i].emoji != r.emoji
    ensures Entry(Inserted(rs, r), x) == if x == r.emoji then r else Entry(rs, x)
  {
    hide Less, EntryAt;
    var p, t := Place(rs, |rs|, r), Inserted(rs, r);
    InsertedSorted(rs, r);
    SortedDistinct(t);
    SortedDistinct(rs);
    assert t[p] == r;
    EntryIs(t, |t|, p);
    if x != r.emoji {
      if i :| 0 <= i < |rs| && rs[i].emoji == x {
        EntryIs(rs, |rs|, i);
        assert t[if i < p then i else i + 1] == rs[i];
        EntryIs(t, |t|, if i < p then i else i + 1);
      } else {
        EntryAbsent(rs, |rs|, x);
        EntryAbsent(t, |t|, x);
      }
    }
  }

  lemma {:induction false} SortedKeepsEntries(rs: seq<Reaction>, n: nat, x: string)
    requires n <= |rs| && DistinctEmojis(rs)
    ensures StrictlySorted(SortedByEmoji(rs, n))
    ensures Entry(SortedByEmoji(rs, n), x) == EntryAt(rs, n, x)
    ensures forall k :: 0 <= k < n ==> exists i :: 0 <= i < n && SortedByEmoji(rs, n)[k] == rs[i]
  {
    hide EntryAt, Less, Inserted;
    if n == 0 {
      EntryAbsent(rs, 0, x);
      EntryAbsent([], 0, x);
    } else {
      var s := SortedByEmoji(rs, n - 1);
      SortedKeepsEntries(rs, n - 1, x);
      InsertedSorted(s, rs[n - 1]);
      InsertedEntry(s, rs[n - 1], x);
      InsertedMembers(s, rs[n - 1]);
      EntryUnfolds(rs, n, x);
    }
  }

  lemma InsertedMembers(s: seq<Reaction>, r: Reaction)
    ensures |Inserted(s, r)| == |s| + 1
    ensures forall k :: 0 <= k < |Inserted(s, r)| ==>
      Inserted(s, r)[k] == r || exists i :: 0 <= i < |s| && Inserted(s, r)[k] == s[i]
  {
  }

  lemma EntryUnfolds(rs: seq<Reaction>, n: nat, x: string)
    requires 0 < n <= |rs|
    ensures EntryAt(rs, n, x) == if rs[n - 1].emoji == x then rs[n - 1] else EntryAt(rs, n - 1, x)
  {
  }

  // ----- Any stored list -----

  /** No later entry's emoji comes before an earlier one's. */
  predicate Ordered(rs: seq<Reaction>) {
    forall i, j :: 0 <= i < j < |rs| ==> !Less(rs[j].emoji, rs[i].emoji)
  }

  predicate AllClean(rs: seq<Reaction>) {
    forall i :: 0 <= i < |rs| ==> Trimmed(rs[i].emoji) && rs[i].emoji != "" && rs[i].count > 0
  }

  lemma {:induction false} PackedClean(rs: seq<Reaction>, n: nat)
    requires n <= |rs|
    ensures AllClean(Packed(rs, n))
  {
    hide TrimSpace, Trimmed;
    if n > 0 { PackedClean(rs, n - 1); }
  }

  lemma InsertedOrdered(rs: seq<Reaction>, r: Reaction)
    requires Ordered(rs)
    ensures Ordered(Inserted(rs, r))
  {
    hide Less;
    var p := Place(rs, |rs|, r);
    forall i | 0 <= i < p ensures !Less(r.emoji, rs[i].emoji) {
      if Less(r.emoji, rs[i].emoji) {
        LessTotal(rs[i].emoji, rs[p - 1].emoji);
        if Less(rs[i].emoji, rs[p - 1].emoji) { LessTrans(r.emoji, rs[i].emoji, rs[p - 1].emoji); }
      }
    }
    forall k | p <= k < |rs| ensures !Less(rs[k].emoji, r.emoji) {
      LessAsym(r.emoji, rs[k].emoji);
    }
  }

  lemma InsertedPermutes(rs: seq<Reaction>, r: Reaction)
    ensures multiset(Inserted(rs, r)) == multiset(rs) + multiset{r}
  {
    hide Place, Less;
    var p := Place(rs, |rs|, r);
    assert rs == rs[..p] + rs[p..];
  }

  lemma InsertedClean(rs: seq<Reaction>, r: Reaction)
    requires AllClean(rs) && AllClean([r])
    ensures AllClean(Inserted(rs, r))
  {
    hide Place, Less, Trimmed;
    assert [r][0] == r;
  }

  lemma {:induction false} SortedOrdered(rs: seq<Reaction>, n: nat)
    requires n <= |rs| && AllClean(rs)
    ensures Ordered(SortedByEmoji(rs, n)) && AllClean(SortedByEmoji(rs, n))
    ensures multiset(SortedByEmoji(rs, n)) == multiset(rs[..n])
  {
    hide Inserted, Ordered, AllClean;
    if n > 0 {
      var s := SortedByEmoji(rs, n - 1);
      SortedOrdered(rs, n - 1);
      InsertedOrdered(s, rs[n - 1]);
      InsertedPermutes(s, rs[n - 1]);
      CleanAt(rs, n - 1);
      InsertedClean(s, rs[n - 1]);
      assert rs[..n] == rs[..n - 1] + [rs[n - 1]];
    } else {
      EmptyClean();
    }
  }

  lemma CleanAt(rs: seq<Reaction>, k: nat)
    requires k < |rs| && AllClean(rs)
    ensures AllClean([rs[k]])
  {
    hide Trimmed;
  }

  lemma EmptyClean()
    ensures Ordered([]) && AllClean([])
  {
  }

  /** Whatever list was stored, an update that changes something leaves trimmed, non-blank, counted
      entries in the order of their emojis. */
  lemma {:induction false} AnyListIsCleaned(rs: seq<Reaction>, actor: string, emoji: string)
    requires HasChange(rs, actor, emoji)
    ensures Ordered(Updated(rs, actor, emoji)) && AllClean(Updated(rs, actor, emoji))
  {
    hide TrimSpace, Chosen, Cleared, Packed, SortedByEmoji, HasChange, Ordered, AllClean;
    var next := Chosen(Cleared(rs, TrimSpace(actor)), TrimSpace(emoji), TrimSpace(actor));
    PackedClean(next, |next|);
    SortedOrdered(Packed(next, |next|), |Packed(next, |next|)|);
  }
}
