/** `dedupePersonMessages`: near-duplicate messages across a person's conversations. */
module People {
  import opened Records

  const TWIN_WINDOW_MS := 2000
  const LOOKBACK := 20

  predicate Sorted(s: seq<Message>) {
    forall i, j :: 0 <= i < j < |s| ==> s[i].ts <= s[j].ts
  }

  // ----- sort.SliceStable by time -----

  /** Where `m` goes among the first `n` elements: after every element that is not later. */
  function Place(s: seq<Message>, n: nat, m: Message): (p: nat)
    requires n <= |s|
    ensures p <= n && (p == 0 || s[p - 1].ts <= m.ts)
    ensures forall k :: p <= k < n ==> s[k].ts > m.ts
  {
    if n == 0 || s[n - 1].ts <= m.ts then n else Place(s, n - 1, m)
  }

  function InsertByTime(s: seq<Message>, m: Message): (r: seq<Message>)
    ensures |r| == |s| + 1
  {
    var p := Place(s, |s|, m);
    s[..p] + [m] + s[p..]
  }

  /** The first `n` elements, stably sorted. */
  function SortedPrefix(s: seq<Message>, n: nat): (r: seq<Message>)
    requires n <= |s|
    ensures |r| == n
  {
    if n == 0 then [] else InsertByTime(SortedPrefix(s, n - 1), s[n - 1])
  }

  function StableSorted(s: seq<Message>): (r: seq<Message>)
    ensures |r| == |s|
  {
    SortedPrefix(s, |s|)
  }

  /** The elements of one time, in order. */
  function AtTime(s: seq<Message>, t: int): seq<Message> {
    if s == [] then [] else AtTime(s[..|s| - 1], t) + if s[|s| - 1].ts == t then [s[|s| - 1]] else []
  }

  lemma {:induction false} AtTimeConcat(a: seq<Message>, b: seq<Message>, t: int)
    ensures AtTime(a + b, t) == AtTime(a, t) + AtTime(b, t)
  {
    if b == [] {
      assert a + b == a;
    } else {
      AtTimeConcat(a, b[..|b| - 1], t);
      assert (a + b)[..|a + b| - 1] == a + b[..|b| - 1];
    }
  }

  lemma {:induction false} AtTimeNone(s: seq<Message>, t: int)
    requires forall k :: 0 <= k < |s| ==> s[k].ts != t
    ensures AtTime(s, t) == []
  {
    if s != [] { AtTimeNone(s[..|s| - 1], t); }
  }

  lemma InsertIsStable(s: seq<Message>, m: Message, t: int)
    ensures AtTime(InsertByTime(s, m), t) == AtTime(s, t) + AtTime([m], t)
  {
    var p := Place(s, |s|, m);
    AtTimeConcat(s[..p] + [m], s[p..], t);
    AtTimeConcat(s[..p], [m], t);
    AtTimeConcat(s[..p], s[p..], t);
    assert s == s[..p] + s[p..];
    if m.ts == t {
      AtTimeNone(s[p..], t);
    } else {
      AtTimeNone([m], t);
    }
  }

  lemma InsertIsSorted(s: seq<Message>, m: Message)
    requires Sorted(s)
    ensures Sorted(InsertByTime(s, m))
  {
  }

  lemma {:induction false} SortedPrefixIsStable(s: seq<Message>, n: nat, t: int)
    requires n <= |s|
    ensures Sorted(SortedPrefix(s, n))
    ensures AtTime(SortedPrefix(s, n), t) == AtTime(s[..n], t)
  {
    hide AtTime, InsertByTime;
    if n > 0 {
      SortedPrefixIsStable(s, n - 1, t);
      InsertIsSorted(SortedPrefix(s, n - 1), s[n - 1]);
      InsertIsStable(SortedPrefix(s, n - 1), s[n - 1], t);
      AtTimeConcat(s[..n - 1], [s[n - 1]], t);
      assert s[..n] == s[..n - 1] + [s[n - 1]];
    } else {
      assert SortedPrefix(s, 0) == s[..0];
    }
  }

  /** The sort is correct and stable: sorted, and the messages of each time keep their order. */
  lemma StableSortedIsStable(s: seq<Message>, t: int)
    ensures Sorted(StableSorted(s))
    ensures AtTime(StableSorted(s), t) == AtTime(s, t)
  {
    SortedPrefixIsStable(s, |s|, t);
    assert s[..|s|] == s;
  }

  lemma {:induction false} SortOfSorted(s: seq<Message>, n: nat)
    requires Sorted(s) && n <= |s|
    ensures SortedPrefix(s, n) == s[..n]
  {
    if n > 0 {
      SortOfSorted(s, n - 1);
    }
  }

  lemma PlaceIs(s: seq<Message>, m: Message, j: nat)
    requires j <= |s| && (forall k :: j <= k < |s| ==> s[k].ts > m.ts) && (j == 0 || s[j - 1].ts <= m.ts)
    ensures Place(s, |s|, m) == j
  {
    var p := Place(s, |s|, m);
    var atJ, atP := if j < |s| then s[j].ts else m.ts, if p < |s| then s[p].ts else m.ts;
  }

  lemma SortedNext(s: seq<Message>, n: nat)
    requires n < |s|
    ensures SortedPrefix(s, n + 1) == InsertByTime(SortedPrefix(s, n), s[n])
  {
    hide InsertByTime;
  }

  /** Moves the element at `i` down to its place among those before it. */
  method InsertInPlace(msgs: array<Message>, i: nat)
    requires i < msgs.Length
    modifies msgs
    ensures msgs[..i + 1] == InsertByTime(old(msgs[..i]), old(msgs[i]))
    ensures forall k :: i < k < msgs.Length ==> msgs[k] == old(msgs[k])
  {
    hide InsertByTime, Place;
    ghost var done := msgs[..i];
    var m := msgs[i];
    var j := i;
    while j > 0 && msgs[j - 1].ts > m.ts
      invariant j <= i
      invariant forall k :: 0 <= k < j ==> msgs[k] == done[k]
      invariant forall k :: j <= k < i ==> msgs[k + 1] == done[k] && done[k].ts > m.ts
      invariant forall k :: i < k < msgs.Length ==> msgs[k] == old(msgs[k])
    {
      msgs[j] := msgs[j - 1];
      j := j - 1;
    }
    msgs[j] := m;
    PlacedIs(done, m, j, msgs[..i + 1]);
  }

  /** An in-place stable sort. */
  method SliceStable(msgs: array<Message>)
    modifies msgs
    ensures msgs[..] == StableSorted(old(msgs[..]))
  {
    hide InsertByTime, Place, SortedPrefix;
    ghost var s := msgs[..];
    var i := 0;
    assert SortedPrefix(s, 0) == [];
    while i < msgs.Length
      invariant i <= msgs.Length
      invariant msgs[..i] == SortedPrefix(s, i)
      invariant forall k :: i <= k < msgs.Length ==> msgs[k] == s[k]
    {
      InsertInPlace(msgs, i);
      SortedNext(s, i);
      i := i + 1;
    }
    assert msgs[..i] == msgs[..];
  }

  lemma PlacedIs(s: seq<Message>, m: Message, j: nat, r: seq<Message>)
    requires j <= |s| && (forall k :: j <= k < |s| ==> s[k].ts > m.ts) && (j == 0 || s[j - 1].ts <= m.ts)
    requires |r| == |s| + 1 && (forall k :: 0 <= k < j ==> r[k] == s[k]) && r[j] == m
    requires forall k :: j <= k < |s| ==> r[k + 1] == s[k]
    ensures r == InsertByTime(s, m)
  {
    PlaceIs(s, m, j);
  }

  // ----- The deduplication -----

  /** Same text, same direction, `m` at most two seconds after `prev`. */
  predicate Twin(prev: Message, m: Message) {
    && 0 <= m.ts - prev.ts <= TWIN_WINDOW_MS
    && m.body == prev.body && m.fromMe == prev.fromMe
  }

  /** A twin of `m` among the kept messages from position `from` on. */
  predicate HasTwin(kept: seq<Message>, from: nat, m: Message) {
    exists i :: from <= i < |kept| && Twin(kept[i], m)
  }

  /** The source looks back at the last twenty kept messages only. */
  function RecentFrom(kept: seq<Message>): (from: nat)
    ensures from <= |kept|
  {
    if |kept| <= LOOKBACK then 0 else |kept| - LOOKBACK
  }

  function KeepNew(kept: seq<Message>, from: nat, m: Message): seq<Message> {
    if HasTwin(kept, from, m) then kept else kept + [m]
  }

  /** What is kept of the first `n` messages. */
  function Dedupe(s: seq<Message>, n: nat): seq<Message>
    requires n <= |s|
  {
    if n == 0 then [] else
      var kept := Dedupe(s, n - 1);
      KeepNew(kept, RecentFrom(kept), s[n - 1])
  }

  /** The same with an unbounded look-back. */
  function DedupeUnbounded(s: seq<Message>, n: nat): seq<Message>
    requires n <= |s|
  {
    if n == 0 then [] else KeepNew(DedupeUnbounded(s, n - 1), 0, s[n - 1])
  }

  function Deduped(s: seq<Message>): seq<Message> {
    Dedupe(StableSorted(s), |s|)
  }

  lemma {:induction false} DedupeSorted(s: seq<Message>, n: nat)
    requires Sorted(s) && n <= |s|
    ensures Sorted(Dedupe(s, n))
    ensures forall i, k :: 0 <= i < |Dedupe(s, n)| && n <= k < |s| ==> Dedupe(s, n)[i].ts <= s[k].ts
  {
    if n > 0 {
      DedupeSorted(s, n - 1);
    }
  }

  predicate Increasing(ks: seq<nat>) {
    forall i, j :: 0 <= i < j < |ks| ==> ks[i] < ks[j]
  }

  /** `kept` is the subsequence of `s` at the positions `ks`, all below `n`. */
  predicate SubsequenceAt(kept: seq<Message>, s: seq<Message>, n: nat, ks: seq<nat>)
    requires n <= |s|
  {
    && |ks| == |kept| && Increasing(ks)
    && forall i :: 0 <= i < |ks| ==> ks[i] < n && s[ks[i]] == kept[i]
  }

  /** Position `j` was dropped because of a twin among the twenty kept right before it. */
  predicate DroppedForTwin(kept: seq<Message>, ks: seq<nat>, m: Message, j: nat) {
    exists i :: 0 <= i < |ks| && i < |kept| && IsRecent(ks, i, j) && Twin(kept[i], m)
  }

  /** The `i`-th kept position is before `j`, and fewer than twenty others are in between. */
  predicate IsRecent(ks: seq<nat>, i: nat, j: nat)
    requires i < |ks|
  {
    ks[i] < j && (i + 20 < |ks| ==> j < ks[i + 20])
  }

  lemma TwinStays(kept: seq<Message>, ks: seq<nat>, more: seq<Message>, ks': seq<nat>, m: Message, j: nat)
    requires DroppedForTwin(kept, ks, m, j) && kept <= more && ks <= ks'
    requires forall k :: |ks| <= k < |ks'| ==> j < ks'[k]
    ensures DroppedForTwin(more, ks', m, j)
  {
    hide Twin;
    var i :| 0 <= i < |ks| && i < |kept| && IsRecent(ks, i, j) && Twin(kept[i], m);
    assert more[i] == kept[i] && ks'[i] == ks[i];
  }

  ghost predicate Explained(kept: seq<Message>, s: seq<Message>, n: nat, ks: seq<nat>)
    requires n <= |s|
  {
    && SubsequenceAt(kept, s, n, ks)
    && forall j :: 0 <= j < n && j !in ks ==> DroppedForTwin(kept, ks, s[j], j)
  }

  lemma DroppedNext(kept: seq<Message>, s: seq<Message>, n: nat, ks: seq<nat>, from: nat)
    requires n < |s| && Explained(kept, s, n, ks) && HasTwin(kept, from, s[n]) && |kept| <= from + 20
    ensures Explained(kept, s, n + 1, ks)
  {
    hide Twin, DroppedForTwin, Increasing;
    TwinIsRecent(kept, s, n, ks, from);
    forall j | 0 <= j < n + 1 && j !in ks ensures DroppedForTwin(kept, ks, s[j], j) {
      if j == n { assert s[j] == s[n]; }
    }
  }

  lemma TwinIsRecent(kept: seq<Message>, s: seq<Message>, n: nat, ks: seq<nat>, from: nat)
    requires n < |s| && SubsequenceAt(kept, s, n, ks) && HasTwin(kept, from, s[n]) && |kept| <= from + 20
    ensures DroppedForTwin(kept, ks, s[n], n)
  {
    hide Twin, Increasing;
    var i :| from <= i < |kept| && Twin(kept[i], s[n]);
    assert ks[i] < n && IsRecent(ks, i, n);
  }

  lemma KeptNext(kept: seq<Message>, s: seq<Message>, n: nat, ks: seq<nat>)
    requires n < |s| && Explained(kept, s, n, ks)
    ensures Explained(kept + [s[n]], s, n + 1, ks + [n])
  {
    hide DroppedForTwin, Twin;
    var ks' := ks + [n];
    assert ks'[|ks|] == n;
    forall j | 0 <= j < n + 1 && j !in ks' ensures DroppedForTwin(kept + [s[n]], ks', s[j], j) {
      assert forall i :: 0 <= i < |ks| ==> ks'[i] == ks[i];
      TwinStays(kept, ks, kept + [s[n]], ks', s[j], j);
    }
  }

  lemma RecentIsLast(kept: seq<Message>)
    ensures |kept| <= RecentFrom(kept) + 20
  {
  }

  lemma NothingYet(s: seq<Message>)
    ensures Explained([], s, 0, [])
  {
  }

  /** Main result: the output is a subsequence of the sorted input, and every message left out
      has a twin among the twenty kept right before it, at most two seconds earlier. */
  lemma {:induction false} DedupeKeepsSubsequence(s: seq<Message>, n: nat) returns (ks: seq<nat>)
    requires n <= |s|
    ensures Explained(Dedupe(s, n), s, n, ks)
  {
    hide HasTwin, RecentFrom, Explained;
    if n == 0 {
      ks := [];
      NothingYet(s);
    } else {
      ks := DedupeKeepsSubsequence(s, n - 1);
      var kept := Dedupe(s, n - 1);
      if HasTwin(kept, RecentFrom(kept), s[n - 1]) {
        assert |kept| <= RecentFrom(kept) + 20 by { RecentIsLast(kept); }
        DroppedNext(kept, s, n - 1, ks, RecentFrom(kept));
      } else {
        KeptNext(kept, s, n - 1, ks);
        ks := ks + [n - 1];
      }
    }
  }

  /** Every kept message was compared with the kept messages right before it. */
  lemma {:induction false} KeptHasNoTwin(s: seq<Message>, n: nat, i: nat)
    requires n <= |s| && i < |Dedupe(s, n)|
    ensures var p := Dedupe(s, n)[..i]; !HasTwin(p, RecentFrom(p), Dedupe(s, n)[i])
  {
    hide HasTwin, RecentFrom;
    var kept := Dedupe(s, n - 1);
    if i < |kept| {
      KeptHasNoTwin(s, n - 1, i);
      assert Dedupe(s, n)[..i] == kept[..i];
    } else {
      assert Dedupe(s, n)[..i] == kept;
    }
  }

  lemma {:induction false} DedupeFixesKept(s: seq<Message>, n: nat, i: nat)
    requires n <= |s| && i <= |Dedupe(s, n)|
    ensures Dedupe(Dedupe(s, n), i) == Dedupe(s, n)[..i]
  {
    hide HasTwin, RecentFrom;
    if i > 0 {
      DedupeFixesKept(s, n, i - 1);
      KeptHasNoTwin(s, n, i - 1);
    }
  }

  /** Main result: deduplicating twice changes nothing more. */
  lemma DedupeIdempotent(s: seq<Message>)
    ensures Deduped(Deduped(s)) == Deduped(s)
  {
    hide Dedupe, SortedPrefix;
    var d := Deduped(s);
    StableSortedIsStable(s, 0);
    DedupeSorted(StableSorted(s), |s|);
    SortOfSorted(d, |d|);
    assert d[..|d|] == d;
    DedupeFixesKept(StableSorted(s), |s|, |d|);
  }

  /** Same text and direction, no more than two seconds after the earlier message. */
  predicate Repeats(earlier: Message, m: Message) {
    m.body == earlier.body && m.fromMe == earlier.fromMe && earlier.ts <= m.ts <= earlier.ts + 2000
  }

  /** `m`, at position `j` of the input, repeats the `i`-th kept message, one of the twenty kept right
      before it. */
  predicate RepeatsKept(kept: seq<Message>, ks: seq<nat>, m: Message, j: nat, i: nat) {
    i < |ks| && i < |kept| && ks[i] < j && (i + 20 < |ks| ==> j < ks[i + 20]) && Repeats(kept[i], m)
  }

  /** Main result: what is left out and what stays. The list is part of the sorted input in order;
      a message left out repeats one of the twenty kept right before it; no kept message does. */
  lemma {:induction false} RepeatsGoExactly(s: seq<Message>) returns (ks: seq<nat>)
    ensures var sorted, d := StableSorted(s), Deduped(s);
      && Increasing(ks) && |ks| == |d| && (forall i :: 0 <= i < |ks| ==> ks[i] < |s| && sorted[ks[i]] == d[i])
      && (forall j :: 0 <= j < |s| && j !in ks ==> exists i: nat :: RepeatsKept(d, ks, sorted[j], j, i))
      && (forall i, j :: 0 <= j < i < |d| && i <= j + 20 ==> !Repeats(d[j], d[i]))
  {
    hide Dedupe, SortedPrefix, StableSorted, Twin, Repeats, RepeatsKept, DroppedForTwin;
    var sorted, d := StableSorted(s), Deduped(s);
    ks := DedupeKeepsSubsequence(sorted, |s|);
    forall j | 0 <= j < |s| && j !in ks
      ensures exists i: nat :: RepeatsKept(d, ks, sorted[j], j, i)
    {
      DroppedRepeats(d, ks, sorted[j], j);
    }
    forall i, j | 0 <= j < i < |d| && i <= j + 20 ensures !Repeats(d[j], d[i]) {
      KeptRepeatsNone(sorted, |s|, i, j);
    }
  }

  lemma DroppedRepeats(kept: seq<Message>, ks: seq<nat>, m: Message, j: nat)
    requires DroppedForTwin(kept, ks, m, j) && |ks| == |kept|
    ensures exists i: nat :: RepeatsKept(kept, ks, m, j, i)
  {
    hide Twin, Repeats;
    var i :| 0 <= i < |ks| && i < |kept| && IsRecent(ks, i, j) && Twin(kept[i], m);
    TwinRepeats(kept[i], m);
    assert RepeatsKept(kept, ks, m, j, i);
  }

  lemma KeptRepeatsNone(s: seq<Message>, n: nat, i: nat, j: nat)
    requires n <= |s| && j < i < |Dedupe(s, n)| && i <= j + 20
    ensures !Repeats(Dedupe(s, n)[j], Dedupe(s, n)[i])
  {
    hide Dedupe, Twin, Repeats;
    var d := Dedupe(s, n);
    var p := d[..i];
    KeptHasNoTwin(s, n, i);
    RecentIsLast(p);
    assert p[j] == d[j] && RecentFrom(p) <= j < |p|;
    assert !Twin(p[j], d[i]);
    TwinRepeats(d[j], d[i]);
  }

  lemma TwinRepeats(a: Message, b: Message)
    ensures Twin(a, b) <==> Repeats(a, b)
  {
  }

  /** No two-second span holds more than twenty of these messages. */
  predicate Sparse(s: seq<Message>) {
    forall i, j :: 0 <= i && i + LOOKBACK <= j < |s| ==> s[j].ts - s[i].ts > TWIN_WINDOW_MS
  }

  lemma SparseNeedsNoMore(kept: seq<Message>, m: Message)
    requires Sorted(kept) && Sparse(kept) && forall i :: 0 <= i < |kept| ==> kept[i].ts <= m.ts
    ensures HasTwin(kept, 0, m) <==> HasTwin(kept, RecentFrom(kept), m)
  {
    if HasTwin(kept, 0, m) {
      var i :| 0 <= i < |kept| && Twin(kept[i], m);
      var newest := kept[|kept| - 1].ts;
    }
  }

  /** Main result: then the twenty-message look-back is no restriction. */
  lemma {:induction false} BoundedLookbackSuffices(s: seq<Message>, n: nat)
    requires n <= |s| && Sorted(s) && Sparse(Dedupe(s, n))
    ensures Dedupe(s, n) == DedupeUnbounded(s, n)
  {
    if n > 0 {
      var kept := Dedupe(s, n - 1);
      assert Sparse(kept) by {
        assert forall i :: 0 <= i < |kept| ==> Dedupe(s, n)[i] == kept[i];
      }
      BoundedLookbackSuffices(s, n - 1);
      DedupeSorted(s, n - 1);
      SparseNeedsNoMore(kept, s[n - 1]);
    }
  }

  method DedupePersonMessages(msgs: array<Message>) returns (result: seq<Message>)
    modifies msgs
    ensures result == Deduped(old(msgs[..]))
    ensures msgs[..] == StableSorted(old(msgs[..]))
  {
    hide StableSorted, Twin;
    ghost var input := msgs[..];
    if msgs.Length <= 1 {
      OneMessage(input);
      return msgs[..];
    }
    StableSortedIsStable(input, 0);
    SliceStable(msgs);
    result := [];
    var n := 0;
    while n < msgs.Length
      invariant n <= msgs.Length
      invariant result == Dedupe(StableSorted(input), n)
      invariant msgs[..] == StableSorted(input)
    {
      var m := msgs[n];
      DedupeSorted(StableSorted(input), n);
      var dup := SeenRecently(result, m);
      if !dup {
        result := result + [m];
      }
      n := n + 1;
    }
  }

  lemma OneMessage(s: seq<Message>)
    requires |s| <= 1
    ensures StableSorted(s) == s && Deduped(s) == s
  {
    SortOfSorted(s, |s|);
    assert s[..|s|] == s;
    assert |s| == 1 ==> Dedupe(s, 0) == [] && s == [s[0]];
  }

  /** The backward inner loop, which stops at the first message more than two seconds older. */
  method SeenRecently(result: seq<Message>, m: Message) returns (dup: bool)
    requires Sorted(result)
    ensures dup == HasTwin(result, RecentFrom(result), m)
  {
    dup := false;
    var start := |result| - LOOKBACK;
    if start < 0 {
      start := 0;
    }
    var i := |result| - 1;
    while i >= start
      invariant start - 1 <= i < |result|
      invariant forall k :: i < k < |result| ==> !Twin(result[k], m)
    {
      var prev := result[i];
      var diff := m.ts - prev.ts;
      if diff > TWIN_WINDOW_MS {
        assert forall k :: 0 <= k <= i ==> !Twin(result[k], m);
        break;
      }
      if diff >= 0 && m.body == prev.body && m.fromMe == prev.fromMe {
        dup := true;
        assert Twin(result[i], m);
        break;
      }
      i := i - 1;
    }
  }
}
