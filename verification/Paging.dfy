/** Keyset paging of one conversation: the Before, After and Around queries. */
module Paging {
  import opened Text
  import opened Records
  import opened Ordering

  function GetMessagesByConversation(rows: Table, conv: string, limit: int): seq<Message> {
    Limit(Descending(InConversation(rows, conv)), limit)
  }

  /** The WHERE clause of the Before query: without an id the cursor is the time alone. */
  predicate IsEarlier(m: Message, beforeMS: int, beforeId: string) {
    if beforeId == "" then m.ts < beforeMS
    else m.ts < beforeMS || (m.ts == beforeMS && Less(m.id, beforeId))
  }

  predicate IsLater(m: Message, afterMS: int, afterId: string) {
    if afterId == "" then m.ts > afterMS
    else m.ts > afterMS || (m.ts == afterMS && Less(afterId, m.id))
  }

  function EarlierThan(S: set<Message>, ms: int, id: string): (r: set<Message>)
    requires Keyed(S)
    ensures Keyed(r)
  {
    set m | m in S && IsEarlier(m, ms, id)
  }

  function LaterThan(S: set<Message>, ms: int, id: string): (r: set<Message>)
    requires Keyed(S)
    ensures Keyed(r)
  {
    set m | m in S && IsLater(m, ms, id)
  }

  function PageBefore(S: set<Message>, ms: int, id: string, limit: int): seq<Message>
    requires Keyed(S)
  {
    Limit(Descending(EarlierThan(S, ms, id)), limit)
  }

  function PageAfter(S: set<Message>, ms: int, id: string, limit: int): seq<Message>
    requires Keyed(S)
  {
    Limit(Ascending(LaterThan(S, ms, id)), limit)
  }

  function GetMessagesByConversationBefore(rows: Table, conv: string, beforeMS: int, beforeId: string,
        limit: int): seq<Message> {
    PageBefore(InConversation(rows, conv), beforeMS, beforeId, limit)
  }

  // ----- Paging backwards -----

  lemma EarlierShrinks(S: set<Message>, ms: int, id: string, last: Message)
    requires Keyed(S) && last in EarlierThan(S, ms, id)
    ensures EarlierThan(S, last.ts, last.id) < EarlierThan(S, ms, id)
  {
    assert !IsEarlier(last, last.ts, last.id) by { LessIrreflexive(last.id); }
    forall m | m in S && IsEarlier(m, last.ts, last.id) ensures IsEarlier(m, ms, id) {
      if m.ts == last.ts == ms { LessTrans(m.id, last.id, id); }
    }
  }

  lemma NextCursorBefore(S: set<Message>, ms: int, id: string, limit: int)
    requires Keyed(S)
    ensures var page := PageBefore(S, ms, id, limit);
      page != [] ==>
        var last := page[|page| - 1];
        EarlierThan(S, last.ts, last.id) < EarlierThan(S, ms, id)
  {
    hide Less, Before, Descends, Descending, Keyed;
    var page := PageBefore(S, ms, id, limit);
    if page != [] {
      assert page[|page| - 1] in Descending(EarlierThan(S, ms, id));
      EarlierShrinks(S, ms, id, page[|page| - 1]);
    }
  }

  /** The pages a client reads from a cursor until an empty page, joined together. */
  function PagesBefore(S: set<Message>, ms: int, id: string, limit: int): seq<Message>
    requires Keyed(S)
    decreases EarlierThan(S, ms, id)
  {
    NextCursorBefore(S, ms, id, limit);
    var page := PageBefore(S, ms, id, limit);
    if page == [] then [] else
      var last := page[|page| - 1];
      page + PagesBefore(S, last.ts, last.id, limit)
  }

  function AllPagesBackwards(rows: Table, conv: string, limit: int): seq<Message> {
    var page := GetMessagesByConversation(rows, conv, limit);
    if page == [] then []
    else page + PagesBefore(InConversation(rows, conv), page[|page| - 1].ts, page[|page| - 1].id, limit)
  }

  lemma DescendingSuffix(D: seq<Message>, i: nat, m: Message)
    requires Descends(D) && i < |D|
    ensures m in D[i + 1..] <==> m in D && Before(m, D[i])
  {
    hide Less;
    if m in D && Before(m, D[i]) {
      var k :| 0 <= k < |D| && D[k] == m;
      BeforeAsym(m, D[i]);
      assert D[i + 1..][k - i - 1] == m;
    }
  }

  lemma EarlierIsBefore(m: Message, c: Message)
    ensures IsEarlier(m, c.ts, c.id) <==> Before(m, c)
  {
  }

  /** The query resumes right after the cursor row, whatever its id, empty or not: against a row
      of the conversation the WHERE clause is the (timestamp, id) order. */
  lemma {:induction false} BeforeResumes(S: set<Message>, i: nat)
    requires Keyed(S) && i < |S|
    ensures var c := Descending(S)[i];
      Descending(EarlierThan(S, c.ts, c.id)) == Descending(S)[i + 1..]
  {
    hide Less, Descending;
    var D := Descending(S);
    var E := EarlierThan(S, D[i].ts, D[i].id);
    forall m ensures m in D[i + 1..] <==> m in E {
      DescendingSuffix(D, i, m);
      EarlierIsBefore(m, D[i]);
    }
    DescendingIs(E, D[i + 1..]);
  }

  lemma {:induction false} PagesBeforeFrom(S: set<Message>, i: nat, limit: int)
    requires Keyed(S) && limit != 0 && i < |S|
    ensures var c := Descending(S)[i]; PagesBefore(S, c.ts, c.id, limit) == Descending(S)[i + 1..]
    decreases |S| - i
  {
    hide Less, Before, Descends, Descending, EarlierThan, Lists, Keyed;
    var D := Descending(S);
    BeforeResumes(S, i);
    var page := PageBefore(S, D[i].ts, D[i].id, limit);
    if page != [] {
      var k := i + |page|;
      assert page == D[i + 1..k + 1];
      assert page[|page| - 1] == D[k];
      PagesBeforeFrom(S, k, limit);
      assert D[i + 1..] == D[i + 1..k + 1] + D[k + 1..];
    }
  }

  /** Main result: paging back yields the whole conversation, each row once, newest first. */
  lemma {:induction false} PagingBackwardsIsComplete(rows: Table, conv: string, limit: int)
    requires limit != 0
    ensures AllPagesBackwards(rows, conv, limit) == Descending(InConversation(rows, conv))
  {
    hide Less, Before, Descends, Descending, EarlierThan, Lists, PageBefore, PagesBefore, Keyed;
    var D := Descending(InConversation(rows, conv));
    var page := GetMessagesByConversation(rows, conv, limit);
    if page != [] {
      assert page[|page| - 1] == D[|page| - 1];
      PagesBeforeFrom(InConversation(rows, conv), |page| - 1, limit);
      assert D == D[..|page|] + D[|page|..];
    }
  }

  /** `r` lists the conversation's rows once each, newest first; equal times by id. */
  ghost predicate NewestToOldest(rows: Table, conv: string, r: seq<Message>) {
    && (forall m :: m in r <==> m.id in rows && rows[m.id] == m && m.conv == conv)
    && forall i, j :: 0 <= i < j < |r| ==> r[i].ts > r[j].ts || (r[i].ts == r[j].ts && Less(r[j].id, r[i].id))
  }

  lemma DescendingListsRows(rows: Table, conv: string)
    ensures NewestToOldest(rows, conv, Descending(InConversation(rows, conv)))
  {
    hide Less, Descending;
    var D := Descending(InConversation(rows, conv));
    assert Descends(D) && Lists(D, InConversation(rows, conv));
  }

  /** Main result: the pages read backwards with any page size hold each row of the conversation
      once, newest first. */
  lemma PagesListEachRowOnce(rows: Table, conv: string, limit: int)
    requires limit != 0
    ensures NewestToOldest(rows, conv, AllPagesBackwards(rows, conv, limit))
  {
    hide *;
    PagingBackwardsIsComplete(rows, conv, limit);
    DescendingListsRows(rows, conv);
  }

  // ----- Paging forwards -----

  lemma LaterShrinks(S: set<Message>, ms: int, id: string, last: Message)
    requires Keyed(S) && last in LaterThan(S, ms, id)
    ensures LaterThan(S, last.ts, last.id) < LaterThan(S, ms, id)
  {
    assert !IsLater(last, last.ts, last.id) by { LessIrreflexive(last.id); }
    forall m | m in S && IsLater(m, last.ts, last.id) ensures IsLater(m, ms, id) {
      if m.ts == last.ts == ms && id != "" { LessTrans(id, last.id, m.id); }
    }
  }

  lemma NextCursorAfter(S: set<Message>, ms: int, id: string, limit: int)
    requires Keyed(S)
    ensures var page := PageAfter(S, ms, id, limit);
      && (forall m :: m in page ==> m in LaterThan(S, ms, id))
      && (page != [] ==>
            var last := page[|page| - 1];
            LaterThan(S, last.ts, last.id) < LaterThan(S, ms, id))
  {
    hide Less, Before, Ascends, Ascending, Keyed;
    var page := PageAfter(S, ms, id, limit);
    if page != [] {
      assert page[|page| - 1] in Ascending(LaterThan(S, ms, id));
      LaterShrinks(S, ms, id, page[|page| - 1]);
    }
  }

  function PagesAfter(S: set<Message>, ms: int, id: string, limit: int): seq<Message>
    requires Keyed(S)
    decreases LaterThan(S, ms, id)
  {
    NextCursorAfter(S, ms, id, limit);
    var page := PageAfter(S, ms, id, limit);
    if page == [] then [] else
      var last := page[|page| - 1];
      page + PagesAfter(S, last.ts, last.id, limit)
  }

  /** A row with an empty id shares its time with another row of the conversation. */
  predicate EmptyIdShadows(S: set<Message>) {
    exists a, b :: a in S && b in S && a.id == "" && b.id != "" && a.ts == b.ts
  }

  lemma LaterIsBefore(S: set<Message>, m: Message, c: Message)
    requires Keyed(S) && m in S && c in S && !EmptyIdShadows(S)
    ensures IsLater(m, c.ts, c.id) <==> Before(c, m)
  {
    LessIrreflexive("");
  }

  lemma AscendingSuffix(A: seq<Message>, i: nat, m: Message)
    requires Ascends(A) && i < |A|
    ensures m in A[i + 1..] <==> m in A && Before(A[i], m)
  {
    hide Less;
    if m in A && Before(A[i], m) {
      var k :| 0 <= k < |A| && A[k] == m;
      BeforeAsym(A[i], m);
      assert A[i + 1..][k - i - 1] == m;
    }
  }

  lemma {:induction false} AfterResumes(S: set<Message>, i: nat)
    requires Keyed(S) && i < |S| && !EmptyIdShadows(S)
    ensures var c := Ascending(S)[i];
      Ascending(LaterThan(S, c.ts, c.id)) == Ascending(S)[i + 1..]
  {
    hide Less, Ascending, EmptyIdShadows;
    var A := Ascending(S);
    var L := LaterThan(S, A[i].ts, A[i].id);
    forall m ensures m in A[i + 1..] <==> m in L {
      AscendingSuffix(A, i, m);
      if m in S { LaterIsBefore(S, m, A[i]); }
    }
    AscendingIs(L, A[i + 1..]);
  }

  lemma {:induction false} PagesAfterFrom(S: set<Message>, i: nat, limit: int)
    requires Keyed(S) && limit != 0 && i < |S| && !EmptyIdShadows(S)
    ensures var c := Ascending(S)[i]; PagesAfter(S, c.ts, c.id, limit) == Ascending(S)[i + 1..]
    decreases |S| - i
  {
    hide Less, Before, Ascends, Ascending, LaterThan, Lists, EmptyIdShadows, Keyed;
    var A := Ascending(S);
    AfterResumes(S, i);
    var page := PageAfter(S, A[i].ts, A[i].id, limit);
    if page != [] {
      var k := i + |page|;
      assert page == A[i + 1..k + 1];
      assert page[|page| - 1] == A[k];
      PagesAfterFrom(S, k, limit);
      assert A[i + 1..] == A[i + 1..k + 1] + A[k + 1..];
    }
  }

  /** A start time before every row of the conversation. */
  predicate PrecedesAll(S: set<Message>, ms: int) {
    forall m :: m in S ==> ms < m.ts
  }

  lemma {:induction false} PagingForwardsCompletes(S: set<Message>, ms: int, limit: int)
    requires Keyed(S) && limit != 0 && PrecedesAll(S, ms) && !EmptyIdShadows(S)
    ensures PagesAfter(S, ms, "", limit) == Ascending(S)
  {
    hide Less, Before, Ascends, Ascending, Lists, EmptyIdShadows, Keyed;
    assert LaterThan(S, ms, "") == S;
    var page := PageAfter(S, ms, "", limit);
    if page != [] {
      assert page[|page| - 1] == Ascending(S)[|page| - 1];
      PagesAfterFrom(S, |page| - 1, limit);
      assert Ascending(S) == Ascending(S)[..|page|] + Ascending(S)[|page|..];
    }
  }

  /** Every row the remaining pages hold satisfies the After clause of the cursor. */
  lemma {:induction false} PagesAfterOnlyLater(S: set<Message>, ms: int, id: string, limit: int)
    requires Keyed(S)
    ensures forall m :: m in PagesAfter(S, ms, id, limit) ==> m.ts > ms || (id != "" && m.ts == ms)
    decreases LaterThan(S, ms, id)
  {
    hide Less, Before, Ascends, Ascending, Lists, Keyed, PageAfter;
    NextCursorAfter(S, ms, id, limit);
    var page := PageAfter(S, ms, id, limit);
    if page != [] {
      var last := page[|page| - 1];
      assert last in page;
      PagesAfterOnlyLater(S, last.ts, last.id, limit);
    }
  }

  /** Reading one row a page, the shadowed row is never delivered. */
  lemma {:induction false} ShadowedRowIsSkipped(S: set<Message>, ms: int, id: string, a: Message, b: Message)
    requires Keyed(S) && a in S && b in S
    requires a.id == "" && b.id != "" && a.ts == b.ts && IsLater(a, ms, id)
    ensures b !in PagesAfter(S, ms, id, 1)
    decreases LaterThan(S, ms, id)
  {
    hide Ascending;
    var A := Ascending(LaterThan(S, ms, id));
    assert a in A;
    var k :| 0 <= k < |A| && A[k] == a;
    assert PageAfter(S, ms, id, 1) == [A[0]];
    assert k == 0 || Before(A[0], a);
    assert A[0] != b by {
      if A[0] == b { BeforeAsym(b, a); }
    }
    NextCursorAfter(S, ms, id, 1);
    if k == 0 {
      PagesAfterOnlyLater(S, a.ts, a.id, 1);
    } else {
      ShadowedRowIsSkipped(S, A[0].ts, A[0].id, a, b);
    }
  }

  /** Main result: paging forwards yields the whole conversation in ascending order for every
      page size exactly when no empty-id row shares its time with another row. */
  lemma {:induction false} PagingForwardsExactly(rows: Table, conv: string, ms: int)
    requires PrecedesAll(InConversation(rows, conv), ms)
    ensures (forall limit :: limit > 0 ==>
               PagesAfter(InConversation(rows, conv), ms, "", limit) == Ascending(InConversation(rows, conv)))
       <==> !EmptyIdShadows(InConversation(rows, conv))
  {
    hide Less, Before, Ascends, Ascending, PagesAfter, Keyed;
    var S := InConversation(rows, conv);
    if EmptyIdShadows(S) {
      var a, b :| a in S && b in S && a.id == "" && b.id != "" && a.ts == b.ts;
      ShadowedRowIsSkipped(S, ms, "", a, b);
      assert b in Ascending(S);
      assert PagesAfter(S, ms, "", 1) != Ascending(S);
    } else {
      forall limit | limit > 0
        ensures PagesAfter(S, ms, "", limit) == Ascending(S)
      {
        PagingForwardsCompletes(S, ms, limit);
      }
    }
  }

  // ----- Around -----

  function Window(n: int): nat { if n <= 0 then 40 else n }

  function RowsBefore(S: set<Message>, anchor: Message): (r: set<Message>)
    requires Keyed(S)
    ensures Keyed(r)
  {
    set m | m in S && Before(m, anchor)
  }

  function RowsAfter(S: set<Message>, anchor: Message): (r: set<Message>)
    requires Keyed(S)
    ensures Keyed(r)
  {
    set m | m in S && Before(anchor, m)
  }

  /** The rows strictly before the anchor, newest first, are the front of the thread reversed. */
  lemma {:induction false} AnchorFront(S: set<Message>, i: nat)
    requires Keyed(S) && i < |S|
    ensures Descending(RowsBefore(S, Ascending(S)[i])) == Reversed(Ascending(S)[..i])
  {
    hide Less, Ascending, Descending;
    var A := Ascending(S);
    forall m ensures m in A[..i] <==> m in RowsBefore(S, A[i]) {
      if m in A && Before(m, A[i]) {
        var k :| 0 <= k < |A| && A[k] == m;
        BeforeAsym(m, A[i]);
        assert A[..i][k] == m;
      }
    }
    ReversedLists(A[..i], RowsBefore(S, A[i]));
    DescendingIs(RowsBefore(S, A[i]), Reversed(A[..i]));
  }

  lemma {:induction false} AnchorBack(S: set<Message>, i: nat)
    requires Keyed(S) && i < |S|
    ensures Ascending(RowsAfter(S, Ascending(S)[i])) == Ascending(S)[i + 1..]
  {
    hide Less, Ascending;
    var A := Ascending(S);
    forall m ensures m in A[i + 1..] <==> m in RowsAfter(S, A[i]) {
      AscendingSuffix(A, i, m);
    }
    AscendingIs(RowsAfter(S, A[i]), A[i + 1..]);
  }

  /** The contiguous slice of at most `before` rows, the row at `i`, and at most `after` rows. */
  function Slice(A: seq<Message>, i: nat, before: nat, after: nat): seq<Message>
    requires i < |A|
  {
    A[if i < before then 0 else i - before..if |A| < i + 1 + after then |A| else i + 1 + after]
  }

  ghost predicate IsSliceAround(A: seq<Message>, anchor: Message, before: nat, after: nat, r: seq<Message>) {
    exists i :: 0 <= i < |A| && A[i] == anchor && r == Slice(A, i, before, after)
  }

  lemma SliceParts(A: seq<Message>, i: nat, before: nat, after: nat)
    requires i < |A|
    ensures Reversed(Limit(Reversed(A[..i]), before)) + [A[i]] + Limit(A[i + 1..], after) == Slice(A, i, before, after)
  {
    var front := Reversed(Limit(Reversed(A[..i]), before));
    assert front == A[i - |front|..i];
  }

  lemma {:induction false} AroundIsSlice(S: set<Message>, anchor: Message, before: nat, after: nat)
    requires Keyed(S) && anchor in S
    ensures IsSliceAround(Ascending(S), anchor, before, after,
      Reversed(Limit(Descending(RowsBefore(S, anchor)), before)) + [anchor]
        + Limit(Ascending(RowsAfter(S, anchor)), after))
  {
    hide Less, Before, Ascends, Descends, Ascending, Descending, RowsBefore, RowsAfter, Reversed, Slice, Limit, Keyed;
    var A := Ascending(S);
    assert anchor in A;
    var i :| 0 <= i < |A| && A[i] == anchor;
    AnchorFront(S, i);
    AnchorBack(S, i);
    SliceParts(A, i, before, after);
  }

  method GetMessagesAroundMessage(rows: Table, conv: string, id: string, before: int, after: int)
    returns (r: Option<seq<Message>>)
    ensures r.None? <==> id !in rows || rows[id].conv != conv
    ensures r.Some? ==>
      IsSliceAround(Ascending(InConversation(rows, conv)), rows[id],
                    if before <= 0 then 40 else before, if after <= 0 then 40 else after, r.value)
  {
    hide Less, Before, Ascends, Descends, Lists, Ascending, Descending, RowsBefore, RowsAfter, Reversed, Slice,
          Limit, IsSliceAround, Keyed;
    if id !in rows || rows[id].conv != conv {
      return None;
    }
    var anchor, S := rows[id], InConversation(rows, conv);
    var beforeMsgs := Limit(Descending(RowsBefore(S, anchor)), Window(before));
    var afterMsgs := Limit(Ascending(RowsAfter(S, anchor)), Window(after));
    var result := [];
    var k := |beforeMsgs|;
    while k > 0
      invariant 0 <= k <= |beforeMsgs|
      invariant |result| == |beforeMsgs| - k
      invariant forall j :: 0 <= j < |result| ==> result[j] == beforeMsgs[|beforeMsgs| - 1 - j]
    {
      k := k - 1;
      result := result + [beforeMsgs[k]];
    }
    ReversedIs(beforeMsgs, result);
    AroundIsSlice(S, anchor, Window(before), Window(after));
    r := Some(result + [anchor] + afterMsgs);
  }
}
