/** Closing the gap to a newest-first server history: pages are fetched and stored until one
    reaches the newest local message, the history ends, or four pages are done. */
module Reconcile {
  import opened Text
  import opened Records
  import opened Ordering
  import opened Upsert

  const PAGE_SIZE := 30
  const MAX_PAGES := 4

  const PENDING_MARKERS: seq<string> :=
    ["DOWNLOADING", "UPLOADING", "SENDING", "YET_TO_SEND", "PROCESSING", "VALIDATING", "RESENDING", "QUEUED"]

  function Upper(s: string): string {
    seq(|s|, i requires 0 <= i < |s| => if 'a' <= s[i] <= 'z' then s[i] - 'a' + 'A' else s[i])
  }

  predicate Contains(s: string, part: string) {
    exists i :: 0 <= i <= |s| && HasPrefix(s[i..], part)
  }

  /** A message with no content and a terminal status. */
  predicate IsEmptyStub(m: Message) {
    var status := Upper(TrimSpace(m.status));
    && !HasContent(m)
    && status != "" && !HasPrefix(status, "TOMBSTONE")
    && forall k :: 0 <= k < |PENDING_MARKERS| ==> !Contains(status, PENDING_MARKERS[k])
  }

  /** What a fetch brings: the next `size` messages of the history, `more` when a cursor came. */
  datatype Answer = ClientGone | AuthExpired | FetchFailed | Served(size: nat, more: bool)

  datatype Stop = Aborted | Failed | EndOfHistory | NoLocalHistory | AtBoundary | PageLimit

  datatype Result = Result(rows: Table, handled: nat, stop: Stop)

  predicate ReachedBoundary(msgs: seq<Message>, localTS: int, localId: string) {
    || localTS == 0 || msgs == []
    || (localId != "" && exists i :: 0 <= i < |msgs| && msgs[i].id == localId)
    || exists i :: 0 <= i < |msgs| && msgs[i].ts < localTS
  }

  method ReconcileBatchReachedLocalBoundary(msgs: seq<Message>, localTS: int, localId: string) returns (reached: bool)
    ensures reached <==>
      || localTS == 0 || msgs == [] || (exists i :: 0 <= i < |msgs| && msgs[i].ts < localTS)
      || (localId != "" && exists i :: 0 <= i < |msgs| && msgs[i].id == localId)
    ensures reached <==> ReachedBoundary(msgs, localTS, localId)
  {
    if localTS == 0 || |msgs| == 0 {
      return true;
    }
    var oldest := msgs[0].ts;
    for i := 0 to |msgs|
      invariant exists j :: 0 <= j < |msgs| && msgs[j].ts == oldest
      invariant forall j :: 0 <= j < i ==> oldest <= msgs[j].ts
      invariant localId != "" ==> forall j :: 0 <= j < i ==> msgs[j].id != localId
    {
      if msgs[i].ts < oldest {
        oldest := msgs[i].ts;
      }
      if localId != "" && msgs[i].id == localId {
        return true;
      }
    }
    return oldest < localTS;
  }

  /** The messages of a page that are stored at all. */
  function Kept(msgs: seq<Message>): seq<Message> {
    if msgs == [] then [] else
      Kept(msgs[..|msgs| - 1]) + if IsEmptyStub(msgs[|msgs| - 1]) then [] else [msgs[|msgs| - 1]]
  }

  function StoreAll(rows: Table, msgs: seq<Message>): Table {
    UpsertAll(rows, Kept(msgs))
  }

  function PageEnd(history: seq<Message>, at: nat, size: nat): (end: nat)
    requires at <= |history|
    ensures at <= end <= |history|
  {
    if at + size <= |history| then at + size else |history|
  }

  /** What happens after a page was stored, `None` when the next page is fetched. */
  function AfterPage(msgs: seq<Message>, more: bool, localTS: int, localId: string): Option<Stop> {
    if localTS == 0 then Some(NoLocalHistory)
    else if ReachedBoundary(msgs, localTS, localId) then Some(AtBoundary)
    else if !more then Some(EndOfHistory)
    else None
  }

  /** Reconciling from page `page`, with `at` messages handled so far. */
  function From(rows: Table, history: seq<Message>, answers: seq<Answer>, at: nat, page: nat, localTS: int,
        localId: string): Result
    requires at <= |history| && page <= |answers|
    decreases |answers| - page
  {
    if page == |answers| then Result(rows, at, PageLimit) else
      match answers[page]
      case ClientGone => Result(rows, at, Aborted)
      case AuthExpired => Result(rows, at, Aborted)
      case FetchFailed => Result(rows, at, Failed)
      case Served(size, more) =>
        var end := PageEnd(history, at, size);
        var msgs := history[at..end];
        if msgs == [] then Result(rows, at, EndOfHistory) else
          var next := AfterPage(msgs, more, localTS, localId);
          if next.Some? then Result(StoreAll(rows, msgs), end, next.value)
          else From(StoreAll(rows, msgs), history, answers, end, page + 1, localTS, localId)
  }

  function Newest(rows: Table, conv: string): Option<Message> {
    var s := Limit(Descending(InConversation(rows, conv)), 1);
    if s == [] then None else Some(s[0])
  }

  function LocalTS(latest: Option<Message>): int { if latest.Some? then latest.value.ts else 0 }

  function LocalId(latest: Option<Message>): string { if latest.Some? then latest.value.id else "" }

  function Reconciled(rows: Table, history: seq<Message>, answers: seq<Answer>, latest: Option<Message>): Result
    requires |answers| == MAX_PAGES
  {
    From(rows, history, answers, 0, 0, LocalTS(latest), LocalId(latest))
  }

  class MessageTable {
    var rows: Table

    method StoreMessage(m: Message)
      modifies this
      ensures rows == if IsEmptyStub(m) then old(rows) else UpsertRow(old(rows), m)
      ensures TrimSpace(m.body) != "" || TrimSpace(m.mediaId) != "" || m.reactions != [] ==>
        rows == UpsertRow(old(rows), m)
    {
      if IsEmptyStub(m) {
        return;
      }
      rows := UpsertRow(rows, m);
    }

    method StoreMessages(msgs: seq<Message>)
      modifies this
      ensures rows == StoreAll(old(rows), msgs)
    {
      hide StoreAll, UpsertRow, IsEmptyStub;
      ghost var before := rows;
      StoreNone(rows);
      for i := 0 to |msgs|
        invariant rows == StoreAll(before, msgs[..i])
      {
        StoreMessage(msgs[i]);
        StoreStep(before, msgs[..i], msgs[i]);
        assert msgs[..i + 1] == msgs[..i] + [msgs[i]];
      }
      assert msgs[..|msgs|] == msgs;
    }

    /** `readOk` is false when reading the newest local message fails. */
    method ReconcileRecentConversationMessages(conv: string, history: seq<Message>, answers: seq<Answer>, readOk: bool)
      returns (storedAny: bool, aborted: bool)
      requires |answers| == MAX_PAGES
      modifies this
      ensures var r := Reconciled(old(rows), history, answers, if readOk then Newest(old(rows), conv) else None);
        rows == r.rows && storedAny == (r.handled > 0) && aborted == (r.stop == Aborted)
    {
      hide IsEmptyStub, ReachedBoundary, StoreAll, Newest;
      var latest := if readOk then Newest(rows, conv) else None;
      var localTS, localId := LocalTS(latest), LocalId(latest);
      var at, page := 0, 0;
      storedAny, aborted := false, false;
      ghost var result := Reconciled(rows, history, answers, latest);
      while page < MAX_PAGES
        invariant 0 <= page <= MAX_PAGES && 0 <= at <= |history|
        invariant result == From(rows, history, answers, at, page, localTS, localId)
        invariant storedAny == (at > 0)
      {
        var answer := answers[page];
        if answer.ClientGone? || answer.AuthExpired? {
          return storedAny, true;
        }
        if answer.FetchFailed? {
          return storedAny, false;
        }
        var end := PageEnd(history, at, answer.size);
        var msgs := history[at..end];
        if |msgs| == 0 {
          return storedAny, false;
        }
        StoreMessages(msgs);
        storedAny := true;
        if localTS == 0 {
          return storedAny, false;
        }
        var reached := ReconcileBatchReachedLocalBoundary(msgs, localTS, localId);
        if reached || !answer.more {
          return storedAny, false;
        }
        at, page := end, page + 1;
      }
    }
  }

  lemma KeptAppends(msgs: seq<Message>, m: Message)
    ensures Kept(msgs + [m]) == Kept(msgs) + if IsEmptyStub(m) then [] else [m]
  {
    assert (msgs + [m])[..|msgs|] == msgs;
  }

  lemma StoreAppends(rows: Table, kept: seq<Message>, m: Message)
    ensures UpsertAll(rows, kept + [m]) == UpsertRow(UpsertAll(rows, kept), m)
    ensures kept + [] == kept
  {
    assert (kept + [m])[..|kept|] == kept;
  }

  lemma AcceptedAppends(rows: Table, kept: seq<Message>, m: Message)
    ensures Accepts(UpsertAll(rows, kept), m) ==> AcceptedOf(rows, kept + [m]) == AcceptedOf(rows, kept) + [m]
  {
    assert (kept + [m])[..|kept|] == kept;
  }

  // ----- What a reconcile achieves -----

  predicate NewestFirst(history: seq<Message>) {
    forall i, j :: 0 <= i < j < |history| ==> history[i].ts >= history[j].ts
  }

  /** The server ends the paging only where its history ends. */
  predicate Contiguous(history: seq<Message>, answers: seq<Answer>, at: nat, page: nat)
    requires page <= |answers|
    decreases |answers| - page
  {
    page == |answers| || !answers[page].Served? ||
      (&& (at < |history| ==> answers[page].size > 0)
       && at + answers[page].size <= |history|
       && (!answers[page].more ==> at + answers[page].size == |history|)
       && Contiguous(history, answers, at + answers[page].size, page + 1))
  }

  /** No fetch fails and every page is as long as asked for, or the rest of the history. */
  predicate FullPages(history: seq<Message>, answers: seq<Answer>) {
    forall p :: 0 <= p < |answers| ==> answers[p] == Served(PageAt(history, p), (p + 1) * 30 < |history|)
  }

  function PageAt(history: seq<Message>, p: nat): nat {
    if (p + 1) * 30 <= |history| then 30 else if p * 30 <= |history| then |history| - p * 30 else 0
  }

  /** The server message comes before the local latest one: not older, and ahead of it wherever
      the history has it. */
  predicate Ahead(history: seq<Message>, i: nat, localTS: int, localId: string)
    requires i < |history|
  {
    history[i].ts >= localTS &&
    forall k :: 0 <= k < |history| && localId != "" && history[k].id == localId ==> i < k
  }

  /** Rows are those of storing the handled prefix, whatever stopped the reconcile. */
  lemma {:induction false} HandledIsPrefix(rows: Table, history: seq<Message>, answers: seq<Answer>, at: nat,
        page: nat, localTS: int, localId: string)
    requires at <= |history| && page <= |answers|
    ensures var r := From(rows, history, answers, at, page, localTS, localId);
      at <= r.handled <= |history| && r.rows == StoreAll(rows, history[at..r.handled])
    decreases |answers| - page
  {
    hide StoreAll, IsEmptyStub, ReachedBoundary;
    StoreNone(rows);
    assert history[at..at] == [];
    if page < |answers| && answers[page].Served? {
      var end := PageEnd(history, at, answers[page].size);
      var stored := StoreAll(rows, history[at..end]);
      HandledIsPrefix(stored, history, answers, end, page + 1, localTS, localId);
      var r := From(stored, history, answers, end, page + 1, localTS, localId);
      StoreTwice(rows, history[at..end], history[end..r.handled]);
      assert history[at..end] + history[end..r.handled] == history[at..r.handled];
    }
  }

  lemma StoreNone(rows: Table)
    ensures StoreAll(rows, []) == rows
  {
  }

  lemma {:induction false} StoreStep(rows: Table, msgs: seq<Message>, m: Message)
    ensures StoreAll(rows, msgs + [m]) ==
      if IsEmptyStub(m) then StoreAll(rows, msgs) else UpsertRow(StoreAll(rows, msgs), m)
  {
    hide Kept, UpsertAll, UpsertRow, IsEmptyStub;
    KeptAppends(msgs, m);
    StoreAppends(rows, Kept(msgs), m);
  }

  lemma {:induction false} StoreTwice(rows: Table, a: seq<Message>, b: seq<Message>)
    ensures StoreAll(StoreAll(rows, a), b) == StoreAll(rows, a + b)
  {
    hide StoreAll, UpsertRow, IsEmptyStub;
    if b == [] {
      assert a + b == a;
      StoreNone(StoreAll(rows, a));
    } else {
      var init, m := b[..|b| - 1], b[|b| - 1];
      StoreTwice(rows, a, init);
      assert a + b == (a + init) + [m] && b == init + [m];
      StoreStep(rows, a + init, m);
      StoreStep(StoreAll(rows, a), init, m);
    }
  }

  /** Every handled message that is not a stub has its row. */
  lemma {:induction false} HandledIsStored(rows: Table, msgs: seq<Message>, i: nat)
    requires i < |msgs| && !IsEmptyStub(msgs[i])
    requires forall k :: 0 <= k < |msgs| ==> msgs[k].sourceId == ""
    ensures msgs[i].id in StoreAll(rows, msgs)
  {
    hide IsEmptyStub, StoreAll;
    var init, m := msgs[..|msgs| - 1], msgs[|msgs| - 1];
    assert msgs == init + [m];
    StoreStep(rows, init, m);
    if i < |init| {
      HandledIsStored(rows, init, i);
    }
  }

  predicate ReachedEnd(stop: Stop) { stop == AtBoundary || stop == EndOfHistory }

  lemma {:induction false} EndCoversAhead(rows: Table, history: seq<Message>, answers: seq<Answer>, at: nat,
        page: nat, localTS: int, localId: string, i: nat)
    requires at <= |history| && page <= |answers|
    requires NewestFirst(history) && Contiguous(history, answers, at, page)
    requires i < |history| && Ahead(history, i, localTS, localId)
    ensures var r := From(rows, history, answers, at, page, localTS, localId);
      ReachedEnd(r.stop) ==> i < r.handled
    decreases |answers| - page
  {
    hide StoreAll, IsEmptyStub;
    if page < |answers| && answers[page].Served? {
      var end := at + answers[page].size;
      var msgs := history[at..end];
      var stored := StoreAll(rows, msgs);
      if msgs != [] && localTS != 0 && !ReachedBoundary(msgs, localTS, localId) && answers[page].more {
        EndCoversAhead(stored, history, answers, end, page + 1, localTS, localId, i);
      } else if msgs != [] && localTS != 0 && ReachedBoundary(msgs, localTS, localId) {
        BoundaryCoversAhead(history, at, end, localTS, localId, i);
      }
    }
  }

  lemma BoundaryCoversAhead(history: seq<Message>, at: nat, end: nat, localTS: int, localId: string, i: nat)
    requires at < end <= |history| && NewestFirst(history) && localTS != 0
    requires ReachedBoundary(history[at..end], localTS, localId)
    requires i < |history| && Ahead(history, i, localTS, localId)
    ensures i < end
  {
    var msgs := history[at..end];
    assert forall j :: 0 <= j < |msgs| ==> msgs[j] == history[at + j];
  }

  /** Main result: when the reconcile stops at the local boundary or at the end of the history,
      every server message ahead of the newest local one is handled, and stored unless a stub. */
  lemma {:induction false} GapIsClosed(rows: Table, history: seq<Message>, answers: seq<Answer>,
        latest: Option<Message>, i: nat)
    requires |answers| == MAX_PAGES && NewestFirst(history) && Contiguous(history, answers, 0, 0)
    requires forall k :: 0 <= k < |history| ==> history[k].sourceId == ""
    requires i < |history| && Ahead(history, i, LocalTS(latest), LocalId(latest))
    ensures var r := Reconciled(rows, history, answers, latest);
      ReachedEnd(r.stop) ==> i < r.handled && (IsEmptyStub(history[i]) || history[i].id in r.rows)
  {
    hide IsEmptyStub, StoreAll, From, Ahead, Contiguous, NewestFirst;
    var r := Reconciled(rows, history, answers, latest);
    EndCoversAhead(rows, history, answers, 0, 0, LocalTS(latest), LocalId(latest), i);
    HandledIsPrefix(rows, history, answers, 0, 0, LocalTS(latest), LocalId(latest));
    if ReachedEnd(r.stop) && !IsEmptyStub(history[i]) {
      HandledIsStored(rows, history[0..r.handled], i);
    }
  }

  /** No served message carries a source id, and no local row of a served id does. */
  predicate NoSources(rows: Table, msgs: seq<Message>) {
    && (forall k :: 0 <= k < |msgs| ==> msgs[k].sourceId == "")
    && (forall id :: id in rows && rows[id].sourceId != "" ==> forall k :: 0 <= k < |msgs| ==> msgs[k].id != id)
  }

  lemma KeptOf(msgs: seq<Message>)
    ensures forall m :: m in Kept(msgs) ==> m in msgs && !IsEmptyStub(m)
  {
    hide IsEmptyStub;
    if msgs != [] {
      KeptOf(msgs[..|msgs| - 1]);
    }
  }

  lemma PlainStep(rows: Table, m: Message, all: seq<Message>)
    requires NoSources(rows, all) && m in all
    ensures Accepts(rows, m) && NoSources(UpsertRow(rows, m), all)
  {
    assert m.sourceId == "" && (m.id in rows ==> rows[m.id].sourceId == "");
    assert Written(rows, m).sourceId == "";
  }

  lemma AcceptedNone(rows: Table)
    ensures AcceptedOf(rows, []) == [] && UpsertAll(rows, []) == rows
  {
  }

  lemma {:induction false} PlainAccepted(rows: Table, ds: seq<Message>, all: seq<Message>)
    requires NoSources(rows, all) && forall k :: 0 <= k < |ds| ==> ds[k] in all
    ensures AcceptedOf(rows, ds) == ds && NoSources(UpsertAll(rows, ds), all)
  {
    hide NoSources, Accepts, UpsertRow, AcceptedOf, UpsertAll;
    if ds == [] {
      AcceptedNone(rows);
    } else {
      var init, m := ds[..|ds| - 1], ds[|ds| - 1];
      PlainAccepted(rows, init, all);
      PlainStep(UpsertAll(rows, init), m, all);
      StoreAppends(rows, init, m);
      AcceptedAppends(rows, init, m);
      assert init + [m] == ds;
    }
  }

  /** What is stored: column by column, the last value that the unique index let in for the id from
      the handled prefix; all of the prefix, when the source ids cannot clash. */
  lemma {:induction false} HandledHoldsLastValues(rows: Table, history: seq<Message>, answers: seq<Answer>,
        latest: Option<Message>, id: string)
    requires |answers| == MAX_PAGES
    ensures var r := Reconciled(rows, history, answers, latest);
      && r.handled <= |history|
      && HoldsLastValues(rows, For(AcceptedOf(rows, Kept(history[..r.handled])), id), id, r.rows)
      && (NoSources(rows, history) ==> AcceptedOf(rows, Kept(history[..r.handled])) == Kept(history[..r.handled]))
  {
    hide From, UpsertAll, AcceptedOf, HoldsLastValues, For, Kept, NoSources;
    HandledIsPrefix(rows, history, answers, 0, 0, LocalTS(latest), LocalId(latest));
    var r := Reconciled(rows, history, answers, latest);
    var kept := Kept(history[..r.handled]);
    assert history[0..r.handled] == history[..r.handled];
    UpsertKeepsLastValues(rows, kept, id);
    if NoSources(rows, history) {
      KeptOf(history[..r.handled]);
      assert forall k :: 0 <= k < |kept| ==> kept[k] in history[..r.handled];
      PlainAccepted(rows, kept, history);
    }
  }

  function FirstOf(history: seq<Message>, n: nat): nat {
    if n <= |history| then n else |history|
  }

  lemma {:induction false} FullPagesHandle(rows: Table, history: seq<Message>, answers: seq<Answer>, page: nat,
        localTS: int, localId: string)
    requires |answers| == MAX_PAGES && page <= MAX_PAGES && FullPages(history, answers)
    requires page > 0 ==> page * PAGE_SIZE < |history|
    ensures var r := From(rows, history, answers, FirstOf(history, page * PAGE_SIZE), page, localTS, localId);
      && r.handled <= MAX_PAGES * PAGE_SIZE
      && r.stop in {EndOfHistory, NoLocalHistory, AtBoundary, PageLimit}
      && (r.stop == PageLimit ==> r.handled == MAX_PAGES * PAGE_SIZE)
      && (r.stop == NoLocalHistory ==> localTS == 0)
      && (localTS == 0 && page == 0 ==> r.handled == FirstOf(history, PAGE_SIZE))
    decreases MAX_PAGES - page
  {
    hide StoreAll, IsEmptyStub, ReachedBoundary;
    if page < MAX_PAGES {
      var at := FirstOf(history, page * PAGE_SIZE);
      var end := PageEnd(history, at, answers[page].size);
      assert end == FirstOf(history, (page + 1) * PAGE_SIZE);
      if answers[page].more {
        FullPagesHandle(StoreAll(rows, history[at..end]), history, answers, page + 1, localTS, localId);
      }
    }
  }

  lemma {:induction false} FullIsContiguous(history: seq<Message>, answers: seq<Answer>, page: nat)
    requires |answers| == MAX_PAGES && page <= MAX_PAGES && FullPages(history, answers)
    ensures Contiguous(history, answers, FirstOf(history, page * PAGE_SIZE), page)
    decreases MAX_PAGES - page
  {
    if page < MAX_PAGES {
      FullIsContiguous(history, answers, page + 1);
    }
  }

  ghost predicate AheadWithin(history: seq<Message>, localTS: int, localId: string, n: nat) {
    forall i :: 0 <= i < |history| && Ahead(history, i, localTS, localId) ==> i < n
  }

  /** Main result: with full pages and no failed fetch, the gap is closed exactly when at most
      120 server messages are ahead of the newest local one; otherwise the newest 120 are
      handled. Without a dated local message only the first page is. */
  lemma {:induction false} GapIsClosedExactly(rows: Table, history: seq<Message>, answers: seq<Answer>,
        latest: Option<Message>)
    requires |answers| == 4 && NewestFirst(history) && FullPages(history, answers)
    ensures var r := Reconciled(rows, history, answers, latest);
      if latest.None? || latest.value.ts == 0 then r.handled == FirstOf(history, 30) else
      && (AheadWithin(history, latest.value.ts, latest.value.id, r.handled)
          <==> AheadWithin(history, latest.value.ts, latest.value.id, 120))
      && (!AheadWithin(history, latest.value.ts, latest.value.id, 120) ==> r.handled == 120)
  {
    hide IsEmptyStub, StoreAll, From, Ahead, Contiguous, NewestFirst, FullPages;
    var localTS, localId := LocalTS(latest), LocalId(latest);
    var r := Reconciled(rows, history, answers, latest);
    FullPagesHandle(rows, history, answers, 0, localTS, localId);
    FullIsContiguous(history, answers, 0);
    if r.stop == AtBoundary || r.stop == EndOfHistory {
      forall i | 0 <= i < |history| && Ahead(history, i, localTS, localId) ensures i < r.handled {
        EndCoversAhead(rows, history, answers, 0, 0, localTS, localId, i);
      }
    }
  }

  // ----- The local boundary -----

  /** The conversation's newest local row, by time and then by id. */
  ghost predicate IsNewestOf(rows: Table, conv: string, m: Message) {
    && m.id in rows && rows[m.id] == m && m.conv == conv
    && forall id :: id in rows && id != m.id && rows[id].conv == conv ==>
         rows[id].ts < m.ts || (rows[id].ts == m.ts && Less(id, m.id))
  }

  lemma {:induction false} NewestExactly(rows: Table, conv: string)
    ensures Newest(rows, conv).None? <==> forall id :: id in rows ==> rows[id].conv != conv
    ensures Newest(rows, conv).Some? ==> IsNewestOf(rows, conv, Newest(rows, conv).value)
  {
    hide Descending, Less;
    var S := InConversation(rows, conv);
    var s := Descending(S);
    forall id | id in rows && rows[id].conv == conv ensures rows[id] in s {
      assert rows[id] in S;
    }
    if s != [] {
      assert s[0] in s && s[0] in S;
      forall id | id in rows && id != s[0].id && rows[id].conv == conv
        ensures rows[id].ts < s[0].ts || (rows[id].ts == s[0].ts && Less(id, s[0].id))
      {
        var i :| 0 <= i < |s| && s[i] == rows[id];
        assert Before(s[i], s[0]);
      }
    }
  }

  lemma NewestIs(rows: Table, conv: string, m: Message)
    requires IsNewestOf(rows, conv, m)
    ensures Newest(rows, conv) == Some(m)
  {
    hide Newest, Less;
    NewestExactly(rows, conv);
    var n := Newest(rows, conv).value;
    if n.id != m.id {
      LessAsymEither(n.id, m.id);
    }
  }

  lemma LessAsymEither(a: string, b: string)
    ensures !(Less(a, b) && Less(b, a))
  {
    if Less(a, b) {
      LessAsym(a, b);
    }
  }

  /** Main result, end to end: where the conversation's newest local row is dated, a reconcile that
      stops at the boundary or at the end of the history handles every server message ahead of that
      row, and stores it unless a stub. */
  lemma {:induction false} GapIsClosedHere(rows: Table, conv: string, history: seq<Message>, answers: seq<Answer>,
        m: Message, i: nat)
    requires IsNewestOf(rows, conv, m) && m.ts != 0
    requires |answers| == 4 && NewestFirst(history) && Contiguous(history, answers, 0, 0)
    requires forall k :: 0 <= k < |history| ==> history[k].sourceId == ""
    requires i < |history| && Ahead(history, i, m.ts, m.id)
    ensures var r := Reconciled(rows, history, answers, Newest(rows, conv));
      (r.stop == AtBoundary || r.stop == EndOfHistory) ==>
        i < r.handled && (IsEmptyStub(history[i]) || history[i].id in r.rows)
  {
    hide Newest, IsNewestOf, Reconciled, Ahead, Contiguous, NewestFirst, IsEmptyStub;
    NewestIs(rows, conv, m);
    GapIsClosed(rows, history, answers, Newest(rows, conv), i);
  }

  /** With full pages: the gap to that row is closed exactly when it is of at most 120 messages, and
      without a dated row of the conversation only the first 30 messages are handled. */
  lemma {:induction false} GapIsClosedHereExactly(rows: Table, conv: string, history: seq<Message>,
    answers: seq<Answer>)
    requires |answers| == 4 && NewestFirst(history) && FullPages(history, answers)
    ensures var r := Reconciled(rows, history, answers, Newest(rows, conv));
      && (forall m :: IsNewestOf(rows, conv, m) && m.ts != 0 ==>
            && (AheadWithin(history, m.ts, m.id, r.handled) <==> AheadWithin(history, m.ts, m.id, 120))
            && (!AheadWithin(history, m.ts, m.id, 120) ==> r.handled == 120))
      && ((forall m :: IsNewestOf(rows, conv, m) ==> m.ts == 0) ==> r.handled == FirstOf(history, 30))
  {
    hide Newest, IsNewestOf, Reconciled, NewestFirst, FullPages, AheadWithin;
    NewestExactly(rows, conv);
    GapIsClosedExactly(rows, history, answers, Newest(rows, conv));
    forall m | IsNewestOf(rows, conv, m) ensures Newest(rows, conv) == Some(m) {
      NewestIs(rows, conv, m);
    }
  }

  /** No page is fetched after one that reaches the local row or goes past it. */
  lemma {:induction false} NoPageTooMany(rows: Table, history: seq<Message>, answers: seq<Answer>, at: nat, page: nat,
        localTS: int, localId: string, i: nat, end: nat)
    requires at <= |history| && page <= |answers| && page < |answers| && answers[page].Served?
    requires localTS != 0 && at <= i < end && end == PageEnd(history, at, answers[page].size)
    requires history[i].ts < localTS || (localId != "" && history[i].id == localId)
    ensures From(rows, history, answers, at, page, localTS, localId).handled == end
  {
    hide StoreAll;
    assert history[at..end][i - at] == history[i];
  }

  // ----- Where it stops -----

  /** How much of the history the first `p` answers hold. */
  function Offset(history: seq<Message>, answers: seq<Answer>, p: nat): (at: nat)
    requires p <= |answers|
    ensures at <= |history|
  {
    if p == 0 then 0 else
      var at := Offset(history, answers, p - 1);
      if !answers[p - 1].Served? then at
      else if at + answers[p - 1].size > |history| then |history| else at + answers[p - 1].size
  }

  /** Page `p` holds the local row or something older. */
  predicate Meets(history: seq<Message>, answers: seq<Answer>, p: nat, ts: int, id: string)
    requires p < |answers|
  {
    exists i :: Offset(history, answers, p) <= i < Offset(history, answers, p + 1)
      && (history[i].ts < ts || (id != "" && history[i].id == id))
  }

  /** Page `p` brings something, does not meet the dated local row, and is not the last. */
  predicate GoesOn(history: seq<Message>, answers: seq<Answer>, p: nat, ts: int, id: string)
    requires p < |answers|
  {
    && answers[p].Served? && Offset(history, answers, p) < Offset(history, answers, p + 1)
    && ts != 0 && !Meets(history, answers, p, ts, id) && answers[p].more
  }

  /** What ends the reconcile at page `p`, and how much it has handled. */
  predicate EndsAt(history: seq<Message>, answers: seq<Answer>, p: nat, ts: int, id: string, stop: Stop, handled: nat)
    requires p <= |answers|
  {
    if p == |answers| then stop == PageLimit && handled == Offset(history, answers, p)
    else if answers[p].ClientGone? || answers[p].AuthExpired? then
      stop == Aborted && handled == Offset(history, answers, p)
    else if answers[p].FetchFailed? then stop == Failed && handled == Offset(history, answers, p)
    else
      && handled == Offset(history, answers, p + 1)
      && (Offset(history, answers, p) == handled ==> stop == EndOfHistory)
      && (Offset(history, answers, p) < handled ==>
            stop == if ts == 0 then NoLocalHistory else if Meets(history, answers, p, ts, id) then AtBoundary else
              EndOfHistory)
  }

  lemma MeetsIs(history: seq<Message>, answers: seq<Answer>, p: nat, ts: int, id: string)
    requires p < |answers| && answers[p].Served? && ts != 0
    ensures var at := Offset(history, answers, p); var end := PageEnd(history, at, answers[p].size);
      end == Offset(history, answers, p + 1) &&
      (at < end ==> (ReachedBoundary(history[at..end], ts, id) <==> Meets(history, answers, p, ts, id)))
  {
    var at := Offset(history, answers, p);
    var end := PageEnd(history, at, answers[p].size);
    var msgs := history[at..end];
    assert forall i :: at <= i < end ==> history[i] == msgs[i - at];
    assert forall i :: 0 <= i < |msgs| ==> msgs[i] == history[at + i];
  }

  lemma {:induction false} EndsFrom(rows: Table, history: seq<Message>, answers: seq<Answer>, page: nat, ts: int,
    id: string) returns (p: nat)
    requires page <= |answers|
    ensures page <= p <= |answers| && (forall q :: page <= q < p ==> GoesOn(history, answers, q, ts, id))
    ensures p < |answers| ==> !GoesOn(history, answers, p, ts, id)
    ensures var r := From(rows, history, answers, Offset(history, answers, page), page, ts, id);
      EndsAt(history, answers, p, ts, id, r.stop, r.handled)
    decreases |answers| - page
  {
    hide ReachedBoundary, StoreAll, Meets;
    p := page;
    if page < |answers| && answers[page].Served? {
      var at := Offset(history, answers, page);
      var end := PageEnd(history, at, answers[page].size);
      assert end == Offset(history, answers, page + 1);
      if ts != 0 { MeetsIs(history, answers, page, ts, id); }
      if at < end && AfterPage(history[at..end], answers[page].more, ts, id).None? {
        p := EndsFrom(StoreAll(rows, history[at..end]), history, answers, page + 1, ts, id);
      }
    }
  }

  /** Main result: the reconcile goes past exactly the pages that bring messages, none of them the
      local row or older, with more to come; the first other page, or the end of the fourth, tells
      how it ends and how much of the history it handled. */
  lemma {:induction false} StopsExactly(rows: Table, history: seq<Message>, answers: seq<Answer>,
    latest: Option<Message>) returns (p: nat)
    requires |answers| == 4
    ensures var ts, id := if latest.Some? then latest.value.ts else 0, if latest.Some? then latest.value.id else "";
      var r := Reconciled(rows, history, answers, latest);
      && p <= 4 && (forall q :: 0 <= q < p ==> GoesOn(history, answers, q, ts, id))
      && (p < 4 ==> !GoesOn(history, answers, p, ts, id))
      && EndsAt(history, answers, p, ts, id, r.stop, r.handled)
  {
    hide EndsAt, GoesOn, From;
    p := EndsFrom(rows, history, answers, 0, LocalTS(latest), LocalId(latest));
  }

  // ----- Stubs -----

  predicate SameUpper(c: char, letter: char) {
    c == letter || ('A' <= letter <= 'Z' && c as int == letter as int + 32)
  }

  predicate ReadsAt(s: string, i: nat, word: string) {
    i + |word| <= |s| && forall k :: 0 <= k < |word| ==> SameUpper(s[i + k], word[k])
  }

  /** The status has the word in it, in either case. */
  predicate Mentions(s: string, word: string) {
    exists i :: 0 <= i <= |s| && ReadsAt(s, i, word)
  }

  predicate UpperWord(word: string) { forall k :: 0 <= k < |word| ==> !('a' <= word[k] <= 'z') }

  lemma {:induction false} UpperReads(s: string, i: nat, word: string)
    requires i <= |s| && UpperWord(word)
    ensures HasPrefix(Upper(s)[i..], word) <==> ReadsAt(s, i, word)
  {
    var u := Upper(s);
    if i + |word| <= |s| {
      forall k | 0 <= k < |word| ensures u[i..][k] == word[k] <==> SameUpper(s[i + k], word[k]) {
        assert u[i..][k] == u[i + k];
      }
      assert forall k :: 0 <= k < |word| ==> u[i..][..|word|][k] == u[i..][k];
      if HasPrefix(u[i..], word) {
        assert forall k :: 0 <= k < |word| ==> u[i..][..|word|][k] == word[k];
      }
    }
  }

  lemma MentionsUpper(s: string, word: string)
    requires UpperWord(word)
    ensures Contains(Upper(s), word) <==> Mentions(s, word)
  {
    hide Upper, HasPrefix, ReadsAt;
    assert |Upper(s)| == |s| by { UpperLength(s); }
    forall i | 0 <= i <= |s| ensures HasPrefix(Upper(s)[i..], word) <==> ReadsAt(s, i, word) {
      UpperReads(s, i, word);
    }
  }

  lemma UpperLength(s: string)
    ensures |Upper(s)| == |s|
  {
  }

  /** What is skipped: no text, media or reaction, and a status that is set, is no tombstone and
      tells of nothing still going on. */
  lemma {:induction false} StubExactly(m: Message)
    ensures var status := TrimSpace(m.status);
      IsEmptyStub(m) <==>
        && TrimSpace(m.body) == "" && TrimSpace(m.mediaId) == "" && m.reactions == []
        && status != "" && !ReadsAt(status, 0, "TOMBSTONE")
        && !Mentions(status, "DOWNLOADING") && !Mentions(status, "UPLOADING") && !Mentions(status, "SENDING")
        && !Mentions(status, "YET_TO_SEND") && !Mentions(status, "PROCESSING") && !Mentions(status, "VALIDATING")
        && !Mentions(status, "RESENDING") && !Mentions(status, "QUEUED")
  {
    hide TrimSpace, Contains, Mentions, Upper, ReadsAt;
    var status := TrimSpace(m.status);
    UpperLength(status);
    UpperReads(status, 0, "TOMBSTONE");
    assert Upper(status)[0..] == Upper(status);
    forall k | 0 <= k < |PENDING_MARKERS|
      ensures Contains(Upper(status), PENDING_MARKERS[k]) <==> Mentions(status, PENDING_MARKERS[k])
    {
      MentionsUpper(status, PENDING_MARKERS[k]);
    }
    assert PENDING_MARKERS[0] == "DOWNLOADING" && PENDING_MARKERS[1] == "UPLOADING" && PENDING_MARKERS[2] == "SENDING";
    assert PENDING_MARKERS[3] == "YET_TO_SEND" && PENDING_MARKERS[4] == "PROCESSING" &&
      PENDING_MARKERS[5] == "VALIDATING";
    assert PENDING_MARKERS[6] == "RESENDING" && PENDING_MARKERS[7] == "QUEUED";
  }
}
