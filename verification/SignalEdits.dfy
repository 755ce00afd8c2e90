/** One original and one edit of it, in whatever order they and the recovery replay of a
    quarantined edit come: do they end in one row with the edited body? */
module SignalEdits {
  import opened Text
  import opened Records
  import opened Ordering
  import opened Upsert
  import opened SignalStore

  predicate Hex(s: string) {
    s != "" && forall i :: 0 <= i < |s| ==> '0' <= s[i] <= '9' || 'a' <= s[i] <= 'f'
  }

  /** Every Signal row is stored under its own source id. */
  predicate SignalIds(rows: Table) {
    forall id :: id in rows && rows[id].platform == "signal" && rows[id].sourceId != "" ==>
      id == "signal:" + rows[id].sourceId
  }

  predicate IsSignalRow(m: Message) {
    m.platform == "signal" && m.sourceId != "" && m.id == "signal:" + m.sourceId
  }

  lemma SignalAccepted(rows: Table, m: Message)
    requires SignalIds(rows) && IsSignalRow(m)
    ensures Accepts(rows, m) && SignalIds(UpsertRow(rows, m))
  {
    hide TrimSpace;
    assert TrimSpace("signal") == "signal";
    var w := Written(rows, m);
    assert w.platform == "signal" && w.sourceId == m.sourceId;
  }

  function Put(rows: Table, m: Message): Table { rows[m.id := m] }

  function Conv(d: Line): string { ConversationId(d.o) }

  function PlaceholderId(h: Hashes, e: Line): string
    requires e.Edit?
  {
    "signal:" + MISSING_EDIT + h.missingEdit(Conv(e), e.o.source, e.target)
  }

  function Window(rows: Table, e: Line): set<Message>
    requires e.Edit?
  {
    InWindow(rows, Conv(e), e.target - 15000, e.target + 15000)
  }

  /** `d` is new, `e` edits it, and its author, someone else, sent nothing else within 15 s. */
  ghost predicate Scenario(h: Hashes, account: string, rows: Table, d: Line, e: Line) {
    && d.Data? && e.Edit? && Conv(d) == Conv(e) && d.o.source == e.o.source
    && e.o.source != "" && !FromAccount(e.o, account)
    && DataTime(d) == e.target && e.target > 0
    && DataId(h, d) !in rows && PlaceholderId(h, e) !in rows
    && Hex(h.message(Conv(d), d.o.source, e.target))
    && SignalIds(rows)
    && forall m :: m in Window(rows, e) ==> !AddressesMatch(m.senderNumber, e.o.source)
  }

  /** How many of the conversation's rows between the two times come before (ts, id). */
  function Crowd(rows: Table, conv: string, lo: int, hi: int, ts: int, id: string): nat {
    |Predecessors(InWindow(rows, conv, lo, hi), BlankRow(id, ts))|
  }

  /** The original will be among the ten rows of its millisecond or the fifty of its window. */
  predicate Visible(h: Hashes, rows: Table, d: Line, e: Line)
    requires d.Data? && e.Edit?
  {
    var id := DataId(h, d);
    || Crowd(rows, Conv(e), e.target, e.target, e.target, id) < 10
    || Crowd(rows, Conv(e), e.target - 15000, e.target + 15000, e.target, id) < 50
  }

  // ----- Schedules -----

  /** The two lines arrive, and the recovery queue is replayed now and then. */
  datatype Event = OriginalComes | EditComes | QueueReplays

  /** The store and the recovery queue, which holds the lines that failed. */
  datatype World = World(store: State, queue: seq<Line>)

  function Arrived(h: Hashes, account: string, w: World, l: Line): World {
    var r := Handled(h, account, w.store, l, false);
    World(r.state, if r.outcome == Done then w.queue else w.queue + [l])
  }

  /** Every queued line is handled again, and those that fail stay queued. */
  function Replayed(h: Hashes, account: string, s: State, queue: seq<Line>): World {
    if queue == [] then World(s, []) else
      var before, l := Replayed(h, account, s, queue[..|queue| - 1]), queue[|queue| - 1];
      var r := Handled(h, account, before.store, l, true);
      World(r.state, if r.outcome == Done then before.queue else before.queue + [l])
  }

  function Happens(h: Hashes, account: string, w: World, d: Line, e: Line, event: Event): World {
    match event
    case OriginalComes => Arrived(h, account, w, d)
    case EditComes => Arrived(h, account, w, e)
    case QueueReplays => Replayed(h, account, w.store, w.queue)
  }

  function After(h: Hashes, account: string, s: State, d: Line, e: Line, es: seq<Event>): World {
    if es == [] then World(s, []) else
      Happens(h, account, After(h, account, s, d, e, es[..|es| - 1]), d, e, es[|es| - 1])
  }

  function Count(es: seq<Event>, event: Event): nat {
    if es == [] then 0 else Count(es[..|es| - 1], event) + if es[|es| - 1] == event then 1 else 0
  }

  /** The original and the edit come once, in either order, with any replays before, between and
      after. */
  predicate Schedule(es: seq<Event>) {
    Count(es, OriginalComes) == 1 && Count(es, EditComes) == 1
  }

  /** A replay comes after the edit. */
  predicate EditReplayed(es: seq<Event>) {
    exists i, j :: 0 <= i < j < |es| && es[i] == EditComes && es[j] == QueueReplays
  }

  /** The edit is replayed before the original comes. */
  predicate ReplayedFirst(es: seq<Event>) {
    exists n :: 0 <= n < |es| && es[n] == OriginalComes && EditReplayed(es[..n])
  }

  predicate OriginalFirst(es: seq<Event>) {
    exists i, j :: 0 <= i < j < |es| && es[i] == OriginalComes && es[j] == EditComes
  }

  /** One new row: the original's id, the edited body. No placeholder, nothing else touched. */
  predicate Converged(h: Hashes, before: Table, after: Table, d: Line, e: Line)
    requires d.Data? && e.Edit?
  {
    && after.Keys == before.Keys + {DataId(h, d)}
    && after[DataId(h, d)].body == e.c.body
    && forall id :: id in before ==> after[id] == before[id]
  }

  // ----- The lookups -----

  lemma {:induction false} NothingFound(rows: Table, conv: string, ts: int, author: Token)
    requires author != "" && ts != 0
    requires forall m :: m in InWindow(rows, conv, ts - MATCH_WINDOW, ts + MATCH_WINDOW) ==>
      !AddressesMatch(m.senderNumber, author)
    ensures FindTarget(rows, conv, ts, author) == None
    ensures FindAlias(rows, conv, ts, author, false) == None
  {
    hide AddressesMatch, Pick, AtTimestamp, NearTimestamp, Aliases, IsPlaceholder;
    PickNone(AtTimestamp(rows, conv, ts), author, ts);
    PickNone(NearTimestamp(rows, conv, ts), author, ts);
    NoAlias(AtTimestamp(rows, conv, ts), author, false);
  }

  lemma SamePlace(S: set<Message>, m: Message)
    ensures Predecessors(S, m) == Predecessors(S, BlankRow(m.id, m.ts))
  {
  }

  lemma {:induction false} ListedExactly(rows: Table, conv: string, lo: int, hi: int, m: Message, n: nat)
    requires m in InWindow(rows, conv, lo, hi)
    ensures m in Limit(Ascending(InWindow(rows, conv, lo, hi)), n) <==> Crowd(rows, conv, lo, hi, m.ts, m.id) < n
  {
    hide Ascending, Limit, Keyed;
    FirstExactly(InWindow(rows, conv, lo, hi), m, n);
    SamePlace(InWindow(rows, conv, lo, hi), m);
  }

  /** A row that is the only one of its author in the window is found exactly when it is listed. */
  lemma {:induction false} OnlyRowFound(rows: Table, conv: string, author: Token, m: Message)
    requires author != "" && m.ts != 0 && m in InWindow(rows, conv, m.ts, m.ts) &&
      AddressesMatch(m.senderNumber, author)
    requires forall x :: x in InWindow(rows, conv, m.ts - MATCH_WINDOW, m.ts + MATCH_WINDOW) && x != m ==>
      !AddressesMatch(x.senderNumber, author)
    ensures FindTarget(rows, conv, m.ts, author) ==
      if Crowd(rows, conv, m.ts, m.ts, m.ts, m.id) < 10
         || Crowd(rows, conv, m.ts - 15000, m.ts + 15000, m.ts, m.id) < 50
      then Some(m) else None
  {
    hide AddressesMatch, Pick, Crowd, Ascending, Limit;
    var exact, near := AtTimestamp(rows, conv, m.ts), NearTimestamp(rows, conv, m.ts);
    ListedExactly(rows, conv, m.ts, m.ts, m, EXACT_LIMIT);
    ListedExactly(rows, conv, m.ts - MATCH_WINDOW, m.ts + MATCH_WINDOW, m, WINDOW_LIMIT);
    if m in exact { PickOnly(exact, author, m.ts, m); } else { PickNone(exact, author, m.ts); }
    if m in near { PickOnly(near, author, m.ts, m); } else { PickNone(near, author, m.ts); }
  }

  lemma {:induction false} DistinctListing(S: set<Message>, n: int)
    requires Keyed(S)
    ensures var s := Limit(Ascending(S), n); forall i, j :: 0 <= i < j < |s| ==> s[i] != s[j]
  {
    hide Before, Ascending, Keyed;
    var s := Ascending(S);
    forall i, j | 0 <= i < j < |s| ensures s[i] != s[j] {
      BeforeAsym(s[i], s[j]);
    }
  }

  /** The only placeholder of its author at its time is found exactly when it is listed. */
  lemma {:induction false} OnlyAliasFound(rows: Table, conv: string, author: Token, p: Message)
    requires p.ts != 0 && p in InWindow(rows, conv, p.ts, p.ts) && IsAlias(p, author, false)
    requires forall x :: x in InWindow(rows, conv, p.ts, p.ts) && x != p ==> !IsAlias(x, author, false)
    ensures FindAlias(rows, conv, p.ts, author, false) ==
      if Crowd(rows, conv, p.ts, p.ts, p.ts, p.id) < 10 then Some(p) else None
  {
    hide IsAlias, Crowd, Ascending, Limit, Aliases, Keyed;
    var ms := AtTimestamp(rows, conv, p.ts);
    ListedExactly(rows, conv, p.ts, p.ts, p, EXACT_LIMIT);
    DistinctListing(InWindow(rows, conv, p.ts, p.ts), EXACT_LIMIT);
    if p in ms { OneAlias(ms, author, false, p); } else { NoAlias(ms, author, false); }
  }

  /** A new row in the window, and what it does to the crowd before a place. */
  lemma WindowGrows(rows: Table, m: Message, conv: string, lo: int, hi: int)
    requires m.id !in rows && m.conv == conv && lo <= m.ts <= hi
    ensures InWindow(rows[m.id := m], conv, lo, hi) == InWindow(rows, conv, lo, hi) + {m}
  {
  }

  lemma CrowdGrows(rows: Table, m: Message, conv: string, lo: int, hi: int, ts: int, id: string)
    requires m.id !in rows && m.conv == conv && lo <= m.ts <= hi
    ensures Crowd(rows[m.id := m], conv, lo, hi, ts, id)
         == Crowd(rows, conv, lo, hi, ts, id) + if Before(m, BlankRow(id, ts)) then 1 else 0
  {
    hide Before, Keyed, Predecessors, InWindow;
    WindowGrows(rows, m, conv, lo, hi);
    PredecessorsGrow(InWindow(rows, conv, lo, hi), m, BlankRow(id, ts));
  }

  lemma PredecessorsGrow(S: set<Message>, m: Message, spot: Message)
    requires m !in S
    ensures |Predecessors(S + {m}, spot)| == |Predecessors(S, spot)| + if Before(m, spot) then 1 else 0
  {
    hide Before;
    assert Predecessors(S + {m}, spot) ==
      if Before(m, spot) then Predecessors(S, spot) + {m} else Predecessors(S, spot);
  }

  // ----- The rows -----

  /** A named sender makes the row independent of the conversation's name. */
  function Original(h: Hashes, d: Line): Message
    requires d.Data?
  {
    DataRow(h, d, "")
  }

  lemma OriginalNamed(h: Hashes, d: Line, convName: string)
    requires d.Data? && d.o.source != ""
    ensures DataRow(h, d, convName) == Original(h, d)
  {
    hide TrimSpace;
    assert TrimSpace(d.o.source) == d.o.source;
    assert Label(d.o) != "" && TrimSpace(Label(d.o)) == Label(d.o);
  }

  lemma HexIsNoPlaceholder(s: string)
    requires Hex(s)
    ensures !HasPrefix(TrimSpace(s), MISSING_EDIT)
  {
    hide TrimSpace;
    assert TrimSpace(s) == s;
    assert MISSING_EDIT[0] == 'm';
    if |MISSING_EDIT| <= |s| {
      assert s[..|MISSING_EDIT|][0] == s[0];
    }
  }

  lemma SelfMatches(a: Token)
    requires a != ""
    ensures AddressesMatch(a, a)
  {
  }

  lemma OriginalFacts(h: Hashes, account: string, rows: Table, d: Line, e: Line)
    requires Scenario(h, account, rows, d, e)
    ensures var o := Original(h, d);
      && o.id == DataId(h, d) && o.conv == Conv(e) && o.ts == e.target && o.senderNumber == e.o.source && !o.fromMe
      && IsSignalRow(o) && !IsPlaceholder(o) && AddressesMatch(o.senderNumber, e.o.source)
      && !Ignored(d, account) && !Ignored(e, account)
  {
    hide AddressesMatch, InWindow, TrimSpace;
    SelfMatches(e.o.source);
    HexIsNoPlaceholder(h.message(Conv(d), d.o.source, e.target));
  }

  lemma {:induction false} PlaceholderFacts(h: Hashes, account: string, rows: Table, d: Line, e: Line)
    requires Scenario(h, account, rows, d, e)
    ensures var p := PlaceholderRow(h, e.o, e.target, e.c);
      && p.id == PlaceholderId(h, e) && p.conv == Conv(e) && p.ts == e.target && p.body == e.c.body
      && IsSignalRow(p) && IsAlias(p, e.o.source, false) && AddressesMatch(p.senderNumber, e.o.source)
  {
    hide AddressesMatch, InWindow, TrimSpace, Hex;
    SelfMatches(e.o.source);
    var sourceId := MISSING_EDIT + h.missingEdit(Conv(e), e.o.source, e.target);
    assert sourceId[..|MISSING_EDIT|] == MISSING_EDIT;
    PrefixedTrims(h.missingEdit(Conv(e), e.o.source, e.target));
  }

  lemma PrefixedTrims(s: Token)
    ensures TrimSpace(MISSING_EDIT + s) == MISSING_EDIT + s
  {
    hide TrimSpace;
    var t := MISSING_EDIT + s;
    assert t[0] == 'm' && t[|t| - 1] == if s == "" then ':' else s[|s| - 1];
    assert Trimmed(t);
  }

  /** Hex digests come before the placeholder prefix. */
  lemma OriginalBeforePlaceholder(h: Hashes, account: string, rows: Table, d: Line, e: Line)
    requires Scenario(h, account, rows, d, e)
    ensures Less(DataId(h, d), PlaceholderId(h, e)) && DataId(h, d) != PlaceholderId(h, e)
  {
    hide AddressesMatch, InWindow, TrimSpace;
    var x := h.message(Conv(d), d.o.source, e.target);
    var y := MISSING_EDIT + h.missingEdit(Conv(e), e.o.source, e.target);
    assert x[0] < y[0];
    SamePrefixLess("signal:", x, y);
    assert PlaceholderId(h, e) == "signal:" + y;
    LessAsym(DataId(h, d), PlaceholderId(h, e));
  }

  lemma {:induction false} SamePrefixLess(p: string, x: string, y: string)
    requires Less(x, y)
    ensures Less(p + x, p + y)
  {
    if p == "" {
      assert p + x == x && p + y == y;
    } else {
      SamePrefixLess(p[1..], x, y);
      assert (p + x)[1..] == p[1..] + x && (p + y)[1..] == p[1..] + y;
    }
  }

  // ----- The steps -----

  /** A new row upserted as it comes. */
  lemma FreshUpsert(rows: Table, m: Message)
    requires SignalIds(rows) && IsSignalRow(m) && m.id !in rows
    ensures Accepts(rows, m) && UpsertRow(rows, m) == rows[m.id := m] && SignalIds(rows[m.id := m])
  {
    hide Accepts, TrimSpace;
    SignalAccepted(rows, m);
    assert TrimSpace("signal") == "signal";
  }

  /** The original with no placeholder about. */
  lemma {:induction false} OriginalArrives(h: Hashes, account: string, s: State, d: Line, e: Line)
    requires Scenario(h, account, s.rows, d, e)
    ensures Handled(h, account, s, d, false).state.rows == s.rows[DataId(h, d) := Original(h, d)]
  {
    hide Scenario, InWindow, FindAlias, DataRow, Accepts, UpsertRow, DataConversation, FindTarget, SignalIds,
          IsSignalRow, IsPlaceholder, AddressesMatch;
    ScenarioParts(h, account, s.rows, d, e);
    var o := Original(h, d);
    OriginalFacts(h, account, s.rows, d, e);
    NothingFound(s.rows, Conv(e), e.target, e.o.source);
    FreshUpsert(s.rows, o);
    NoAliasAfterOriginal(h, account, s.rows, d, e);
    var convo := DataConversation(Existing(s.convs, Conv(d)), d.o, DataTime(d), DataId(h, d) !in s.rows);
    OriginalNamed(h, d, convo.name);
    var after: Table := s.rows[o.id := o];
    assert StoredData(h, s.rows, d, convo.name) == Some(after);
  }

  lemma ScenarioParts(h: Hashes, account: string, rows: Table, d: Line, e: Line)
    requires Scenario(h, account, rows, d, e)
    ensures d.Data? && e.Edit? && Conv(d) == Conv(e) && d.o.source == e.o.source && e.o.source != ""
    ensures DataTime(d) == e.target && e.target > 0 && DataId(h, d) !in rows && PlaceholderId(h, e) !in rows &&
      SignalIds(rows)
    ensures forall m :: m in InWindow(rows, Conv(e), e.target - MATCH_WINDOW, e.target + MATCH_WINDOW) ==>
      !AddressesMatch(m.senderNumber, e.o.source)
  {
    hide AddressesMatch, InWindow, Hex;
  }

  ghost predicate NoneOf(S: set<Message>, author: Token) {
    forall m :: m in S ==> !AddressesMatch(m.senderNumber, author)
  }

  lemma NoAliasBeside(rows: Table, conv: string, author: Token, o: Message)
    requires o.id !in rows && o.conv == conv && o.ts != 0 && author != "" && !IsPlaceholder(o)
    requires NoneOf(InWindow(rows, conv, o.ts - MATCH_WINDOW, o.ts + MATCH_WINDOW), author)
    ensures FindAlias(rows[o.id := o], conv, o.ts, author, false) == None
  {
    hide InWindow, AddressesMatch, IsPlaceholder, AtTimestamp, Aliases, Keyed;
    WindowGrows(rows, o, conv, o.ts, o.ts);
    InnerWindow(rows, conv, o.ts);
    var ms := AtTimestamp(rows[o.id := o], conv, o.ts);
    forall x | x in ms ensures !IsAlias(x, author, false) {
    }
    NoAlias(ms, author, false);
  }

  lemma NoAliasAfterOriginal(h: Hashes, account: string, rows: Table, d: Line, e: Line)
    requires Scenario(h, account, rows, d, e)
    ensures FindAlias(Put(rows, Original(h, d)), Conv(e), e.target, e.o.source, false) == None
  {
    hide Scenario, InWindow, AddressesMatch, IsPlaceholder, FindAlias, DataRow, DataId, ConversationId,
          PlaceholderId, SignalIds, IsSignalRow, Ignored;
    ScenarioParts(h, account, rows, d, e);
    OriginalFacts(h, account, rows, d, e);
    NoAliasBeside(rows, Conv(e), e.o.source, Original(h, d));
  }

  lemma InnerWindow(rows: Table, conv: string, ts: int)
    ensures InWindow(rows, conv, ts, ts) <= InWindow(rows, conv, ts - MATCH_WINDOW, ts + MATCH_WINDOW)
  {
  }

  /** An edit before its original: nothing is found. */
  lemma {:induction false} EditMisses(h: Hashes, account: string, s: State, d: Line, e: Line)
    requires Scenario(h, account, s.rows, d, e)
    ensures var r := Handled(h, account, s, e, false); r.outcome == TargetMissing && r.state.rows == s.rows
    ensures var r := Handled(h, account, s, e, true);
      r.outcome == Done && r.state.rows == s.rows[PlaceholderId(h, e) := PlaceholderRow(h, e.o, e.target, e.c)]
  {
    hide Scenario, InWindow, FindTarget, FindAlias, Accepts, UpsertRow, EditConversation, PlaceholderRow,
          SignalIds, IsSignalRow, AddressesMatch, EditedRow;
    OriginalFacts(h, account, s.rows, d, e);
    ScenarioParts(h, account, s.rows, d, e);
    NothingFound(s.rows, Conv(e), e.target, e.o.source);
    PlaceholderFacts(h, account, s.rows, d, e);
    FreshUpsert(s.rows, PlaceholderRow(h, e.o, e.target, e.c));
  }

  lemma EditedFacts(o: Message, c: Content)
    requires IsSignalRow(o)
    ensures IsSignalRow(EditedRow(o, c)) && EditedRow(o, c).id == o.id
    ensures WithPlatform(EditedRow(o, c)) == EditedRow(o, c)
  {
    hide TrimSpace;
    assert TrimSpace("signal") == "signal";
  }

  lemma {:induction false} EditedUpsert(rows: Table, o: Message, c: Content)
    requires SignalIds(rows) && IsSignalRow(o) && o.id !in rows
    ensures var rows1 := rows[o.id := o];
      Accepts(rows1, EditedRow(o, c)) && UpsertRow(rows1, EditedRow(o, c)) == rows[o.id := Merge(o, EditedRow(o, c))]
  {
    hide Accepts, EditedRow, Merge, IsSignalRow, SignalIds, WithPlatform;
    FreshUpsert(rows, o);
    EditedFacts(o, c);
    SignalAccepted(rows[o.id := o], EditedRow(o, c));
    var rows1 := rows[o.id := o];
    assert Written(rows1, EditedRow(o, c)) == Merge(o, EditedRow(o, c));
    assert rows1[o.id := Merge(o, EditedRow(o, c))] == rows[o.id := Merge(o, EditedRow(o, c))];
  }

  /** What a handled edit does to the rows, given what it finds. */
  lemma {:induction false} EditActs(h: Hashes, account: string, s: State, e: Line, synthesize: bool)
    requires e.Edit? && !Ignored(e, account) && e.target != 0
    ensures var r := Handled(h, account, s, e, synthesize);
      var found := FindTarget(s.rows, Conv(e), e.target, e.o.source);
      var p := PlaceholderRow(h, e.o, e.target, e.c);
      && (found.None? && !synthesize ==> r.outcome == TargetMissing && r.state.rows == s.rows)
      && (found.None? && synthesize && Accepts(s.rows, p) ==> r.outcome == Done && r.state.rows == UpsertRow(s.rows, p))
      && (found.Some? && Accepts(s.rows, EditedRow(found.value, e.c)) ==>
            r.outcome == Done && r.state.rows == UpsertRow(s.rows, EditedRow(found.value, e.c)))
  {
    hide FindTarget, Accepts, UpsertRow, EditConversation, PlaceholderRow, EditedRow, Ignored;
  }

  /** An edit after its original. */
  lemma {:induction false} EditMeetsOriginal(h: Hashes, account: string, rows: Table, s: State, d: Line, e: Line,
        synthesize: bool)
    requires Scenario(h, account, rows, d, e) && s.rows == rows[DataId(h, d) := Original(h, d)]
    ensures var r := Handled(h, account, s, e, synthesize); var p := PlaceholderRow(h, e.o, e.target, e.c);
      if Visible(h, rows, d, e) then
        r.outcome == Done && r.state.rows == rows[DataId(h, d) := Merge(Original(h, d), EditedRow(Original(h, d), e.c))]
      else if synthesize then r.outcome == Done && r.state.rows == s.rows[p.id := p]
      else r.outcome == TargetMissing && r.state.rows == s.rows
  {
    hide Handled, Scenario, InWindow, FindTarget, Accepts, UpsertRow, PlaceholderRow, SignalIds, IsSignalRow,
          AddressesMatch,
      DataRow, Visible, EditedRow, DataId, PlaceholderId, Ignored, IsPlaceholder, Merge, IsAlias, DataTime,
        ConversationId;
    ScenarioParts(h, account, rows, d, e);
    var o := Original(h, d);
    OriginalFacts(h, account, rows, d, e);
    PlaceholderFacts(h, account, rows, d, e);
    OriginalBeforePlaceholder(h, account, rows, d, e);
    FreshUpsert(rows, o);
    FreshUpsert(s.rows, PlaceholderRow(h, e.o, e.target, e.c));
    EditedUpsert(rows, o, e.c);
    OriginalFoundExactly(h, account, rows, d, e);
    EditActs(h, account, s, e, synthesize);
  }

  lemma {:induction false} OnlyNewRowFound(rows: Table, conv: string, author: Token, o: Message)
    requires o.id !in rows && o.conv == conv && o.ts != 0 && author != "" && AddressesMatch(o.senderNumber, author)
    requires NoneOf(InWindow(rows, conv, o.ts - MATCH_WINDOW, o.ts + MATCH_WINDOW), author)
    ensures FindTarget(rows[o.id := o], conv, o.ts, author) ==
      if Crowd(rows, conv, o.ts, o.ts, o.ts, o.id) < EXACT_LIMIT
         || Crowd(rows, conv, o.ts - MATCH_WINDOW, o.ts + MATCH_WINDOW, o.ts, o.id) < WINDOW_LIMIT
      then Some(o) else None
  {
    hide InWindow, FindTarget, AddressesMatch, Crowd, Keyed;
    WindowGrows(rows, o, conv, o.ts, o.ts);
    WindowGrows(rows, o, conv, o.ts - MATCH_WINDOW, o.ts + MATCH_WINDOW);
    CrowdGrows(rows, o, conv, o.ts, o.ts, o.ts, o.id);
    CrowdGrows(rows, o, conv, o.ts - MATCH_WINDOW, o.ts + MATCH_WINDOW, o.ts, o.id);
    LessIrreflexive(o.id);
    OnlyRowFound(rows[o.id := o], conv, author, o);
  }

  lemma {:induction false} OriginalFoundExactly(h: Hashes, account: string, rows: Table, d: Line, e: Line)
    requires Scenario(h, account, rows, d, e)
    ensures FindTarget(rows[DataId(h, d) := Original(h, d)], Conv(e), e.target, e.o.source)
         == if Visible(h, rows, d, e) then Some(Original(h, d)) else None
  {
    hide Scenario, InWindow, FindTarget, AddressesMatch, DataRow, DataId, Crowd, IsPlaceholder, ConversationId,
          PlaceholderId, SignalIds, IsSignalRow, Ignored;
    ScenarioParts(h, account, rows, d, e);
    OriginalFacts(h, account, rows, d, e);
    OnlyNewRowFound(rows, Conv(e), e.o.source, Original(h, d));
  }

  // ----- The original after its placeholder -----

  ghost predicate NoAliasIn(S: set<Message>, author: Token) {
    forall m :: m in S ==> !IsAlias(m, author, false)
  }

  lemma OnlyNewAliasFound(rows: Table, conv: string, author: Token, p: Message)
    requires p.id !in rows && p.conv == conv && p.ts != 0 && IsAlias(p, author, false)
    requires NoAliasIn(InWindow(rows, conv, p.ts, p.ts), author)
    ensures FindAlias(rows[p.id := p], conv, p.ts, author, false) ==
      if Crowd(rows, conv, p.ts, p.ts, p.ts, p.id) < EXACT_LIMIT then Some(p) else None
  {
    hide InWindow, FindAlias, IsAlias, Crowd, Keyed;
    WindowGrows(rows, p, conv, p.ts, p.ts);
    CrowdGrows(rows, p, conv, p.ts, p.ts, p.ts, p.id);
    LessIrreflexive(p.id);
    OnlyAliasFound(rows[p.id := p], conv, author, p);
  }

  lemma WindowHasNoAlias(rows: Table, conv: string, ts: int, author: Token)
    requires author != "" && NoneOf(InWindow(rows, conv, ts - MATCH_WINDOW, ts + MATCH_WINDOW), author)
    ensures NoAliasIn(InWindow(rows, conv, ts, ts), author)
  {
    hide InWindow, AddressesMatch, IsPlaceholder, Keyed;
    InnerWindow(rows, conv, ts);
  }

  /** How many rows of the same millisecond come before the placeholder. */
  function PlaceholderCrowd(h: Hashes, rows: Table, e: Line): nat
    requires e.Edit?
  {
    Crowd(rows, Conv(e), e.target, e.target, e.target, PlaceholderId(h, e))
  }

  /** The row stored when the original arrives and the placeholder is, or is not, found. */
  function Arriving(o: Message, p: Message, found: bool): Message {
    if found then Absorbed(o, p) else o
  }

  lemma ArrivingFacts(o: Message, p: Message, found: bool)
    requires IsSignalRow(o) && !IsPlaceholder(o)
    ensures var m := Arriving(o, p, found);
      IsSignalRow(m) && !IsPlaceholder(m) && m.id == o.id && m.conv == o.conv && m.ts == o.ts
  {
    hide TrimSpace;
  }

  lemma SwapInserts(rows: Table, m: Message, p: Message)
    requires m.id != p.id
    ensures rows[m.id := m][p.id := p] == rows[p.id := p][m.id := m]
    ensures p.id !in rows ==> Deleted(rows[p.id := p][m.id := m], {p.id}) == rows[m.id := m]
  {
  }

  /** The arriving original takes a place before the placeholder. */
  lemma {:induction false} SecondLookup(rows: Table, conv: string, author: Token, m: Message, p: Message)
    requires m.id !in rows && p.id !in rows && m.conv == conv && p.conv == conv && m.ts == p.ts && p.ts != 0
    requires Less(m.id, p.id) && m.id != p.id && !IsPlaceholder(m) && IsAlias(p, author, false)
    requires NoAliasIn(InWindow(rows, conv, p.ts, p.ts), author)
    ensures FindAlias(rows[p.id := p][m.id := m], conv, p.ts, author, false) ==
      if Crowd(rows, conv, p.ts, p.ts, p.ts, p.id) + 1 < EXACT_LIMIT then Some(p) else None
  {
    hide InWindow, FindAlias, IsAlias, IsPlaceholder, Crowd, NoAliasIn, Less;
    SwapInserts(rows, m, p);
    NoAliasWith(rows, conv, author, m);
    OnlyNewAliasFound(rows[m.id := m], conv, author, p);
    CrowdGrows(rows, m, conv, p.ts, p.ts, p.ts, p.id);
  }

  lemma NoAliasNear(h: Hashes, account: string, rows: Table, d: Line, e: Line)
    requires Scenario(h, account, rows, d, e)
    ensures NoAliasIn(InWindow(rows, Conv(e), e.target, e.target), e.o.source)
  {
    hide Scenario, InWindow, AddressesMatch, NoneOf, NoAliasIn, ConversationId, DataId, PlaceholderId, DataTime,
          SignalIds;
    ScenarioParts(h, account, rows, d, e);
    NobodyNear(rows, Conv(e), e.target, e.o.source);
    WindowHasNoAlias(rows, Conv(e), e.target, e.o.source);
  }

  lemma NobodyNear(rows: Table, conv: string, ts: int, author: Token)
    requires forall m :: m in InWindow(rows, conv, ts - MATCH_WINDOW, ts + MATCH_WINDOW) ==>
      !AddressesMatch(m.senderNumber, author)
    ensures NoneOf(InWindow(rows, conv, ts - MATCH_WINDOW, ts + MATCH_WINDOW), author)
  {
    hide AddressesMatch, InWindow;
  }

  lemma NoAliasWith(rows: Table, conv: string, author: Token, m: Message)
    requires m.id !in rows && m.conv == conv && !IsPlaceholder(m)
    requires NoAliasIn(InWindow(rows, conv, m.ts, m.ts), author)
    ensures NoAliasIn(InWindow(rows[m.id := m], conv, m.ts, m.ts), author)
  {
    hide InWindow, IsPlaceholder, AddressesMatch;
    WindowGrows(rows, m, conv, m.ts, m.ts);
  }

  /** What storing a data line does, given what the two lookups find. */
  lemma {:induction false} DataActs(h: Hashes, account: string, s: State, d: Line)
    requires d.Data? && !Ignored(d, account) && d.o.source != ""
    ensures var o, alias := Original(h, d), AliasFor(s.rows, d);
      var m := if alias.Some? then Absorbed(o, alias.value) else o;
      Accepts(s.rows, m) ==>
        Handled(h, account, s, d, false).state.rows == WithoutAlias(UpsertRow(s.rows, m), d, DataId(h, d))
  {
    hide FindAlias, Accepts, UpsertRow, DataRow, DataConversation, Absorbed, Ignored, WithoutAlias, AliasFor,
          DataTime, DataId;
    var convo := DataConversation(Existing(s.convs, ConversationId(d.o)), d.o, DataTime(d), DataId(h, d) !in s.rows);
    OriginalNamed(h, d, convo.name);
  }

  /** The same with the lookups resolved. */
  lemma {:induction false} DataMeets(h: Hashes, account: string, s: State, d: Line, p: Message, m: Message,
        found: bool, again: bool)
    requires d.Data? && !Ignored(d, account) && d.o.source != ""
    requires m == Arriving(Original(h, d), p, found) && m.id == DataId(h, d) && m.id != p.id
    requires AliasFor(s.rows, d) == if found then Some(p) else None
    requires Accepts(s.rows, m) && AliasFor(UpsertRow(s.rows, m), d) == if again then Some(p) else None
    ensures Handled(h, account, s, d, false).state.rows ==
      if again then Deleted(UpsertRow(s.rows, m), {p.id}) else UpsertRow(s.rows, m)
  {
    hide AliasFor, DataRow, DataId, Ignored, Absorbed, Accepts, UpsertRow, Handled, Deleted;
    DataActs(h, account, s, d);
  }

  lemma {:induction false} OriginalMeetsPlaceholder(h: Hashes, account: string, rows: Table, s: State, d: Line, e: Line)
    requires Scenario(h, account, rows, d, e)
    requires s.rows == rows[PlaceholderId(h, e) := PlaceholderRow(h, e.o, e.target, e.c)]
    ensures var o, p := Original(h, d), PlaceholderRow(h, e.o, e.target, e.c); var k := PlaceholderCrowd(h, rows, e);
      var m := Arriving(o, p, k < EXACT_LIMIT);
      Handled(h, account, s, d, false).state.rows == if k + 1 < 10 then rows[o.id := m] else s.rows[o.id := m]
  {
    hide Scenario, InWindow, AddressesMatch, IsPlaceholder, FindAlias, DataRow, PlaceholderRow, DataId, Crowd,
          Handled, Arriving,
      ConversationId, PlaceholderId, SignalIds, IsSignalRow, Ignored, IsAlias, NoAliasIn, DataTime, Less, Deleted,
        Accepts, UpsertRow;
    ScenarioParts(h, account, rows, d, e);
    OriginalFacts(h, account, rows, d, e);
    PlaceholderFacts(h, account, rows, d, e);
    OriginalBeforePlaceholder(h, account, rows, d, e);
    NoAliasNear(h, account, rows, d, e);
    var o, p, k := Original(h, d), PlaceholderRow(h, e.o, e.target, e.c), PlaceholderCrowd(h, rows, e);
    var m := Arriving(o, p, k < EXACT_LIMIT);
    ArrivingFacts(o, p, k < EXACT_LIMIT);
    OnlyNewAliasFound(rows, Conv(e), e.o.source, p);
    SecondLookup(rows, Conv(e), e.o.source, m, p);
    FreshUpsert(rows, p);
    FreshUpsert(s.rows, m);
    SwapInserts(rows, m, p);
    DataMeets(h, account, s, d, p, m, k < EXACT_LIMIT, k + 1 < EXACT_LIMIT);
  }

  // ----- Convergence -----

  lemma OneNewRow(h: Hashes, rows: Table, m: Message, d: Line, e: Line)
    requires d.Data? && e.Edit? && m.id == DataId(h, d) && m.id !in rows
    ensures Converged(h, rows, rows[m.id := m], d, e) <==> m.body == e.c.body
  {
    hide DataId;
  }

  lemma PlaceholderSpoils(h: Hashes, before: Table, after: Table, d: Line, e: Line)
    requires d.Data? && e.Edit? && PlaceholderId(h, e) in after && PlaceholderId(h, e) !in before &&
      PlaceholderId(h, e) != DataId(h, d)
    ensures !Converged(h, before, after, d, e)
  {
    hide DataId, PlaceholderId;
  }

  lemma EditedBody(o: Message, p: Message, c: Content)
    requires p.body == c.body
    ensures Merge(o, EditedRow(o, c)).body == c.body && Merge(o, EditedRow(o, c)).id == o.id
    ensures Arriving(o, p, true).body == c.body && Arriving(o, p, true).id == o.id
  {
    hide TrimSpace;
    assert TrimSpace(c.body) == c.body;
  }

  /** The edit finds its original, or, when the original is not listed, leaves a placeholder. */
  function EarlyRows(h: Hashes, rows: Table, d: Line, e: Line): Table
    requires d.Data? && e.Edit?
  {
    var o, p := Original(h, d), PlaceholderRow(h, e.o, e.target, e.c);
    if Visible(h, rows, d, e) then Put(rows, Merge(o, EditedRow(o, e.c))) else Put(Put(rows, o), p)
  }

  /** The original absorbs the listed placeholder, and deletes it when it is still listed. */
  function LateRows(h: Hashes, rows: Table, d: Line, e: Line): Table
    requires d.Data? && e.Edit?
  {
    var o, p, k := Original(h, d), PlaceholderRow(h, e.o, e.target, e.c), PlaceholderCrowd(h, rows, e);
    var m := Arriving(o, p, k < EXACT_LIMIT);
    if k + 1 < EXACT_LIMIT then Put(rows, m) else Put(Put(rows, p), m)
  }

  lemma RowIds(h: Hashes, d: Line, e: Line)
    requires d.Data? && e.Edit?
    ensures var o, p := Original(h, d), PlaceholderRow(h, e.o, e.target, e.c);
      && o.id == DataId(h, d) && p.id == PlaceholderId(h, e) && Merge(o, EditedRow(o, e.c)).id == DataId(h, d)
      && Absorbed(o, p).id == DataId(h, d)
  {
    hide TrimSpace, FirstNonEmpty;
  }

  lemma {:induction false} EarlyExactly(h: Hashes, account: string, rows: Table, d: Line, e: Line)
    requires Scenario(h, account, rows, d, e)
    ensures Converged(h, rows, EarlyRows(h, rows, d, e), d, e) <==> Visible(h, rows, d, e)
  {
    hide Scenario, Visible, DataRow, PlaceholderRow, EditedRow, Merge, DataId, PlaceholderId, ConversationId, DataTime,
      SignalIds, Converged, Arriving, Ignored, IsAlias, IsSignalRow, AddressesMatch, InWindow, IsPlaceholder;
    ScenarioParts(h, account, rows, d, e);
    OriginalFacts(h, account, rows, d, e);
    PlaceholderFacts(h, account, rows, d, e);
    OriginalBeforePlaceholder(h, account, rows, d, e);
    var o, p := Original(h, d), PlaceholderRow(h, e.o, e.target, e.c);
    EditedBody(o, p, e.c);
    if Visible(h, rows, d, e) {
      OneNewRow(h, rows, Merge(o, EditedRow(o, e.c)), d, e);
    } else {
      PlaceholderSpoils(h, rows, EarlyRows(h, rows, d, e), d, e);
    }
  }

  lemma {:induction false} LateExactly(h: Hashes, account: string, rows: Table, d: Line, e: Line)
    requires Scenario(h, account, rows, d, e)
    ensures Converged(h, rows, LateRows(h, rows, d, e), d, e) <==> PlaceholderCrowd(h, rows, e) + 1 < 10
  {
    hide Scenario, DataRow, PlaceholderRow, DataId, PlaceholderId, ConversationId, DataTime, PlaceholderCrowd,
      SignalIds, Converged, Ignored, IsAlias, IsSignalRow, AddressesMatch, InWindow, IsPlaceholder, Absorbed;
    ScenarioParts(h, account, rows, d, e);
    OriginalFacts(h, account, rows, d, e);
    PlaceholderFacts(h, account, rows, d, e);
    OriginalBeforePlaceholder(h, account, rows, d, e);
    var o, p, k := Original(h, d), PlaceholderRow(h, e.o, e.target, e.c), PlaceholderCrowd(h, rows, e);
    EditedBody(o, p, e.c);
    if k + 1 < EXACT_LIMIT {
      OneNewRow(h, rows, Absorbed(o, p), d, e);
    } else {
      PlaceholderSpoils(h, rows, LateRows(h, rows, d, e), d, e);
    }
  }

  /** How far a schedule has come. */
  datatype Stage =
    | Fresh      // neither line
    | Alone      // the original, no edit
    | Waiting    // the edit alone, queued
    | Held       // the edit alone, as a placeholder
    | Open       // the original, and the edit queued
    | Early      // both: the edit came upon the original
    | Late       // both: the original came upon the placeholder

  /** The stage is given by the order of the events, and by whether the edit sees its original. */
  predicate InStage(stage: Stage, es: seq<Event>, visible: bool) {
    var original, edit := Count(es, OriginalComes) == 1, Count(es, EditComes) == 1;
    match stage
    case Fresh => !original && !edit
    case Alone => original && !edit
    case Waiting => !original && edit && !EditReplayed(es)
    case Held => !original && edit && EditReplayed(es)
    case Open => original && edit && !EditReplayed(es) && !(visible && OriginalFirst(es))
    case Early => original && edit && !ReplayedFirst(es) && (EditReplayed(es) || (visible && OriginalFirst(es)))
    case Late => original && edit && ReplayedFirst(es) && EditReplayed(es)
  }

  function StageRows(h: Hashes, rows: Table, d: Line, e: Line, stage: Stage): Table
    requires d.Data? && e.Edit?
  {
    match stage
    case Fresh => rows
    case Waiting => rows
    case Alone => Put(rows, Original(h, d))
    case Open => Put(rows, Original(h, d))
    case Held => Put(rows, PlaceholderRow(h, e.o, e.target, e.c))
    case Early => EarlyRows(h, rows, d, e)
    case Late => LateRows(h, rows, d, e)
  }

  predicate IsWorld(h: Hashes, rows: Table, d: Line, e: Line, stage: Stage, w: World)
    requires d.Data? && e.Edit?
  {
    w == World(w.store, if stage in {Waiting, Open} then [e] else []) && w.store.rows == StageRows(h, rows, d, e, stage)
  }

  function NextStage(stage: Stage, event: Event, visible: bool): Stage {
    match event
    case OriginalComes => if stage == Fresh then Alone else if stage == Waiting then Open else Late
    case EditComes => if stage == Fresh then Waiting else if visible then Early else Open
    case QueueReplays => if stage == Waiting then Held else if stage == Open then Early else stage
  }

  /** A line that adds a row was stored. */
  lemma DataDone(h: Hashes, account: string, s: State, d: Line)
    requires d.Data? && Handled(h, account, s, d, false).state.rows != s.rows
    ensures Handled(h, account, s, d, false).outcome == Done
  {
    hide Ignored, DataConversation, StoredData, ConversationId, DataTime, DataId;
  }

  lemma {:induction false} FreshOriginal(h: Hashes, account: string, s: State, d: Line, e: Line)
    requires Scenario(h, account, s.rows, d, e)
    ensures var r := Handled(h, account, s, d, false);
      r.outcome == Done && r.state.rows == Put(s.rows, Original(h, d))
  {
    hide Scenario, Handled, DataRow, DataId, PlaceholderId, ConversationId, DataTime, PlaceholderRow, EditedRow, Merge,
      Absorbed;
    ScenarioParts(h, account, s.rows, d, e);
    OriginalArrives(h, account, s, d, e);
    RowIds(h, d, e);
    assert DataId(h, d) in Handled(h, account, s, d, false).state.rows;
    DataDone(h, account, s, d);
  }

  lemma {:induction false} HeldOriginal(h: Hashes, account: string, rows: Table, s: State, d: Line, e: Line)
    requires Scenario(h, account, rows, d, e) && s.rows == Put(rows, PlaceholderRow(h, e.o, e.target, e.c))
    ensures var r := Handled(h, account, s, d, false); r.outcome == Done && r.state.rows == LateRows(h, rows, d, e)
  {
    hide Scenario, Handled, DataRow, DataId, PlaceholderId, ConversationId, DataTime, PlaceholderRow, EditedRow, Merge,
      Absorbed, PlaceholderCrowd, Less;
    ScenarioParts(h, account, rows, d, e);
    RowIds(h, d, e);
    OriginalBeforePlaceholder(h, account, rows, d, e);
    OriginalMeetsPlaceholder(h, account, rows, s, d, e);
    assert DataId(h, d) !in s.rows && DataId(h, d) in Handled(h, account, s, d, false).state.rows;
    DataDone(h, account, s, d);
  }

  lemma {:induction false} FreshEdit(h: Hashes, account: string, s: State, d: Line, e: Line)
    requires Scenario(h, account, s.rows, d, e)
    ensures var r := Handled(h, account, s, e, false); r.outcome != Done && r.state.rows == s.rows
    ensures var r := Handled(h, account, s, e, true);
      r.outcome == Done && r.state.rows == Put(s.rows, PlaceholderRow(h, e.o, e.target, e.c))
  {
    hide Scenario, Handled, DataRow, DataId, PlaceholderId, ConversationId, DataTime, PlaceholderRow, EditedRow, Merge,
      Absorbed;
    ScenarioParts(h, account, s.rows, d, e);
    RowIds(h, d, e);
    EditMisses(h, account, s, d, e);
  }

  lemma {:induction false} StoredEdit(h: Hashes, account: string, rows: Table, s: State, d: Line, e: Line)
    requires Scenario(h, account, rows, d, e) && s.rows == Put(rows, Original(h, d))
    ensures var r := Handled(h, account, s, e, false);
      if Visible(h, rows, d, e) then r.outcome == Done && r.state.rows == EarlyRows(h, rows, d, e)
      else r.outcome != Done && r.state.rows == s.rows
    ensures var r := Handled(h, account, s, e, true); r.outcome == Done && r.state.rows == EarlyRows(h, rows, d, e)
  {
    hide Scenario, Handled, DataRow, DataId, PlaceholderId, ConversationId, DataTime, PlaceholderRow, EditedRow, Merge,
      Absorbed, Visible;
    ScenarioParts(h, account, rows, d, e);
    RowIds(h, d, e);
    EditMeetsOriginal(h, account, rows, s, d, e, false);
    EditMeetsOriginal(h, account, rows, s, d, e, true);
  }

  lemma {:induction false} OriginalHappens(h: Hashes, account: string, rows: Table, d: Line, e: Line, stage: Stage,
    w: World)
    requires Scenario(h, account, rows, d, e)
    requires d.Data? && e.Edit? && IsWorld(h, rows, d, e, stage, w) && stage in {Fresh, Waiting, Held}
    ensures IsWorld(h, rows, d, e, NextStage(stage, OriginalComes, Visible(h, rows, d, e)), Arrived(h, account, w, d))
  {
    hide Scenario, Handled, Original, PlaceholderRow, EarlyRows, LateRows, Visible, Put;
    if stage == Held {
      HeldOriginal(h, account, rows, w.store, d, e);
    } else {
      FreshOriginal(h, account, w.store, d, e);
    }
  }

  lemma {:induction false} EditHappens(h: Hashes, account: string, rows: Table, d: Line, e: Line, stage: Stage,
    w: World)
    requires Scenario(h, account, rows, d, e)
    requires d.Data? && e.Edit? && IsWorld(h, rows, d, e, stage, w) && stage in {Fresh, Alone}
    ensures IsWorld(h, rows, d, e, NextStage(stage, EditComes, Visible(h, rows, d, e)), Arrived(h, account, w, e))
  {
    hide Scenario, Handled, Original, PlaceholderRow, EarlyRows, LateRows, Visible, Put;
    if stage == Fresh {
      FreshEdit(h, account, w.store, d, e);
    } else {
      StoredEdit(h, account, rows, w.store, d, e);
    }
  }

  lemma ReplayedOne(h: Hashes, account: string, s: State, l: Line)
    ensures Replayed(h, account, s, []) == World(s, [])
    ensures var r := Handled(h, account, s, l, true);
      Replayed(h, account, s, [l]) == World(r.state, if r.outcome == Done then [] else [l])
  {
    hide Handled;
    assert [l][..0] == [];
  }

  lemma {:induction false} ReplayHappens(h: Hashes, account: string, rows: Table, d: Line, e: Line, stage: Stage,
    w: World)
    requires Scenario(h, account, rows, d, e)
    requires d.Data? && e.Edit? && IsWorld(h, rows, d, e, stage, w)
    ensures IsWorld(h, rows, d, e, NextStage(stage, QueueReplays, Visible(h, rows, d, e)),
      Replayed(h, account, w.store, w.queue))
  {
    hide Scenario, Handled, Original, PlaceholderRow, EarlyRows, LateRows, Visible, Put, Replayed;
    ReplayedOne(h, account, w.store, e);
    if stage == Waiting {
      FreshEdit(h, account, w.store, d, e);
    } else if stage == Open {
      StoredEdit(h, account, rows, w.store, d, e);
    }
  }

  lemma {:induction false} CountSees(es: seq<Event>, event: Event)
    ensures Count(es, event) > 0 <==> event in es
  {
    if es != [] {
      CountSees(es[..|es| - 1], event);
      assert es == es[..|es| - 1] + [es[|es| - 1]];
    }
  }

  lemma EditReplayedGrows(es: seq<Event>, event: Event)
    ensures EditReplayed(es + [event]) <==> EditReplayed(es) || (event == QueueReplays && EditComes in es)
  {
    var all := es + [event];
    if EditReplayed(es) {
      var i, j :| 0 <= i < j < |es| && es[i] == EditComes && es[j] == QueueReplays;
      assert all[i] == EditComes && all[j] == QueueReplays;
    }
    if event == QueueReplays && EditComes in es {
      var i :| 0 <= i < |es| && es[i] == EditComes;
      assert all[i] == EditComes && all[|es|] == event;
    }
  }

  lemma OriginalFirstGrows(es: seq<Event>, event: Event)
    ensures OriginalFirst(es + [event]) <==> OriginalFirst(es) || (event == EditComes && OriginalComes in es)
  {
    var all := es + [event];
    if OriginalFirst(es) {
      var i, j :| 0 <= i < j < |es| && es[i] == OriginalComes && es[j] == EditComes;
      assert all[i] == OriginalComes && all[j] == EditComes;
    }
    if event == EditComes && OriginalComes in es {
      var i :| 0 <= i < |es| && es[i] == OriginalComes;
      assert all[i] == OriginalComes && all[|es|] == event;
    }
  }

  lemma ReplayedFirstGrows(es: seq<Event>, event: Event)
    ensures ReplayedFirst(es + [event]) <==> ReplayedFirst(es) || (event == OriginalComes && EditReplayed(es))
  {
    hide EditReplayed;
    var all := es + [event];
    forall n | 0 <= n <= |es| ensures all[..n] == es[..n] {
    }
    assert es[..|es|] == es && all[|es|] == event;
    if ReplayedFirst(es) {
      var n :| 0 <= n < |es| && es[n] == OriginalComes && EditReplayed(es[..n]);
      assert all[n] == OriginalComes && EditReplayed(all[..n]);
    }
    if event == OriginalComes && EditReplayed(es) {
      assert all[|es|] == OriginalComes && EditReplayed(all[..|es|]);
    }
  }

  lemma {:induction false} OrderSees(es: seq<Event>)
    ensures EditReplayed(es) ==> EditComes in es
    ensures OriginalFirst(es) ==> OriginalComes in es && EditComes in es
    ensures ReplayedFirst(es) ==> OriginalComes in es && EditReplayed(es)
  {
    if ReplayedFirst(es) {
      var n :| 0 <= n < |es| && es[n] == OriginalComes && EditReplayed(es[..n]);
      var i, j :| 0 <= i < j < n && es[..n][i] == EditComes && es[..n][j] == QueueReplays;
      assert es[i] == EditComes && es[j] == QueueReplays;
    }
  }

  lemma {:induction false} StageGrows(stage: Stage, es: seq<Event>, event: Event, visible: bool)
    requires InStage(stage, es, visible)
    requires Count(es + [event], OriginalComes) <= 1 && Count(es + [event], EditComes) <= 1
    ensures InStage(NextStage(stage, event, visible), es + [event], visible)
    ensures event == OriginalComes ==> stage in {Fresh, Waiting, Held}
    ensures event == EditComes ==> stage in {Fresh, Alone}
  {
    hide EditReplayed, OriginalFirst, ReplayedFirst;
    assert (es + [event])[..|es|] == es;
    CountSees(es, OriginalComes);
    CountSees(es, EditComes);
    OrderSees(es);
    EditReplayedGrows(es, event);
    OriginalFirstGrows(es, event);
    ReplayedFirstGrows(es, event);
  }

  /** Every prefix of a schedule is in some stage, and in its world. */
  lemma {:induction false} ScheduleStage(h: Hashes, account: string, s: State, d: Line, e: Line, es: seq<Event>)
    returns (stage: Stage)
    requires Scenario(h, account, s.rows, d, e) && Count(es, OriginalComes) <= 1 && Count(es, EditComes) <= 1
    ensures InStage(stage, es, Visible(h, s.rows, d, e))
    ensures d.Data? && e.Edit? && IsWorld(h, s.rows, d, e, stage, After(h, account, s, d, e, es))
  {
    hide Scenario, Visible, IsWorld, InStage, Arrived, Replayed;
    ScenarioParts(h, account, s.rows, d, e);
    if es == [] {
      stage := Fresh;
      FreshWorld(h, s, d, e, Visible(h, s.rows, d, e));
    } else {
      var init, event := es[..|es| - 1], es[|es| - 1];
      var before := ScheduleStage(h, account, s, d, e, init);
      assert es == init + [event];
      StageGrows(before, init, event, Visible(h, s.rows, d, e));
      stage := NextStage(before, event, Visible(h, s.rows, d, e));
      var w := After(h, account, s, d, e, init);
      match event {
        case OriginalComes => OriginalHappens(h, account, s.rows, d, e, before, w);
        case EditComes => EditHappens(h, account, s.rows, d, e, before, w);
        case QueueReplays => ReplayHappens(h, account, s.rows, d, e, before, w);
      }
    }
  }

  lemma FreshWorld(h: Hashes, s: State, d: Line, e: Line, visible: bool)
    requires d.Data? && e.Edit?
    ensures InStage(Fresh, [], visible) && IsWorld(h, s.rows, d, e, Fresh, World(s, []))
  {
  }

  /** The queue is empty at the end, as it is when a replay comes after the edit. */
  predicate Finished(h: Hashes, account: string, s: State, d: Line, e: Line, es: seq<Event>) {
    Schedule(es) && After(h, account, s, d, e, es).queue == []
  }

  /** What a finished schedule leaves depends only on whether the edit was replayed before the
      original came. */
  lemma {:induction false} FinishedRows(h: Hashes, account: string, s: State, d: Line, e: Line, es: seq<Event>)
    requires Scenario(h, account, s.rows, d, e) && Schedule(es)
    ensures Finished(h, account, s, d, e, es) <==> EditReplayed(es) || (Visible(h, s.rows, d, e) && OriginalFirst(es))
    ensures d.Data? && e.Edit?
    ensures Finished(h, account, s, d, e, es) ==>
      After(h, account, s, d, e, es).store.rows ==
        if ReplayedFirst(es) then LateRows(h, s.rows, d, e) else EarlyRows(h, s.rows, d, e)
  {
    hide Scenario, Visible, EditReplayed, OriginalFirst, ReplayedFirst, After, LateRows, EarlyRows, DataId,
      PlaceholderId;
    ScenarioParts(h, account, s.rows, d, e);
    var stage := ScheduleStage(h, account, s, d, e, es);
    OrderSees(es);
  }

  /** Main result: an original and its edit, in any order and with the recovery queue replayed any
      number of times anywhere, end in one row with the original's id and the edited body and no
      placeholder, exactly when the row the deciding lookup needs is within its LIMIT: where the
      edit was replayed before the original came, the placeholder, which the original itself
      moves down by one; otherwise the original. The queue is empty once it was replayed after the
      edit, or when the edit saw its original. */
  lemma {:induction false} EditsConvergeExactly(h: Hashes, account: string, s: State, d: Line, e: Line, es: seq<Event>)
    requires Scenario(h, account, s.rows, d, e) && Schedule(es)
    ensures Finished(h, account, s, d, e, es) <==> EditReplayed(es) || (Visible(h, s.rows, d, e) && OriginalFirst(es))
    ensures Finished(h, account, s, d, e, es) ==>
      (Converged(h, s.rows, After(h, account, s, d, e, es).store.rows, d, e) <==>
       if ReplayedFirst(es) then PlaceholderCrowd(h, s.rows, e) + 1 < 10 else Visible(h, s.rows, d, e))
  {
    hide Scenario, Visible, EditReplayed, OriginalFirst, ReplayedFirst, After, LateRows, EarlyRows, Converged,
      PlaceholderCrowd, Finished;
    FinishedRows(h, account, s, d, e, es);
    EarlyExactly(h, account, s.rows, d, e);
    LateExactly(h, account, s.rows, d, e);
  }

  function Ref(c: Content): Token { if c.media.Some? then c.media.value.ref else "" }

  function Mime(c: Content): Token { if c.media.Some? then c.media.value.mime else "" }

  predicate EitherOrSame(a: string, b: string) { a == "" || b == "" || a == b }

  /** The edit repeats the original's mention, and replaces none of its attachment. */
  predicate SameOutcome(d: Line, e: Line)
    requires d.Data? && e.Edit?
  {
    && (d.c.mentionsMe ==> e.c.mentionsMe)
    && EitherOrSame(Ref(d.c), Ref(e.c)) && EitherOrSame(Mime(d.c), Mime(e.c))
  }

  lemma EditedSummary(o: Message, c: Content)
    ensures Merge(o, EditedRow(o, c)) ==
      o.(body := c.body, mentionsMe := c.mentionsMe, replyTo := Keep(c.replyTo, o.replyTo),
         mediaId := Keep(Ref(c), o.mediaId), mimeType := Keep(Mime(c), o.mimeType))
  {
  }

  lemma PlaceholderColumns(h: Hashes, e: Line)
    requires e.Edit?
    ensures var p := PlaceholderRow(h, e.o, e.target, e.c);
      && p.body == e.c.body && p.replyTo == e.c.replyTo && p.mentionsMe == e.c.mentionsMe
      && p.mediaId == Ref(e.c) && p.mimeType == Mime(e.c) && p.decryptionKey == "" && p.reactions == []
  {
    hide TrimSpace;
  }

  lemma OriginalColumns(h: Hashes, d: Line)
    requires d.Data?
    ensures var o := Original(h, d);
      && o.replyTo == d.c.replyTo && o.mentionsMe == d.c.mentionsMe
      && o.mediaId == Ref(d.c) && o.mimeType == Mime(d.c) && o.decryptionKey == "" && o.reactions == []
  {
    hide TrimSpace;
  }

  lemma AbsorbedSummary(o: Message, p: Message, c: Content)
    requires p.body == c.body && p.replyTo == c.replyTo && p.mediaId == Ref(c) && p.mimeType == Mime(c) &&
      p.decryptionKey == "" && p.reactions == []
    requires Trimmed(o.replyTo) && Trimmed(o.mediaId) && Trimmed(o.mimeType) && o.decryptionKey == "" &&
      o.reactions == []
    ensures Absorbed(o, p) ==
      o.(body := c.body, mentionsMe := o.mentionsMe || p.mentionsMe, replyTo := Keep(c.replyTo, o.replyTo),
         mediaId := Keep(o.mediaId, Ref(c)), mimeType := Keep(o.mimeType, Mime(c)))
  {
    hide TrimSpace;
    assert TrimSpace("") == "" && TrimSpace(c.body) == c.body && TrimSpace(c.replyTo) == c.replyTo;
    assert TrimSpace(o.replyTo) == o.replyTo && TrimSpace(o.mediaId) == o.mediaId &&
      TrimSpace(o.mimeType) == o.mimeType;
    assert TrimSpace(Ref(c)) == Ref(c) && TrimSpace(Mime(c)) == Mime(c);
  }

  lemma {:induction false} RowsAgreeExactly(h: Hashes, d: Line, e: Line)
    requires d.Data? && e.Edit?
    ensures Merge(Original(h, d), EditedRow(Original(h, d), e.c))
      == Absorbed(Original(h, d), PlaceholderRow(h, e.o, e.target, e.c))
      <==> SameOutcome(d, e)
  {
    hide TrimSpace, Trimmed, DataRow, PlaceholderRow, Merge, EditedRow, Absorbed;
    PlaceholderColumns(h, e);
    OriginalColumns(h, d);
    EditedSummary(Original(h, d), e.c);
    AbsorbedSummary(Original(h, d), PlaceholderRow(h, e.o, e.target, e.c), e.c);
  }

  lemma SameTables(rows: Table, id: string, a: Message, b: Message, s: Table, t: Table)
    requires s == rows[id := a] && t == rows[id := b]
    ensures s == t <==> a == b
  {
    assert s[id] == a && t[id] == b;
  }

  lemma {:induction false} EarlyIsLateExactly(h: Hashes, rows: Table, d: Line, e: Line)
    requires d.Data? && e.Edit? && Visible(h, rows, d, e) && PlaceholderCrowd(h, rows, e) + 1 < 10
    ensures EarlyRows(h, rows, d, e) == LateRows(h, rows, d, e) <==> SameOutcome(d, e)
  {
    hide Visible, DataRow, DataId, PlaceholderId, PlaceholderRow, ConversationId, DataTime, PlaceholderCrowd, Merge,
      EditedRow, Absorbed, SameOutcome;
    RowsAgreeExactly(h, d, e);
    RowIds(h, d, e);
    SameTables(rows, DataId(h, d), Merge(Original(h, d), EditedRow(Original(h, d), e.c)),
               Absorbed(Original(h, d), PlaceholderRow(h, e.o, e.target, e.c)),
               EarlyRows(h, rows, d, e), LateRows(h, rows, d, e));
  }

  /** Any two finished schedules leave the same rows when both, or neither, replayed the edit before
      the original. Where both kinds converge, they leave the very same row exactly when the edit
      keeps the original's mention and attachment: the edited row takes the edit's, the absorbing
      one keeps its own. */
  lemma {:induction false} OrdersAgreeExactly(h: Hashes, account: string, s: State, d: Line, e: Line, es: seq<Event>,
        fs: seq<Event>)
    requires Scenario(h, account, s.rows, d, e)
    requires Finished(h, account, s, d, e, es) && Finished(h, account, s, d, e, fs)
    ensures var a, b := After(h, account, s, d, e, es).store.rows, After(h, account, s, d, e, fs).store.rows;
      if ReplayedFirst(es) == ReplayedFirst(fs) then a == b
      else Visible(h, s.rows, d, e) && PlaceholderCrowd(h, s.rows, e) + 1 < 10 ==>
        (a == b <==> SameOutcome(d, e))
  {
    hide Scenario, Visible, EditReplayed, OriginalFirst, ReplayedFirst, After, PlaceholderCrowd, SameOutcome, Count,
      EarlyRows, LateRows;
    FinishedRows(h, account, s, d, e, es);
    FinishedRows(h, account, s, d, e, fs);
    if Visible(h, s.rows, d, e) && PlaceholderCrowd(h, s.rows, e) + 1 < EXACT_LIMIT {
      EarlyIsLateExactly(h, s.rows, d, e);
    }
  }
}
