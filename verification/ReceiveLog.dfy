/** The durability of received Signal lines: a batch is appended to a write-ahead log and synced,
    its lines are processed one by one, lines that fail go to a recovery queue, the log is dropped,
    and after a restart the log is drained and the queue replayed. The process may die between any
    two steps; files survive. The startup drain is over before polling begins. */
module ReceiveLog {
  import opened Text

  /** One JSON line of the log or of the queue. */
  datatype Record = Record(ts: int, account: string, reason: string, error: string, raw: string)

  /** How long a record is as a JSON line. */
  type Encoding = Record -> nat

  /** A scanner gives up on a line of this length. */
  const SCAN_LIMIT := 2 * 1024 * 1024

  predicate Fits(line: string) { |line| < SCAN_LIMIT }

  /** The lines a scanner gets to before one that does not fit. */
  function Scanned(lines: seq<string>): (r: seq<string>)
    ensures r <= lines
  {
    if lines == [] || !Fits(lines[0]) then [] else [lines[0]] + Scanned(lines[1..])
  }

  /** The records a scanner gets to. */
  function Readable(enc: Encoding, records: seq<Record>): (r: seq<Record>)
    ensures r <= records
  {
    if records == [] || enc(records[0]) >= SCAN_LIMIT then [] else [records[0]] + Readable(enc, records[1..])
  }

  /** The non-blank lines, trimmed. */
  function Lines(batch: seq<string>): seq<string> {
    if batch == [] then [] else
      var line := TrimSpace(batch[|batch| - 1]);
      Lines(batch[..|batch| - 1]) + if line == "" then [] else [line]
  }

  function WalRecord(ts: int, account: string, line: string): Record {
    Record(ts, account, "wal", "", line)
  }

  function Logged(ts: int, account: string, lines: seq<string>): (r: seq<Record>)
    ensures |r| == |lines|
  {
    if lines == [] then [] else
      Logged(ts, account, lines[..|lines| - 1]) + [WalRecord(ts, account, lines[|lines| - 1])]
  }

  function Raws(records: seq<Record>): (r: seq<string>)
    ensures |r| == |records|
  {
    if records == [] then [] else Raws(records[..|records| - 1]) + [records[|records| - 1].raw]
  }

  /** What processing a line comes to. A line that does not begin a JSON object is ignored. */
  datatype Verdict = Resolved | Unresolved(record: Record)

  predicate IsResolved(line: string, v: Verdict) {
    v.Resolved? || line == "" || line[0] != '{'
  }

  /** The queue entry of a failing line keeps the line itself. */
  function Quarantined(line: string, v: Verdict): Record
    requires v.Unresolved?
  {
    v.record.(raw := line)
  }

  function Count(s: seq<string>, x: string): nat {
    if s == [] then 0 else Count(s[..|s| - 1], x) + if s[|s| - 1] == x then 1 else 0
  }

  lemma {:induction false} CountConcat(a: seq<string>, b: seq<string>, x: string)
    ensures Count(a + b, x) == Count(a, x) + Count(b, x)
  {
    if b == [] {
      assert a + b == a;
    } else {
      CountConcat(a, b[..|b| - 1], x);
      assert (a + b)[..|a + b| - 1] == a + b[..|b| - 1];
    }
  }

  lemma CountRest(s: seq<string>, n: nat, x: string)
    requires n < |s|
    ensures Count(s[n..], x) == Count(s[n + 1..], x) + if s[n] == x then 1 else 0
  {
    CountConcat([s[n]], s[n + 1..], x);
    assert s[n..] == [s[n]] + s[n + 1..];
    assert Count([s[n]], x) == if s[n] == x then 1 else 0;
  }

  lemma {:induction false} RawsConcat(a: seq<Record>, b: seq<Record>)
    ensures Raws(a + b) == Raws(a) + Raws(b)
  {
    if b == [] {
      assert a + b == a;
    } else {
      RawsConcat(a, b[..|b| - 1]);
      assert (a + b)[..|a + b| - 1] == a + b[..|b| - 1];
    }
  }

  lemma RawsOne(a: seq<Record>, r: Record, x: string)
    ensures Raws(a + [r]) == Raws(a) + [r.raw]
    ensures Count(Raws(a + [r]), x) == Count(Raws(a), x) + if r.raw == x then 1 else 0
  {
    RawsConcat(a, [r]);
    CountConcat(Raws(a), [r.raw], x);
    assert Raws([r]) == [r.raw];
  }

  lemma LinesOne(batch: seq<string>, line: string, x: string)
    ensures Lines(batch + [line]) == Lines(batch) + if TrimSpace(line) == "" then [] else [TrimSpace(line)]
    ensures Count(Lines(batch + [line]), x) == Count(Lines(batch), x)
      + if TrimSpace(line) != "" && TrimSpace(line) == x then 1 else 0
  {
    hide TrimSpace;
    assert (batch + [line])[..|batch|] == batch;
    if TrimSpace(line) != "" {
      CountConcat(Lines(batch), [TrimSpace(line)], x);
    } else {
      assert Lines(batch) + [] == Lines(batch);
    }
  }

  // ----- Steps -----

  datatype Main =
    | Down
    | Idle
    | Appending(ts: int, account: string, batch: seq<string>, n: nat)
    | Processing(lines: seq<string>, n: nat, cut: bool)
    | Draining(lines: seq<string>, n: nat)

  /** Replaying holds the queue's lock. `cut`: the scanner gave up on a record. */
  datatype Replay = Quiet | Replaying(todo: seq<Record>, n: nat, kept: seq<Record>, cut: bool)

  /** The two files, what was resolved and what was synced so far, and the two activities. */
  datatype State = State(
    wal: seq<Record>,
    queue: seq<Record>,
    resolved: seq<string>,
    synced: seq<string>,
    main: Main,
    replay: Replay)

  datatype Event =
    | Start
    | Receive(ts: int, account: string, batch: seq<string>)
    | Append
    | Sync
    | Process(v: Verdict)
    | Finish
    | StartReplay
    | ReplayOne(v: Verdict)
    | FinishReplay
    | Crash

  function Next(m: Main): Main {
    match m
    case Appending(ts, account, batch, n) => Appending(ts, account, batch, n + 1)
    case Processing(lines, n, cut) => Processing(lines, n + 1, cut)
    case Draining(lines, n) => Draining(lines, n + 1)
    case _ => m
  }

  function AppendStep(s: State): State
    requires s.main.Appending? && s.main.n < |s.main.batch|
  {
    var a := s.main;
    var line := TrimSpace(a.batch[a.n]);
    if !Fits(a.batch[a.n]) then s.(main := Processing(Lines(Scanned(a.batch)), 0, true))
    else s.(wal := s.wal + if line == "" then [] else [WalRecord(a.ts, a.account, line)], main := Next(a))
  }

  /** A failing line waits for the queue's lock. */
  function ProcessStep(s: State, line: string, v: Verdict, next: Main): State {
    if IsResolved(line, v) then s.(resolved := s.resolved + [line], main := next)
    else if s.replay.Quiet? then s.(queue := s.queue + [Quarantined(line, v)], main := next)
    else s
  }

  function ReplayStep(s: State, v: Verdict): State
    requires s.replay.Replaying? && s.replay.n < |s.replay.todo|
  {
    var r := s.replay;
    var record := r.todo[r.n];
    if IsResolved(record.raw, v) then s.(resolved := s.resolved + [record.raw], replay := r.(n := r.n + 1))
    else s.(replay := r.(n := r.n + 1, kept := r.kept + [record]))
  }

  /** An event that does not fit the phase does nothing. */
  function Step(enc: Encoding, s: State, e: Event): State {
    match e
    case Start =>
      if s.main.Down? || s.main.Idle? then s.(main := Draining(Raws(Readable(enc, s.wal)), 0)) else s
    case Receive(ts, account, batch) => if s.main.Idle? then s.(main := Appending(ts, account, batch, 0)) else s
    case Append => if s.main.Appending? && s.main.n < |s.main.batch| then AppendStep(s) else s
    case Sync =>
      if s.main.Appending? && s.main.n == |s.main.batch| then
        s.(synced := s.synced + Lines(s.main.batch), main := Processing(Lines(s.main.batch), 0, false))
      else s
    case Process(v) =>
      if s.main.Processing? && s.main.n < |s.main.lines| then
        ProcessStep(s, s.main.lines[s.main.n], v, Next(s.main))
      else if s.main.Draining? && s.main.n < |s.main.lines| then
        ProcessStep(s, s.main.lines[s.main.n], v, Next(s.main))
      else s
    case Finish =>
      if s.main.Processing? && s.main.n == |s.main.lines| then s.(wal := if s.main.cut then s.wal else [], main := Idle)
      else if s.main.Draining? && s.main.n == |s.main.lines| then s.(wal := [], main := Idle)
      else s
    case StartReplay =>
      if s.replay.Quiet? && !s.main.Down? then
        s.(replay := Replaying(Readable(enc, s.queue), 0, [], |Readable(enc, s.queue)| < |s.queue|))
      else s
    case ReplayOne(v) => if s.replay.Replaying? && s.replay.n < |s.replay.todo| then ReplayStep(s, v) else s
    case FinishReplay =>
      if s.replay.Replaying? && s.replay.n == |s.replay.todo| then
        s.(queue := if s.replay.cut then s.queue else s.replay.kept, replay := Quiet)
      else s
    case Crash => s.(main := Down, replay := Quiet)
  }

  function Run(enc: Encoding, es: seq<Event>): State {
    if es == [] then State([], [], [], [], Down, Quiet) else Step(enc, Run(enc, es[..|es| - 1]), es[|es| - 1])
  }

  // ----- Conservation -----

  /** Only a line that begins a JSON object can fail. */
  predicate IsJson(line: string) { line != "" && line[0] == '{' }

  /** The event handles the line: it is next in the pass, or next in the replay of the queue. */
  predicate Works(s: State, e: Event, x: string) {
    match e
    case Process(_) =>
      || (s.main.Processing? && s.main.n < |s.main.lines| && s.main.lines[s.main.n] == x)
      || (s.main.Draining? && s.main.n < |s.main.lines| && s.main.lines[s.main.n] == x)
    case ReplayOne(_) => s.replay.Replaying? && s.replay.n < |s.replay.todo| && s.replay.todo[s.replay.n].raw == x
    case _ => false
  }

  /** The event handles the line, and does not fail. */
  predicate Settles(s: State, e: Event, x: string) {
    Works(s, e, x) &&
      (match e case Process(v) => v.Resolved? || !IsJson(x) case ReplayOne(v) => v.Resolved? || !IsJson(x))
  }

  /** How often the line was handled without failing. */
  function Settlements(enc: Encoding, es: seq<Event>, x: string): nat {
    if es == [] then 0 else
      var init := es[..|es| - 1];
      Settlements(enc, init, x) + if Settles(Run(enc, init), es[|es| - 1], x) then 1 else 0
  }

  lemma {:induction false} StepSettles(enc: Encoding, s: State, e: Event, x: string)
    ensures Count(Step(enc, s, e).resolved, x) == Count(s.resolved, x) + if Settles(s, e, x) then 1 else 0
  {
    hide Count, Raws, Lines, Readable, Scanned, AppendStep;
    match e {
      case Process(_) =>
        if s.main.Processing? && s.main.n < |s.main.lines| { CountNext(s.resolved, s.main.lines[s.main.n], x); }
        if s.main.Draining? && s.main.n < |s.main.lines| { CountNext(s.resolved, s.main.lines[s.main.n], x); }
      case ReplayOne(_) =>
        if s.replay.Replaying? &&
          s.replay.n < |s.replay.todo| { CountNext(s.resolved, s.replay.todo[s.replay.n].raw, x); }
      case Append => AppendResolves(s);
      case _ =>
    }
  }

  lemma AppendResolves(s: State)
    ensures s.main.Appending? && s.main.n < |s.main.batch| ==> AppendStep(s).resolved == s.resolved
  {
  }

  lemma CountNext(s: seq<string>, y: string, x: string)
    ensures Count(s + [y], x) == Count(s, x) + if y == x then 1 else 0
  {
    assert (s + [y])[..|s|] == s;
  }

  /** What counts as resolved is what was handled without failing, occurrence by occurrence. */
  lemma {:induction false} ResolvedIsSettled(enc: Encoding, es: seq<Event>, x: string)
    ensures Count(Run(enc, es).resolved, x) == Settlements(enc, es, x)
  {
    hide Step, Settles, Count;
    if es == [] {
      NothingCounted(x);
    } else {
      ResolvedIsSettled(enc, es[..|es| - 1], x);
      StepSettles(enc, Run(enc, es[..|es| - 1]), es[|es| - 1], x);
    }
  }

  lemma NothingCounted(x: string)
    ensures Count([], x) == 0
  {
  }

  /** Every synced occurrence of a line was handled without failing, is in the log, or is in the
      queue. */
  predicate Survives(enc: Encoding, es: seq<Event>, x: string) {
    var s := Run(enc, es);
    Count(s.synced, x) <= Settlements(enc, es, x) + Count(Raws(s.wal), x) + Count(Raws(s.queue), x)
  }

  lemma SurvivesIsConserved(enc: Encoding, es: seq<Event>, x: string)
    ensures Survives(enc, es, x) <==> Conserved(Run(enc, es), x)
  {
    hide Run, Count, Settlements, Raws;
    ResolvedIsSettled(enc, es, x);
  }

  /** Every synced occurrence of a line was resolved, is in the log, or is in the queue. */
  predicate Conserved(s: State, x: string) {
    Count(s.synced, x) <= Count(s.resolved, x) + Count(Raws(s.wal), x) + Count(Raws(s.queue), x)
  }

  /** The occurrences only the log can still account for. */
  function Pending(s: State, x: string): nat {
    match s.main
    case Down => Count(Raws(s.wal), x)
    case Processing(lines, n, cut) => if cut || n > |lines| then 0 else Count(lines[n..], x)
    case Draining(lines, n) => if n > |lines| then 0 else Count(lines[n..], x)
    case _ => 0
  }

  /** The occurrences the queue will still hold when a running replay is over. */
  function Queued(s: State, x: string): nat {
    if s.replay.Replaying? && !s.replay.cut && s.replay.n <= |s.replay.todo| then
      Count(Raws(s.replay.kept), x) + Count(Raws(s.replay.todo)[s.replay.n..], x)
    else Count(Raws(s.queue), x)
  }

  predicate Accounted(s: State, x: string) {
    Count(s.synced, x) <= Count(s.resolved, x) + Pending(s, x) + Queued(s, x)
  }

  /** The log covers what is being appended, processed or drained from it. */
  predicate Covered(s: State, x: string) {
    match s.main
    case Appending(_, _, batch, n) => n <= |batch| && Count(Lines(batch[..n]), x) <= Count(Raws(s.wal), x)
    case Processing(lines, n, cut) => n <= |lines| && (cut || Count(lines, x) <= Count(Raws(s.wal), x))
    case Draining(lines, n) => n <= |lines| && Count(lines, x) <= Count(Raws(s.wal), x)
    case _ => true
  }

  predicate ReplayFine(s: State, x: string) {
    s.replay.Replaying? ==>
      && s.replay.n <= |s.replay.todo|
      && (!s.replay.cut ==> s.replay.todo == s.queue && Queued(s, x) <= Count(Raws(s.queue), x))
  }

  /** Lines as they may be received: when, for which account, and the line itself. */
  type Admitted = (int, string, string) -> bool

  /** The scanner gets to line `j` of the batch. */
  predicate Reached(batch: seq<string>, j: int) {
    forall k :: 0 <= k <= j && k < |batch| ==> Fits(batch[k])
  }

  /** Every line of the batch that gets into the log is admitted. */
  predicate BatchAdmitted(p: Admitted, ts: int, account: string, batch: seq<string>) {
    forall j :: 0 <= j < |batch| && Reached(batch, j) && TrimSpace(batch[j]) != "" ==>
      p(ts, account, TrimSpace(batch[j]))
  }

  predicate ReceivesOnly(p: Admitted, es: seq<Event>) {
    forall i :: 0 <= i < |es| && es[i].Receive? ==> BatchAdmitted(p, es[i].ts, es[i].account, es[i].batch)
  }

  /** Every admitted line that the scanner accepts is short enough as a log record, too. */
  ghost predicate ReadableAsRecords(enc: Encoding, p: Admitted) {
    forall ts: int, account: string, line: string ::
      p(ts, account, line) && line != "" && Trimmed(line) && Fits(line) ==>
        enc(Record(ts, account, "wal", "", line)) < 2 * 1024 * 1024
  }

  /** The scan of the log would reach its end. */
  predicate LogReads(enc: Encoding, s: State) {
    Readable(enc, s.wal) == s.wal
  }

  predicate Good(s: State, x: string) {
    Accounted(s, x) && Covered(s, x) && ReplayFine(s, x)
  }

  lemma {:induction false} AllReadable(enc: Encoding, records: seq<Record>)
    requires forall i :: 0 <= i < |records| ==> enc(records[i]) < SCAN_LIMIT
    ensures Readable(enc, records) == records
  {
    if records != [] {
      AllReadable(enc, records[1..]);
    }
  }

  lemma {:induction false} CountSuffix(s: seq<string>, n: nat, x: string)
    requires n <= |s|
    ensures Count(s[n..], x) <= Count(s, x)
  {
    CountConcat(s[..n], s[n..], x);
    assert s == s[..n] + s[n..];
  }

  lemma TrimShorter(s: string)
    ensures |TrimSpace(s)| <= |s|
  {
    TrimRightShorter(s);
    TrimLeftShorter(TrimRight(s));
  }

  lemma {:induction false} TrimRightShorter(s: string)
    ensures |TrimRight(s)| <= |s|
  {
    if s != "" && IsSpace(s[|s| - 1]) { TrimRightShorter(s[..|s| - 1]); }
  }

  lemma {:induction false} TrimLeftShorter(s: string)
    ensures |TrimLeft(s)| <= |s|
  {
    if s != "" && IsSpace(s[0]) { TrimLeftShorter(s[1..]); }
  }

  lemma AppendKeeps(s: State, x: string)
    requires Good(s, x) && s.main.Appending? && s.main.n < |s.main.batch|
    ensures Good(AppendStep(s), x)
  {
    hide Count, Raws, Lines, TrimSpace, Trimmed, Scanned;
    var a := s.main;
    var line := TrimSpace(a.batch[a.n]);
    if Fits(a.batch[a.n]) {
      assert a.batch[..a.n + 1] == a.batch[..a.n] + [a.batch[a.n]];
      LinesOne(a.batch[..a.n], a.batch[a.n], x);
      if line != "" {
        TrimShorter(a.batch[a.n]);
        RawsOne(s.wal, WalRecord(a.ts, a.account, line), x);
      } else {
        assert s.wal + [] == s.wal;
      }
    }
  }

  lemma ProcessKeeps(s: State, v: Verdict, x: string)
    requires Good(s, x) && (s.main.Processing? || s.main.Draining?) && s.main.n < |s.main.lines|
    ensures Good(ProcessStep(s, s.main.lines[s.main.n], v, Next(s.main)), x)
  {
    hide Count, Raws, Lines;
    var line := s.main.lines[s.main.n];
    CountRest(s.main.lines, s.main.n, x);
    if IsResolved(line, v) {
      CountConcat(s.resolved, [line], x);
      CountOne(line, x);
    } else if s.replay.Quiet? {
      RawsOne(s.queue, Quarantined(line, v), x);
    }
  }

  lemma CountOne(line: string, x: string)
    ensures Count([line], x) == if line == x then 1 else 0
    ensures Count([], x) == 0
  {
  }

  lemma ReplayKeeps(s: State, v: Verdict, x: string)
    requires Good(s, x) && s.replay.Replaying? && s.replay.n < |s.replay.todo|
    ensures Good(ReplayStep(s, v), x)
  {
    hide Count, Raws, Lines, Pending, Covered;
    var r := s.replay;
    var record := r.todo[r.n];
    CountRest(Raws(r.todo), r.n, x);
    RawsAt(r.todo, r.n);
    CountConcat(s.resolved, [record.raw], x);
    CountOne(record.raw, x);
    RawsOne(r.kept, record, x);
    SameMain(s, ReplayStep(s, v), x);
  }

  lemma {:induction false} RawsAt(records: seq<Record>, i: nat)
    requires i < |records|
    ensures Raws(records)[i] == records[i].raw
  {
    if i < |records| - 1 { RawsAt(records[..|records| - 1], i); }
  }

  lemma SameMain(s: State, t: State, x: string)
    requires t.main == s.main && t.wal == s.wal
    ensures Pending(t, x) == Pending(s, x) && Covered(t, x) == Covered(s, x)
  {
  }

  lemma StartKeeps(enc: Encoding, s: State, x: string)
    requires Good(s, x) && (s.main.Idle? || (s.main.Down? && LogReads(enc, s)))
    ensures Good(Step(enc, s, Start), x)
  {
    hide Count, Lines, Raws, Readable;
    var read := Readable(enc, s.wal);
    RawsConcat(read, s.wal[|read|..]);
    CountConcat(Raws(read), Raws(s.wal[|read|..]), x);
    assert s.wal == read + s.wal[|read|..];
    assert Raws(read)[0..] == Raws(read);
  }

  lemma SyncKeeps(enc: Encoding, s: State, x: string)
    requires Good(s, x) && s.main.Appending? && s.main.n == |s.main.batch|
    ensures Good(Step(enc, s, Sync), x)
  {
    hide Count, Raws, Lines;
    var batch := s.main.batch;
    assert batch[..|batch|] == batch;
    CountConcat(s.synced, Lines(batch), x);
    assert Lines(batch)[0..] == Lines(batch);
  }

  lemma FinishKeeps(enc: Encoding, s: State, x: string)
    requires Good(s, x)
    ensures Good(Step(enc, s, Finish), x)
  {
    hide Raws, Lines;
    if s.main.Processing? && s.main.n == |s.main.lines| {
      assert s.main.lines[s.main.n..] == [];
    } else if s.main.Draining? && s.main.n == |s.main.lines| {
      assert s.main.lines[s.main.n..] == [];
    }
  }

  lemma ReplayEndsKeep(enc: Encoding, s: State, e: Event, x: string)
    requires Good(s, x) && (e.StartReplay? || e.FinishReplay?)
    ensures Good(Step(enc, s, e), x)
  {
    hide Count, Lines, Pending, Covered;
    SameMain(s, Step(enc, s, e), x);
    CountOne("", x);
    if e.StartReplay? {
      if |Readable(enc, s.queue)| == |s.queue| {
        assert Readable(enc, s.queue) == s.queue;
        assert Raws(s.queue)[0..] == Raws(s.queue);
      }
    } else if s.replay.Replaying? && s.replay.n == |s.replay.todo| {
      assert Raws(s.replay.todo)[s.replay.n..] == [];
    }
  }

  lemma CrashKeeps(enc: Encoding, s: State, x: string)
    requires Good(s, x)
    ensures Good(Step(enc, s, Crash), x)
  {
    hide Count, Raws, Lines;
    if s.main.Processing? || s.main.Draining? {
      CountSuffix(s.main.lines, s.main.n, x);
    }
  }

  /** Every step keeps the account; a start after a crash does when its scan reaches the end. */
  lemma {:induction false} StepKeeps(enc: Encoding, s: State, e: Event, x: string)
    requires Good(s, x) && (e.Start? && s.main.Down? ==> LogReads(enc, s))
    ensures Good(Step(enc, s, e), x)
  {
    hide Good, AppendStep, ProcessStep, ReplayStep, Count, Raws, Lines, Readable;
    match e
    case Start => if s.main.Down? || s.main.Idle? { StartKeeps(enc, s, x); }
    case Receive(ts, account, batch) => if s.main.Idle? { ReceiveKeeps(s, ts, account, batch, x); }
    case Append => if s.main.Appending? && s.main.n < |s.main.batch| { AppendKeeps(s, x); }
    case Sync => if s.main.Appending? && s.main.n == |s.main.batch| { SyncKeeps(enc, s, x); }
    case Process(v) =>
      if (s.main.Processing? || s.main.Draining?) && s.main.n < |s.main.lines| { ProcessKeeps(s, v, x); }
    case Finish => FinishKeeps(enc, s, x);
    case StartReplay => ReplayEndsKeep(enc, s, e, x);
    case ReplayOne(v) => if s.replay.Replaying? && s.replay.n < |s.replay.todo| { ReplayKeeps(s, v, x); }
    case FinishReplay => ReplayEndsKeep(enc, s, e, x);
    case Crash => CrashKeeps(enc, s, x);
  }

  lemma ReceiveKeeps(s: State, ts: int, account: string, batch: seq<string>, x: string)
    requires Good(s, x) && s.main.Idle?
    ensures Good(s.(main := Appending(ts, account, batch, 0)), x)
  {
    hide Raws;
    assert batch[..0] == [];
  }

  lemma GoodConserves(s: State, x: string)
    requires Good(s, x)
    ensures Conserved(s, x)
  {
    hide Count, Raws, Lines;
    if s.main.Processing? || s.main.Draining? {
      CountSuffix(s.main.lines, s.main.n, x);
    }
  }

  /** No drain after a crash gives up on a record. */
  predicate DrainsRead(enc: Encoding, es: seq<Event>) {
    forall n :: 0 <= n < |es| && es[n].Start? && Run(enc, es[..n]).main.Down? ==> LogReads(enc, Run(enc, es[..n]))
  }

  lemma {:induction false} RunIsGood(enc: Encoding, es: seq<Event>, x: string)
    requires DrainsRead(enc, es)
    ensures Good(Run(enc, es), x)
  {
    hide Step, Good, LogReads;
    if es == [] {
      StartIsGood(enc, x);
    } else {
      var init := es[..|es| - 1];
      assert forall n :: 0 <= n < |init| ==> init[n] == es[n] && init[..n] == es[..n];
      RunIsGood(enc, init, x);
      StepKeeps(enc, Run(enc, init), es[|es| - 1], x);
    }
  }

  /** Main result: a run in which no drain after a crash gives up conserves every line. */
  lemma DrainsThatReadConserve(enc: Encoding, es: seq<Event>, x: string)
    requires DrainsRead(enc, es)
    ensures Survives(enc, es, x)
  {
    hide Run, Conserved, DrainsRead, Good, Survives;
    SurvivesIsConserved(enc, es, x);
    RunIsGood(enc, es, x);
    GoodConserves(Run(enc, es), x);
  }

  /** The log holds records of admitted lines, all of them short enough. */
  predicate LogAdmitted(enc: Encoding, p: Admitted, s: State) {
    && (forall i :: 0 <= i < |s.wal| ==> enc(s.wal[i]) < SCAN_LIMIT)
    && (s.main.Appending? ==>
          && s.main.n <= |s.main.batch| && Reached(s.main.batch, s.main.n - 1)
          && BatchAdmitted(p, s.main.ts, s.main.account, s.main.batch))
  }

  /** The next line of an admitted batch is short enough as a record. */
  lemma NextIsReadable(enc: Encoding, p: Admitted, ts: int, account: string, batch: seq<string>, n: nat)
    requires ReadableAsRecords(enc, p) && BatchAdmitted(p, ts, account, batch) && n < |batch|
    requires Reached(batch, n - 1) && Fits(batch[n])
    ensures Reached(batch, n)
    ensures TrimSpace(batch[n]) != "" ==> enc(WalRecord(ts, account, TrimSpace(batch[n]))) < SCAN_LIMIT
  {
    hide TrimSpace, Trimmed;
    TrimShorter(batch[n]);
    assert Reached(batch, n);
  }

  lemma AppendStaysAdmitted(enc: Encoding, p: Admitted, s: State)
    requires ReadableAsRecords(enc, p) && LogAdmitted(enc, p, s) && s.main.Appending? && s.main.n < |s.main.batch|
    ensures LogAdmitted(enc, p, AppendStep(s))
  {
    hide TrimSpace, Trimmed, Scanned, Lines, ReadableAsRecords, BatchAdmitted, Reached, Fits;
    var a := s.main;
    if Fits(a.batch[a.n]) {
      NextIsReadable(enc, p, a.ts, a.account, a.batch, a.n);
    }
  }

  lemma StepStaysAdmitted(enc: Encoding, p: Admitted, s: State, e: Event)
    requires ReadableAsRecords(enc, p) && LogAdmitted(enc, p, s)
    requires e.Receive? ==> BatchAdmitted(p, e.ts, e.account, e.batch)
    ensures LogAdmitted(enc, p, Step(enc, s, e))
  {
    hide AppendStep, Raws, Lines, Readable, BatchAdmitted, ReadableAsRecords;
    if e.Append? && s.main.Appending? && s.main.n < |s.main.batch| {
      AppendStaysAdmitted(enc, p, s);
    }
  }

  lemma {:induction false} RunStaysAdmitted(enc: Encoding, p: Admitted, es: seq<Event>)
    requires ReadableAsRecords(enc, p) && ReceivesOnly(p, es)
    ensures LogAdmitted(enc, p, Run(enc, es))
  {
    hide Step, BatchAdmitted, ReadableAsRecords;
    if es != [] {
      var init := es[..|es| - 1];
      assert forall n :: 0 <= n < |init| ==> init[n] == es[n];
      RunStaysAdmitted(enc, p, init);
      StepStaysAdmitted(enc, p, Run(enc, init), es[|es| - 1]);
    }
  }

  lemma AdmittedDrainsRead(enc: Encoding, p: Admitted, es: seq<Event>)
    requires ReadableAsRecords(enc, p) && ReceivesOnly(p, es)
    ensures DrainsRead(enc, es)
  {
    hide Run, BatchAdmitted, ReadableAsRecords, Readable;
    forall n | 0 <= n < |es| ensures LogReads(enc, Run(enc, es[..n])) {
      RunStaysAdmitted(enc, p, es[..n]);
      AllReadable(enc, Run(enc, es[..n]).wal);
    }
  }

  lemma StartIsGood(enc: Encoding, x: string)
    ensures Good(Run(enc, []), x)
  {
  }

  lemma RunAppends(enc: Encoding, es: seq<Event>, e: Event)
    ensures Run(enc, es + [e]) == Step(enc, Run(enc, es), e)
  {
    hide Step;
    assert (es + [e])[..|es|] == es;
  }

  function Polling(synced: seq<string>): State { State([], [], [], synced, Idle, Quiet) }

  /** A start on an empty or unreadable log, and its end. */
  lemma DrainNothing(enc: Encoding, s: State)
    requires (s.main.Down? || s.main.Idle?) && Readable(enc, s.wal) == []
    ensures Step(enc, Step(enc, s, Start), Finish) == s.(wal := [], main := Idle)
  {
  }

  lemma ReceiveLine(enc: Encoding, s: State, ts: int, account: string, line: string)
    requires s.main.Idle?
    ensures Step(enc, s, Receive(ts, account, [line])) == s.(main := Appending(ts, account, [line], 0))
  {
  }

  lemma AppendLine(enc: Encoding, s: State, ts: int, account: string, line: string)
    requires s.main == Appending(ts, account, [line], 0) && s.wal == [] && line != "" && Trimmed(line) && Fits(line)
    ensures Step(enc, s, Append) == s.(wal := [WalRecord(ts, account, line)], main := Appending(ts, account, [line], 1))
  {
    hide Trimmed, TrimSpace, Fits, Lines, Scanned;
    assert TrimSpace(line) == line;
    assert [] + [WalRecord(ts, account, line)] == [WalRecord(ts, account, line)];
  }

  lemma SyncLine(enc: Encoding, s: State, ts: int, account: string, line: string)
    requires s.main == Appending(ts, account, [line], 1) && s.synced == [] && line != "" && Trimmed(line)
    ensures Step(enc, s, Sync) == s.(synced := [line], main := Processing([line], 0, false))
  {
    hide Trimmed, TrimSpace, Lines;
    assert TrimSpace(line) == line;
    LinesOne([], line, line);
    NoLines(ts, account);
    assert [] + [line] == [line];
  }

  lemma CrashDown(enc: Encoding, s: State)
    ensures Step(enc, s, Crash) == s.(main := Down, replay := Quiet)
  {
  }

  /** The steps before the crash. */
  function Receiving(ts: int, account: string, line: string): seq<Event> {
    [Start, Finish] + [Receive(ts, account, [line])] + [Append] + [Sync]
  }

  /** One line received, logged and synced, from a fresh start. */
  lemma SyncedRun(enc: Encoding, ts: int, account: string, line: string)
    requires line != "" && Trimmed(line) && Fits(line)
    ensures Run(enc, Receiving(ts, account, line))
         == State([WalRecord(ts, account, line)], [], [], [line], Processing([line], 0, false), Quiet)
  {
    hide Run, Step, Trimmed, Fits, Readable;
    EmptyRun(enc);
    RunAppends(enc, [], Start);
    RunAppends(enc, [Start], Finish);
    assert [] + [Start] == [Start] && [Start] + [Finish] == [Start, Finish];
    NothingReadable(enc);
    DrainNothing(enc, Run(enc, []));
    var a := [Start, Finish];
    var b := a + [Receive(ts, account, [line])];
    RunAppends(enc, a, Receive(ts, account, [line]));
    ReceiveLine(enc, Run(enc, a), ts, account, line);
    RunAppends(enc, b, Append);
    AppendLine(enc, Run(enc, b), ts, account, line);
    RunAppends(enc, b + [Append], Sync);
    SyncLine(enc, Run(enc, b + [Append]), ts, account, line);
  }

  lemma NothingReadable(enc: Encoding)
    ensures Readable(enc, []) == []
  {
  }

  /** A line that fits, but not as a log record: synced, then lost by the drain after a crash. */
  lemma Loses(enc: Encoding, ts: int, account: string, line: string) returns (es: seq<Event>)
    requires line != "" && Trimmed(line) && Fits(line) && enc(WalRecord(ts, account, line)) >= SCAN_LIMIT
    ensures !Survives(enc, es, line)
    ensures forall i :: 0 <= i < |es| && es[i].Receive? ==> es[i] == Receive(ts, account, [line])
  {
    hide Run, Step, Trimmed, Fits, Survives;
    var a := Receiving(ts, account, line);
    es := a + [Crash] + [Start] + [Finish];
    SyncedRun(enc, ts, account, line);
    RunAppends(enc, a, Crash);
    CrashDown(enc, Run(enc, a));
    RunAppends(enc, a + [Crash], Start);
    RunAppends(enc, a + [Crash] + [Start], Finish);
    assert Readable(enc, Run(enc, a).wal) == [];
    DrainNothing(enc, Run(enc, a + [Crash]));
    CountOne(line, line);
    assert Run(enc, es) == Polling([line]);
    SurvivesIsConserved(enc, es, line);
  }

  lemma EmptyRun(enc: Encoding)
    ensures Run(enc, []) == State([], [], [], [], Down, Quiet)
  {
  }

  /** Main result: whatever lines are admitted, every run that receives only such lines conserves
      every line, occurrence by occurrence, as handled without failing, in the log or in the queue,
      exactly when
      each admitted line the scanner accepts is also short enough as a log record. A drain drops
      the log even when its scan gave up. */
  lemma ConservationExactly(enc: Encoding, p: Admitted)
    ensures (forall es, x :: ReceivesOnly(p, es) ==> Survives(enc, es, x)) <==> ReadableAsRecords(enc, p)
  {
    hide Survives, Trimmed, DrainsRead;
    if ReadableAsRecords(enc, p) {
      forall es, x | ReceivesOnly(p, es) ensures Survives(enc, es, x) {
        AdmittedDrainsRead(enc, p, es);
        DrainsThatReadConserve(enc, es, x);
      }
    } else {
      var ts: int, account: string, line: string :|
        p(ts, account, line) && line != "" && Trimmed(line) && Fits(line) &&
          enc(WalRecord(ts, account, line)) >= SCAN_LIMIT;
      var es := Loses(enc, ts, account, line);
      OneLineAdmitted(p, ts, account, line);
      assert ReceivesOnly(p, es);
    }
  }

  lemma OneLineAdmitted(p: Admitted, ts: int, account: string, line: string)
    requires p(ts, account, line) && Trimmed(line)
    ensures BatchAdmitted(p, ts, account, [line])
  {
    hide Trimmed;
    assert TrimSpace(line) == line;
  }

  // ----- The bridge's methods -----

  datatype Files = Files(wal: seq<Record>, queue: seq<Record>, resolved: seq<string>)

  /** `processReceiveLine` on a raw line. */
  function Processed(f: Files, raw: string, v: Verdict): Files {
    var line := TrimSpace(raw);
    if line == "" then f
    else if IsResolved(line, v) then f.(resolved := f.resolved + [line])
    else f.(queue := f.queue + [Quarantined(line, v)])
  }

  function ProcessedAll(f: Files, raws: seq<string>, vs: seq<Verdict>): Files
    requires |vs| >= |raws|
  {
    if raws == [] then f else
      Processed(ProcessedAll(f, raws[..|raws| - 1], vs), raws[|raws| - 1], vs[|raws| - 1])
  }

  function Handled(f: Files, ts: int, account: string, batch: seq<string>, vs: seq<Verdict>): Files
    requires |vs| >= |batch|
  {
    var scanned := Scanned(batch);
    var done := ProcessedAll(f.(wal := f.wal + Logged(ts, account, Lines(scanned))), scanned, vs);
    if scanned == batch then done.(wal := []) else done
  }

  function Drained(enc: Encoding, f: Files, vs: seq<Verdict>): Files
    requires |vs| >= |f.wal|
  {
    ProcessedAll(f, Raws(Readable(enc, f.wal)), vs).(wal := [])
  }

  /** What a replay keeps of the records, and what it resolves. */
  function Kept(records: seq<Record>, vs: seq<Verdict>): seq<Record>
    requires |vs| >= |records|
  {
    if records == [] then [] else
      var n := |records| - 1;
      Kept(records[..n], vs) + if Replays(records[n], vs[n]) then [] else [records[n]]
  }

  predicate Replays(r: Record, v: Verdict) { IsResolved(TrimSpace(r.raw), v) }

  function Recovered(records: seq<Record>, vs: seq<Verdict>): seq<string>
    requires |vs| >= |records|
  {
    if records == [] then [] else
      var n := |records| - 1;
      Recovered(records[..n], vs)
      + if Replays(records[n], vs[n]) && TrimSpace(records[n].raw) != "" then [TrimSpace(records[n].raw)] else []
  }

  function Replayed(enc: Encoding, f: Files, vs: seq<Verdict>): Files
    requires |vs| >= |f.queue|
  {
    var todo := Readable(enc, f.queue);
    f.(queue := if |todo| == |f.queue| then Kept(todo, vs) else f.queue, resolved := f.resolved + Recovered(todo, vs))
  }

  lemma {:induction false} ScannedUpTo(lines: seq<string>, n: nat)
    requires n <= |lines| && forall i :: 0 <= i < n ==> Fits(lines[i])
    ensures n <= |Scanned(lines)|
    ensures n == |lines| || !Fits(lines[n]) ==> Scanned(lines) == lines[..n]
  {
    if n > 0 {
      ScannedUpTo(lines[1..], n - 1);
      assert lines[..n] == [lines[0]] + lines[1..][..n - 1];
    }
  }

  lemma {:induction false} ReadableUpTo(enc: Encoding, records: seq<Record>, n: nat)
    requires n <= |records| && forall i :: 0 <= i < n ==> enc(records[i]) < SCAN_LIMIT
    ensures n <= |Readable(enc, records)|
    ensures n == |records| || enc(records[n]) >= SCAN_LIMIT ==> Readable(enc, records) == records[..n]
  {
    if n > 0 {
      ReadableUpTo(enc, records[1..], n - 1);
      assert records[..n] == [records[0]] + records[1..][..n - 1];
    }
  }

  lemma {:induction false} LoggedRaws(ts: int, account: string, lines: seq<string>)
    ensures Raws(Logged(ts, account, lines)) == lines
  {
    if lines != [] {
      LoggedRaws(ts, account, lines[..|lines| - 1]);
      RawsOne(Logged(ts, account, lines[..|lines| - 1]), WalRecord(ts, account, lines[|lines| - 1]), "");
    }
  }

  /** One more line of the batch, logged unless blank. */
  lemma {:induction false} AppendLogs(s: State)
    requires s.main.Appending? && s.main.n < |s.main.batch| && Fits(s.main.batch[s.main.n])
    requires s.wal == Logged(s.main.ts, s.main.account, Lines(s.main.batch[..s.main.n]))
    ensures var a := s.main;
      AppendStep(s) == s.(wal := Logged(a.ts, a.account, Lines(a.batch[..a.n + 1])), main := Next(a))
  {
    hide TrimSpace, Fits, Lines, Logged;
    var a := s.main;
    var lines, line := Lines(a.batch[..a.n]), TrimSpace(a.batch[a.n]);
    LinesOne(a.batch[..a.n], a.batch[a.n], "");
    assert a.batch[..a.n + 1] == a.batch[..a.n] + [a.batch[a.n]];
    LoggedOne(a.ts, a.account, lines, line);
    assert lines + [] == lines && s.wal + [] == s.wal;
  }

  lemma LoggedOne(ts: int, account: string, lines: seq<string>, line: string)
    ensures Logged(ts, account, lines + [line]) == Logged(ts, account, lines) + [WalRecord(ts, account, line)]
  {
    assert (lines + [line])[..|lines|] == lines;
  }

  lemma ProcessedOne(f: Files, raws: seq<string>, n: nat, vs: seq<Verdict>)
    requires n < |raws| <= |vs|
    ensures ProcessedAll(f, raws[..n + 1], vs) == Processed(ProcessedAll(f, raws[..n], vs), raws[n], vs[n])
  {
    assert raws[..n + 1][..n] == raws[..n];
  }

  lemma NothingProcessed(f: Files, vs: seq<Verdict>)
    ensures ProcessedAll(f, [], vs) == f
  {
  }

  class Bridge {
    const enc: Encoding
    var files: Files

    constructor (enc: Encoding)
      ensures files == Files([], [], []) && this.enc == enc
    {
      this.enc := enc;
      files := Files([], [], []);
    }

    method AppendReceiveWAL(ts: int, account: string, batch: seq<string>) returns (ok: bool)
      modifies this
      ensures files == old(files).(wal := old(files).wal + Logged(ts, account, Lines(Scanned(batch))))
      ensures ok <==> forall i :: 0 <= i < |batch| ==> |batch[i]| < 2 * 1024 * 1024
      ensures ok <==> Scanned(batch) == batch
    {
      hide TrimSpace, Scanned, Lines, Logged;
      NoLines(ts, account);
      assert old(files).wal + [] == old(files).wal;
      assert batch[..0] == [];
      for i := 0 to |batch|
        invariant forall k :: 0 <= k < i ==> Fits(batch[k])
        invariant files == old(files).(wal := old(files).wal + Logged(ts, account, Lines(batch[..i])))
      {
        ScannedUpTo(batch, i);
        if !Fits(batch[i]) {
          return false;
        }
        assert batch[..i + 1] == batch[..i] + [batch[i]];
        LinesOne(batch[..i], batch[i], "");
        var line := TrimSpace(batch[i]);
        if line != "" {
          LoggedOne(ts, account, Lines(batch[..i]), line);
          files := files.(wal := files.wal + [WalRecord(ts, account, line)]);
        } else {
          assert Lines(batch[..i]) + [] == Lines(batch[..i]);
        }
      }
      assert batch[..|batch|] == batch;
      ScannedUpTo(batch, |batch|);
      ok := true;
    }

    method ProcessReceiveLine(raw: string, v: Verdict, allowRecovery: bool) returns (resolved: bool)
      modifies this
      ensures var line := TrimSpace(raw);
        && files.wal == old(files).wal
        && (line != "" && line[0] == '{' && v.Unresolved? ==>
              && !resolved && files.resolved == old(files).resolved
              && files.queue == if allowRecovery then old(files).queue + [v.record.(raw := line)] else old(files).queue)
        && (line == "" || line[0] != '{' || v.Resolved? ==>
              && resolved && files.queue == old(files).queue
              && files.resolved == if line == "" then old(files).resolved else old(files).resolved + [line])
      ensures resolved == IsResolved(TrimSpace(raw), v)
      ensures files == if resolved || allowRecovery then Processed(old(files), raw, v) else old(files)
    {
      hide TrimSpace;
      var line := TrimSpace(raw);
      if |line| == 0 {
        return true;
      }
      resolved := line[0] != '{' || v.Resolved?;
      if resolved {
        files := files.(resolved := files.resolved + [line]);
      } else if allowRecovery {
        files := files.(queue := files.queue + [v.record.(raw := line)]);
      }
    }

    /** `vs` says, line by line, what processing comes to. */
    method HandleReceiveOutput(ts: int, account: string, batch: seq<string>, vs: seq<Verdict>) returns (ok: bool)
      requires |vs| >= |batch|
      modifies this
      ensures files == Handled(old(files), ts, account, batch, vs)
      ensures ok <==> forall i :: 0 <= i < |batch| ==> |batch[i]| < 2 * 1024 * 1024
      ensures files.wal == if ok then [] else old(files).wal + Logged(ts, account, Lines(Scanned(batch)))
    {
      hide Lines, Logged, Scanned, Processed, ProcessedAll;
      var logged := AppendReceiveWAL(ts, account, batch);
      ghost var base := files;
      NothingProcessed(base, vs);
      for i := 0 to |batch|
        invariant forall k :: 0 <= k < i ==> Fits(batch[k])
        invariant files == ProcessedAll(base, batch[..i], vs) && files.wal == base.wal
      {
        ScannedUpTo(batch, i);
        if !Fits(batch[i]) {
          return false;
        }
        var _ := ProcessReceiveLine(batch[i], vs[i], true);
        ProcessedOne(base, batch, i, vs);
      }
      ScannedUpTo(batch, |batch|);
      assert batch[..|batch|] == batch;
      files := files.(wal := []);
      ok := true;
    }

    method DrainReceiveWAL(vs: seq<Verdict>)
      requires |vs| >= |files.wal|
      modifies this
      ensures files == Drained(enc, old(files), vs) && files.wal == []
    {
      hide Readable, Processed, Raws;
      var raw := files.wal;
      ghost var base := files;
      ghost var raws := Raws(raw);
      var i := 0;
      while i < |raw| && enc(raw[i]) < SCAN_LIMIT
        invariant 0 <= i <= |raw|
        invariant forall k :: 0 <= k < i ==> enc(raw[k]) < SCAN_LIMIT
        invariant files == ProcessedAll(base, raws[..i], vs)
      {
        RawsAt(raw, i);
        var _ := ProcessReceiveLine(raw[i].raw, vs[i], true);
        ProcessedOne(base, raws, i, vs);
        i := i + 1;
      }
      ReadableUpTo(enc, raw, i);
      RawsConcat(raw[..i], raw[i..]);
      assert raw == raw[..i] + raw[i..];
      assert Raws(raw[..i]) == raws[..i];
      files := files.(wal := []);
    }

    method RewriteRecoveryQueue(records: seq<Record>)
      modifies this
      ensures files == old(files).(queue := records)
    {
      files := files.(queue := records);
    }

    method ReplayReceiveRecoveryQueue(vs: seq<Verdict>)
      requires |vs| >= |files.queue|
      modifies this
      ensures files == Replayed(enc, old(files), vs) && files.wal == old(files).wal
      ensures (exists i :: 0 <= i < |old(files).queue| && enc(old(files).queue[i]) >= 2 * 1024 * 1024) ==>
        files.queue == old(files).queue
    {
      hide Readable, Replays, TrimSpace, Kept, Recovered, IsResolved;
      var raw := files.queue;
      NothingReplayed(vs);
      var remaining: seq<Record> := [];
      assert files.resolved + [] == files.resolved;
      var i := 0;
      while i < |raw| && enc(raw[i]) < SCAN_LIMIT
        invariant 0 <= i <= |raw|
        invariant forall k :: 0 <= k < i ==> enc(raw[k]) < SCAN_LIMIT
        invariant remaining == Kept(raw[..i], vs)
        invariant files == old(files).(resolved := old(files).resolved + Recovered(raw[..i], vs))
      {
        ReplayedOne(raw, i, vs);
        var resolved := ProcessReceiveLine(raw[i].raw, vs[i], false);
        if !resolved {
          remaining := remaining + [raw[i]];
        }
        i := i + 1;
      }
      ReadableUpTo(enc, raw, i);
      if i < |raw| {
        return;
      }
      RewriteRecoveryQueue(remaining);
    }
  }

  lemma NothingReplayed(vs: seq<Verdict>)
    ensures Kept([], vs) == [] && Recovered([], vs) == []
  {
  }

  lemma NoLines(ts: int, account: string)
    ensures Lines([]) == [] && Logged(ts, account, []) == []
  {
  }

  lemma {:induction false} ReplayedOne(records: seq<Record>, i: nat, vs: seq<Verdict>)
    requires i < |records| <= |vs|
    ensures var r, line := records[i], TrimSpace(records[i].raw);
      && Replays(r, vs[i]) == IsResolved(line, vs[i])
      && Kept(records[..i + 1], vs) == Kept(records[..i], vs) + (if Replays(r, vs[i]) then [] else [r])
      && Recovered(records[..i + 1], vs)
        == Recovered(records[..i], vs) + (if Replays(r, vs[i]) && line != "" then [line] else [])
  {
    hide TrimSpace;
    assert records[..i + 1][..i] == records[..i];
  }

  // ----- A replay keeps exactly the unresolved records, in order -----

  /** The record's line begins a JSON object, and handling it fails. */
  predicate Fails(r: Record, v: Verdict) {
    IsJson(TrimSpace(r.raw)) && v.Unresolved?
  }

  lemma FailsOrReplays(r: Record, v: Verdict)
    ensures Replays(r, v) <==> !Fails(r, v)
  {
    hide TrimSpace;
  }

  /** How many of the first `n` records fail. */
  function Failing(records: seq<Record>, vs: seq<Verdict>, n: nat): nat
    requires n <= |records| <= |vs|
  {
    if n == 0 then 0 else Failing(records, vs, n - 1) + if Fails(records[n - 1], vs[n - 1]) then 1 else 0
  }

  lemma KeptNext(records: seq<Record>, vs: seq<Verdict>, n: nat)
    requires n < |records| <= |vs|
    ensures Kept(records[..n + 1], vs) == Kept(records[..n], vs) + if Fails(records[n], vs[n]) then [records[n]] else []
  {
    hide Kept, Fails, Replays, TrimSpace;
    ReplayedOne(records, n, vs);
    FailsOrReplays(records[n], vs[n]);
  }

  lemma {:induction false} KeptLength(records: seq<Record>, vs: seq<Verdict>, n: nat)
    requires n <= |records| <= |vs|
    ensures |Kept(records[..n], vs)| == Failing(records, vs, n)
  {
    hide Fails;
    if n > 0 {
      KeptLength(records, vs, n - 1);
      KeptNext(records, vs, n - 1);
    }
  }

  lemma {:induction false} PlaceKept(records: seq<Record>, vs: seq<Verdict>, n: nat, i: nat)
    requires i < n <= |records| <= |vs| && Fails(records[i], vs[i])
    ensures Failing(records, vs, i) < |Kept(records[..n], vs)|
    ensures Kept(records[..n], vs)[Failing(records, vs, i)] == records[i]
  {
    hide Fails, Kept;
    KeptNext(records, vs, n - 1);
    KeptLength(records, vs, n - 1);
    if i < n - 1 {
      PlaceKept(records, vs, n - 1, i);
    }
  }

  /** Main result: the kept list has exactly the failing records, each at the place given by how many
      failing ones came before it. */
  lemma ReplayKeepsUnresolved(records: seq<Record>, vs: seq<Verdict>, i: nat)
    requires i < |records| <= |vs| && IsJson(TrimSpace(records[i].raw)) && vs[i].Unresolved?
    ensures |Kept(records, vs)| == Failing(records, vs, |records|)
    ensures Failing(records, vs, i) < |Kept(records, vs)| && Kept(records, vs)[Failing(records, vs, i)] == records[i]
  {
    hide Kept, Failing, TrimSpace;
    assert records[..|records|] == records;
    KeptLength(records, vs, |records|);
    PlaceKept(records, vs, |records|, i);
  }

  /** The queue is replayed only by a process that is up, and one replay at a time. */
  lemma {:induction false} DownIsQuiet(enc: Encoding, es: seq<Event>)
    ensures Run(enc, es).main.Down? ==> Run(enc, es).replay.Quiet?
    ensures Run(enc, es).replay.Replaying? ==> Step(enc, Run(enc, es), StartReplay) == Run(enc, es)
  {
    hide Step;
    OneReplayAtATime(enc, Run(enc, es));
    if es != [] {
      DownIsQuiet(enc, es[..|es| - 1]);
      StepKeepsQuiet(enc, Run(enc, es[..|es| - 1]), es[|es| - 1]);
    }
  }

  lemma OneReplayAtATime(enc: Encoding, s: State)
    ensures s.replay.Replaying? ==> Step(enc, s, StartReplay) == s
  {
  }

  lemma StepKeepsQuiet(enc: Encoding, s: State, e: Event)
    requires s.main.Down? ==> s.replay.Quiet?
    ensures Step(enc, s, e).main.Down? ==> Step(enc, s, e).replay.Quiet?
  {
    hide Readable, Raws, Lines, Fits, Scanned, IsResolved;
  }

  // ----- What the log and the lines are -----

  /** A scan reads up to the first line of two MiB. */
  lemma {:induction false} ScannedExactly(lines: seq<string>, n: nat)
    requires n <= |lines|
    ensures Scanned(lines) == lines[..n] <==>
      (forall i :: 0 <= i < n ==> |lines[i]| < 2 * 1024 * 1024) && (n == |lines| || |lines[n]| >= 2 * 1024 * 1024)
  {
    if n > 0 {
      ScannedExactly(lines[1..], n - 1);
      assert lines[..n] == [lines[0]] + lines[1..][..n - 1];
      assert forall i :: 1 <= i < |lines| ==> lines[i] == lines[1..][i - 1];
    }
  }

  lemma {:induction false} ReadableExactly(enc: Encoding, records: seq<Record>, n: nat)
    requires n <= |records|
    ensures Readable(enc, records) == records[..n] <==>
      && (forall i :: 0 <= i < n ==> enc(records[i]) < 2 * 1024 * 1024)
      && (n == |records| || enc(records[n]) >= 2 * 1024 * 1024)
  {
    if n > 0 {
      ReadableExactly(enc, records[1..], n - 1);
      assert records[..n] == [records[0]] + records[1..][..n - 1];
      assert forall i :: 1 <= i < |records| ==> records[i] == records[1..][i - 1];
    }
  }

  /** The log's record of each line. */
  lemma {:induction false} LoggedIs(ts: int, account: string, lines: seq<string>, i: nat)
    requires i < |lines|
    ensures Logged(ts, account, lines)[i] == Record(ts, account, "wal", "", lines[i])
  {
    if i < |lines| - 1 {
      LoggedIs(ts, account, lines[..|lines| - 1], i);
    }
  }

  /** How many raw lines are the line, but for surrounding space. */
  function Occurrences(batch: seq<string>, x: string): nat {
    if batch == [] then 0 else
      Occurrences(batch[..|batch| - 1], x) + if TrimSpace(batch[|batch| - 1]) == x then 1 else 0
  }

  /** Nothing but blank lines is left out, and nothing comes up more often than it was received. */
  lemma {:induction false} LinesAreAll(batch: seq<string>, x: string)
    ensures Count(Lines(batch), x) == if x == "" then 0 else Occurrences(batch, x)
  {
    hide TrimSpace, Lines;
    if batch == [] {
      NoLines(0, "");
    } else {
      var init := batch[..|batch| - 1];
      LinesAreAll(init, x);
      assert batch == init + [batch[|batch| - 1]];
      LinesOne(init, batch[|batch| - 1], x);
    }
  }

  /** Lines without surrounding space stay in their order. */
  lemma {:induction false} LinesInOrder(batch: seq<string>)
    requires forall i :: 0 <= i < |batch| ==> batch[i] != "" && Trimmed(batch[i])
    ensures Lines(batch) == batch
  {
    hide TrimSpace, Trimmed;
    if batch != [] {
      LinesInOrder(batch[..|batch| - 1]);
      assert TrimSpace(batch[|batch| - 1]) == batch[|batch| - 1];
    }
  }

  // ----- The methods are runs -----

  function FilesOf(s: State): Files { Files(s.wal, s.queue, s.resolved) }

  predicate PassBegins(s: State, raws: seq<string>) {
    && s.replay.Quiet? && (s.main.Processing? || s.main.Draining?)
    && s.main.n == 0 && s.main.lines == Lines(raws)
  }

  /** Processing the remaining lines of a pass while no replay runs. */
  lemma {:induction false} PassIsARun(enc: Encoding, es: seq<Event>, raws: seq<string>,
        vs: seq<Verdict>) returns (after: seq<Event>)
    requires |vs| >= |raws|
    requires PassBegins(Run(enc, es), raws)
    ensures var s, t := Run(enc, es), Run(enc, after);
      FilesOf(t) == ProcessedAll(FilesOf(s), raws, vs) && t.replay.Quiet? && t.synced == s.synced
      && t.main == Finished(s.main)
  {
    after := PassPrefix(enc, es, raws, |raws|, vs);
    assert raws[..|raws|] == raws;
  }

  function Finished(m: Main): Main {
    match m
    case Processing(lines, n, cut) => Processing(lines, |lines|, cut)
    case Draining(lines, n) => Draining(lines, |lines|)
    case _ => m
  }

  function At(m: Main, n: nat): Main {
    match m
    case Processing(lines, _, cut) => Processing(lines, n, cut)
    case Draining(lines, _) => Draining(lines, n)
    case _ => m
  }

  predicate StandsAt(lines: seq<string>, i: nat, line: string) {
    i < |lines| && lines[i] == line
  }

  lemma LinesPrefix(raws: seq<string>, k: nat)
    requires k < |raws|
    ensures Lines(raws[..k]) <= Lines(raws)
    ensures TrimSpace(raws[k]) == "" ==> Lines(raws[..k + 1]) == Lines(raws[..k])
    ensures TrimSpace(raws[k]) != "" ==> |Lines(raws[..k + 1])| == |Lines(raws[..k])| + 1
    ensures TrimSpace(raws[k]) != "" ==> StandsAt(Lines(raws), |Lines(raws[..k])|, TrimSpace(raws[k]))
  {
    hide TrimSpace;
    assert raws[..k + 1] == raws[..k] + [raws[k]];
    LinesOne(raws[..k], raws[k], "");
    LinesGrow(raws, k);
    LinesGrow(raws, k + 1);
    assert Lines(raws[..k]) + [] == Lines(raws[..k]);
  }

  lemma {:induction false} LinesGrow(raws: seq<string>, k: nat)
    requires k <= |raws|
    ensures Lines(raws[..k]) <= Lines(raws)
    decreases |raws| - k
  {
    hide TrimSpace;
    if k == |raws| {
      assert raws[..k] == raws;
    } else {
      assert raws[..k + 1] == raws[..k] + [raws[k]];
      LinesOne(raws[..k], raws[k], "");
      LinesGrow(raws, k + 1);
    }
  }

  /** `k` of the lines are processed since `s`. */
  predicate Passed(s: State, t: State, raws: seq<string>, k: nat, vs: seq<Verdict>)
    requires k <= |raws| <= |vs|
  {
    && FilesOf(t) == ProcessedAll(FilesOf(s), raws[..k], vs) && t.replay.Quiet? && t.synced == s.synced
    && t.main == At(s.main, |Lines(raws[..k])|)
  }

  lemma PassOne(enc: Encoding, s: State, t: State, raws: seq<string>, k: nat, vs: seq<Verdict>)
    requires k < |raws| <= |vs| && PassBegins(s, raws) && Passed(s, t, raws, k, vs)
    ensures Passed(s, if TrimSpace(raws[k]) == "" then t else Step(enc, t, Process(vs[k])), raws, k + 1, vs)
  {
    hide Lines, Raws, TrimSpace;
    LinesPrefix(raws, k);
    ProcessedOne(FilesOf(s), raws, k, vs);
  }

  lemma {:induction false} PassPrefix(enc: Encoding, es: seq<Event>, raws: seq<string>, k: nat,
        vs: seq<Verdict>) returns (after: seq<Event>)
    requires k <= |raws| <= |vs|
    requires PassBegins(Run(enc, es), raws)
    ensures Passed(Run(enc, es), Run(enc, after), raws, k, vs)
  {
    hide Run, Lines, Raws, TrimSpace, Step, Passed;
    if k == 0 {
      after := es;
      NothingPassed(Run(enc, es), raws, vs);
    } else {
      after := PassPrefix(enc, es, raws, k - 1, vs);
      PassOne(enc, Run(enc, es), Run(enc, after), raws, k - 1, vs);
      if TrimSpace(raws[k - 1]) != "" {
        RunAppends(enc, after, Process(vs[k - 1]));
        after := after + [Process(vs[k - 1])];
      }
    }
  }

  lemma NothingPassed(s: State, raws: seq<string>, vs: seq<Verdict>)
    requires |raws| <= |vs| && PassBegins(s, raws)
    ensures Passed(s, s, raws, 0, vs)
  {
    hide Lines, Raws;
    assert raws[..0] == [] && |Lines([])| == 0 by { NoLines(0, ""); }
  }

  lemma {:induction false} AppendIsARun(enc: Encoding, es: seq<Event>, k: nat) returns (after: seq<Event>)
    requires var s := Run(enc, es); s.main.Appending? && s.main.n == 0 && k <= |s.main.batch|
    requires var s := Run(enc, es); forall i :: 0 <= i < k ==> Fits(s.main.batch[i])
    ensures var s, t := Run(enc, es), Run(enc, after); var a := s.main;
      t == s.(wal := s.wal + Logged(a.ts, a.account, Lines(a.batch[..k])),
        main := Appending(a.ts, a.account, a.batch, k))
  {
    hide Run, Lines, Logged, TrimSpace, Fits;
    var s := Run(enc, es);
    var a := s.main;
    if k == 0 {
      after := es;
      NoLines(a.ts, a.account);
      assert a.batch[..0] == [] && s.wal + [] == s.wal;
    } else {
      after := AppendIsARun(enc, es, k - 1);
      RunAppends(enc, after, Append);
      after := after + [Append];
      assert a.batch[..k] == a.batch[..k - 1] + [a.batch[k - 1]];
      LinesOne(a.batch[..k - 1], a.batch[k - 1], "");
      var line := TrimSpace(a.batch[k - 1]);
      if line == "" {
        assert Lines(a.batch[..k - 1]) + [] == Lines(a.batch[..k - 1]);
        assert s.wal + Logged(a.ts, a.account, Lines(a.batch[..k - 1])) + []
          == s.wal + Logged(a.ts, a.account, Lines(a.batch[..k - 1]));
      } else {
        LoggedOne(a.ts, a.account, Lines(a.batch[..k - 1]), line);
      }
    }
  }

  /** `handleReceiveOutput`, undisturbed, is a run of the steps above. */
  lemma {:induction false} HandleIsARun(enc: Encoding, es: seq<Event>, ts: int, account: string,
        batch: seq<string>, vs: seq<Verdict>) returns (after: seq<Event>)
    requires |vs| >= |batch| && Run(enc, es).main.Idle? && Run(enc, es).replay.Quiet?
    ensures FilesOf(Run(enc, after)) == Handled(FilesOf(Run(enc, es)), ts, account, batch, vs)
    ensures Run(enc, after).main.Idle? && Run(enc, after).replay.Quiet?
  {
    hide Run, Lines, Logged, ProcessedAll, Scanned, Fits;
    var scanned := Scanned(batch);
    ScannedFit(batch);
    RunAppends(enc, es, Receive(ts, account, batch));
    after := es + [Receive(ts, account, batch)];
    after := AppendIsARun(enc, after, |scanned|);
    assert batch[..|scanned|] == scanned;
    if scanned == batch {
      RunAppends(enc, after, Sync);
      after := after + [Sync];
    } else {
      RunAppends(enc, after, Append);
      after := after + [Append];
    }
    after := PassIsARun(enc, after, scanned, vs);
    RunAppends(enc, after, Finish);
    after := after + [Finish];
  }

  lemma {:induction false} ScannedFit(lines: seq<string>)
    ensures forall i :: 0 <= i < |Scanned(lines)| ==> Fits(lines[i])
    ensures |Scanned(lines)| < |lines| ==> !Fits(lines[|Scanned(lines)|])
  {
    if lines != [] && Fits(lines[0]) {
      ScannedFit(lines[1..]);
      forall i | 0 <= i < |Scanned(lines)| ensures Fits(lines[i]) {
        if i > 0 { assert Fits(lines[1..][i - 1]); }
      }
    }
  }

  // ----- Draining and replaying are runs too -----

  predicate Clean(line: string) { line != "" && Trimmed(line) }

  predicate AllClean(records: seq<Record>) {
    forall i :: 0 <= i < |records| ==> Clean(records[i].raw)
  }

  predicate CleanLines(lines: seq<string>) {
    forall i :: 0 <= i < |lines| ==> Clean(lines[i])
  }

  /** The files and whatever is read from them only ever hold non-blank, trimmed lines. */
  predicate CleanState(s: State) {
    && AllClean(s.wal) && AllClean(s.queue)
    && (s.main.Processing? || s.main.Draining? ==> CleanLines(s.main.lines))
    && (s.replay.Replaying? ==> AllClean(s.replay.todo) && AllClean(s.replay.kept))
  }

  lemma {:induction false} LinesClean(batch: seq<string>)
    ensures CleanLines(Lines(batch))
  {
    hide TrimSpace;
    if batch != [] {
      LinesClean(batch[..|batch| - 1]);
    }
  }

  lemma RawsClean(records: seq<Record>)
    requires AllClean(records)
    ensures CleanLines(Raws(records))
  {
    hide Raws, Clean;
    forall i | 0 <= i < |records| ensures Clean(Raws(records)[i]) {
      RawsAt(records, i);
    }
  }

  lemma StepStaysClean(enc: Encoding, s: State, e: Event)
    requires CleanState(s)
    ensures CleanState(Step(enc, s, e))
  {
    hide Raws, Lines, Readable, Scanned, TrimSpace, Trimmed, Fits;
    match e
    case Start => RawsClean(Readable(enc, s.wal));
    case Append => if s.main.Appending? { LinesClean(Scanned(s.main.batch)); }
    case Sync => if s.main.Appending? { LinesClean(s.main.batch); }
    case _ =>
  }

  lemma {:induction false} RunStaysClean(enc: Encoding, es: seq<Event>)
    ensures CleanState(Run(enc, es))
  {
    hide Step;
    if es != [] {
      RunStaysClean(enc, es[..|es| - 1]);
      StepStaysClean(enc, Run(enc, es[..|es| - 1]), es[|es| - 1]);
    }
  }

  lemma {:induction false} CleanLinesStay(lines: seq<string>)
    requires CleanLines(lines)
    ensures Lines(lines) == lines
  {
    hide TrimSpace, Trimmed;
    if lines != [] {
      CleanLinesStay(lines[..|lines| - 1]);
      assert Clean(lines[|lines| - 1]);
    }
  }

  /** `drainReceiveWAL`, undisturbed, is a run. */
  lemma {:induction false} DrainIsARun(enc: Encoding, es: seq<Event>, vs: seq<Verdict>) returns (after: seq<Event>)
    requires (Run(enc, es).main.Down? || Run(enc, es).main.Idle?) && Run(enc, es).replay.Quiet?
    requires |vs| >= |Run(enc, es).wal|
    ensures FilesOf(Run(enc, after)) == Drained(enc, FilesOf(Run(enc, es)), vs)
    ensures Run(enc, after).main.Idle? && Run(enc, after).replay.Quiet?
  {
    hide Run, Lines, Raws, ProcessedAll, Readable;
    var raws := Raws(Readable(enc, Run(enc, es).wal));
    RunStaysClean(enc, es);
    RawsClean(Readable(enc, Run(enc, es).wal));
    CleanLinesStay(raws);
    RunAppends(enc, es, Start);
    after := es + [Start];
    after := PassIsARun(enc, after, raws, vs);
    RunAppends(enc, after, Finish);
    after := after + [Finish];
  }

  lemma Regroup(a: seq<string>, b: seq<string>, x: string)
    ensures (a + b) + [x] == a + (b + [x]) && (a + b) + [] == a + b && b + [] == b
  {
  }

  /** One record of a replay. */
  lemma OneReplay(enc: Encoding, s: State, v: Verdict)
    requires s.replay.Replaying? && s.replay.n < |s.replay.todo| && Clean(s.replay.todo[s.replay.n].raw)
    ensures var r := s.replay; var record := r.todo[r.n];
      && TrimSpace(record.raw) == record.raw && record.raw != ""
      && Step(enc, s, ReplayOne(v)) == s.(resolved := s.resolved + (if Replays(record, v) then [record.raw] else []),
           replay := Replaying(r.todo, r.n + 1, r.kept + (if Replays(record, v) then [] else [record]), r.cut))
  {
    hide TrimSpace;
    assert s.resolved + [] == s.resolved && s.replay.kept + [] == s.replay.kept;
  }

  lemma {:induction false} ReplayPrefix(enc: Encoding, es: seq<Event>, k: nat,
        vs: seq<Verdict>) returns (after: seq<Event>)
    requires Run(enc, es).replay.Replaying? && Run(enc, es).replay.n == 0 && Run(enc, es).replay.kept == []
    requires k <= |Run(enc, es).replay.todo| <= |vs|
    ensures var s, t := Run(enc, es), Run(enc, after); var r := s.replay;
      t == s.(resolved := s.resolved + Recovered(r.todo[..k], vs),
        replay := Replaying(r.todo, k, Kept(r.todo[..k], vs), r.cut))
  {
    hide Run, TrimSpace, Trimmed, Step, Replays;
    var s := Run(enc, es);
    if k == 0 {
      after := es;
      assert s.resolved + [] == s.resolved;
    } else {
      after := ReplayPrefix(enc, es, k - 1, vs);
      ReplayedOne(s.replay.todo, k - 1, vs);
      RunStaysClean(enc, es);
      OneReplay(enc, Run(enc, after), vs[k - 1]);
      var resolved, kept := Recovered(s.replay.todo[..k - 1], vs), Kept(s.replay.todo[..k - 1], vs);
      Regroup(s.resolved, resolved, s.replay.todo[k - 1].raw);
      assert kept + [] == kept;
      RunAppends(enc, after, ReplayOne(vs[k - 1]));
      after := after + [ReplayOne(vs[k - 1])];
    }
  }

  /** `replayReceiveRecoveryQueue` is a run, whatever the receive loop is doing meanwhile. */
  lemma {:induction false} ReplayIsARun(enc: Encoding, es: seq<Event>, vs: seq<Verdict>) returns (after: seq<Event>)
    requires !Run(enc, es).main.Down? && Run(enc, es).replay.Quiet? && |vs| >= |Run(enc, es).queue|
    ensures FilesOf(Run(enc, after)) == Replayed(enc, FilesOf(Run(enc, es)), vs)
    ensures Run(enc, after).main == Run(enc, es).main && Run(enc, after).replay.Quiet?
  {
    hide Run, Readable, Kept, Recovered;
    RunAppends(enc, es, StartReplay);
    after := es + [StartReplay];
    var todo := Run(enc, after).replay.todo;
    after := ReplayPrefix(enc, after, |todo|, vs);
    assert todo[..|todo|] == todo;
    RunAppends(enc, after, FinishReplay);
    after := after + [FinishReplay];
  }
}
