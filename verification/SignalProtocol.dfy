/** The log and the store together: received lines are handled one by one while the log holds them,
    the process may die between any two steps and between the two writes of a line, and the next
    start drains the log. The runs of this machine are the interruptions of `SignalCrashes`. */
module SignalProtocol {
  import Log = ReceiveLog
  import opened Records
  import opened SignalStore
  import opened SignalBatch
  import opened SignalReplay
  import opened SignalNames
  import opened SignalCrashes

  type Parser = string -> Line

  datatype World = World(log: Log.State, store: State)

  /** The log's steps. A line that fails goes to the queue as the given record. `CrashInside`: the
      process dies after the first write of the line in progress. */
  datatype Event =
    | Start
    | Receive(ts: int, account: string, batch: seq<string>)
    | Append
    | Sync
    | Process(failed: Log.Record)
    | Finish
    | StartReplay
    | ReplayOne(failed: Log.Record)
    | FinishReplay
    | Crash
    | CrashInside

  /** The line in progress. */
  function Current(log: Log.State): Option<string> {
    match log.main
    case Processing(lines, n, _) => if n < |lines| then Some(lines[n]) else None
    case Draining(lines, n) => if n < |lines| then Some(lines[n]) else None
    case _ => None
  }

  function Replayed(log: Log.State): Option<string> {
    if log.replay.Replaying? && log.replay.n < |log.replay.todo| then Some(log.replay.todo[log.replay.n].raw) else None
  }

  /** What handling the line comes to. */
  function HandledLine(h: Hashes, account: string, parse: Parser, store: State, line: Option<string>,
    replay: bool): Result {
    if line.None? then Result(store, Done) else Handled(h, account, store, parse(line.value), replay)
  }

  function Verdict(r: Result, failed: Log.Record): Log.Verdict {
    if r.outcome == Done then Log.Resolved else Log.Unresolved(failed)
  }

  function Step(enc: Log.Encoding, h: Hashes, account: string, parse: Parser, w: World, e: Event): World {
    match e
    case Start => w.(log := Log.Step(enc, w.log, Log.Start))
    case Receive(ts, acct, batch) => w.(log := Log.Step(enc, w.log, Log.Receive(ts, acct, batch)))
    case Append => w.(log := Log.Step(enc, w.log, Log.Append))
    case Sync => w.(log := Log.Step(enc, w.log, Log.Sync))
    case Process(failed) =>
      var r := HandledLine(h, account, parse, w.store, Current(w.log), false);
      var log := Log.Step(enc, w.log, Log.Process(Verdict(r, failed)));
      World(log, if log == w.log then w.store else r.state)
    case Finish => w.(log := Log.Step(enc, w.log, Log.Finish))
    case StartReplay => w.(log := Log.Step(enc, w.log, Log.StartReplay))
    case ReplayOne(failed) =>
      var r := HandledLine(h, account, parse, w.store, Replayed(w.log), true);
      World(Log.Step(enc, w.log, Log.ReplayOne(Verdict(r, failed))), r.state)
    case FinishReplay => w.(log := Log.Step(enc, w.log, Log.FinishReplay))
    case Crash => w.(log := Log.Step(enc, w.log, Log.Crash))
    case CrashInside =>
      World(Log.Step(enc, w.log, Log.Crash),
            if Current(w.log).None? then w.store else FirstWrite(h, account, w.store, parse(Current(w.log).value)))
  }

  function After(enc: Log.Encoding, h: Hashes, account: string, parse: Parser, w: World, es: seq<Event>): World {
    if es == [] then w else Step(enc, h, account, parse, After(enc, h, account, parse, w, es[..|es| - 1]), es[|es| - 1])
  }

  function Parsed(parse: Parser, raws: seq<string>): (ls: seq<Line>)
    ensures |ls| == |raws|
  {
    seq(|raws|, i requires 0 <= i < |raws| => parse(raws[i]))
  }

  predicate NoReceive(es: seq<Event>) {
    forall i :: 0 <= i < |es| ==> !es[i].Receive?
  }

  predicate NoneInside(es: seq<Event>) {
    forall i :: 0 <= i < |es| ==> !es[i].CrashInside?
  }

  /** The batch is in the synced log, and none of it is handled. */
  predicate JustSynced(enc: Log.Encoding, w: World, raws: seq<string>) {
    && w.log.main == Log.Processing(raws, 0, false) && w.log.replay == Log.Quiet && w.log.queue == []
    && Log.Raws(w.log.wal) == raws && Log.LogReads(enc, w.log)
  }

  // ----- The state that crash points leave -----

  function Left(h: Hashes, account: string, s: State, ls: seq<Line>, ps: seq<Point>): State
    requires ArePoints(ls, ps)
  {
    if ps == [] then s else Stopped(h, account, Left(h, account, s, ls, ps[..|ps| - 1]), ls, ps[|ps| - 1])
  }

  lemma {:induction false} LeftRest(h: Hashes, account: string, s: State, ls: seq<Line>, ps: seq<Point>)
    requires ArePoints(ls, ps) && ps != []
    ensures Left(h, account, s, ls, ps) == Left(h, account, Stopped(h, account, s, ls, ps[0]), ls, ps[1..])
    decreases |ps|
  {
    hide Stopped, IsPoint;
    var x := Stopped(h, account, s, ls, ps[0]);
    if |ps| == 1 {
      assert ps[..0] == [] && ps[1..] == [];
    } else {
      var init := ps[..|ps| - 1];
      LeftRest(h, account, s, ls, init);
      assert init[1..] == ps[1..][..|ps[1..]| - 1];
    }
  }

  lemma {:induction false} InterruptionsAreLeft(h: Hashes, account: string, s: State, ls: seq<Line>, ps: seq<Point>)
    requires ArePoints(ls, ps)
    ensures Interruptions(h, account, s, ls, ps) == Run(h, account, Left(h, account, s, ls, ps), ls)
    decreases |ps|
  {
    hide Run, Stopped, IsPoint;
    if ps != [] {
      LeftRest(h, account, s, ls, ps);
      InterruptionsAreLeft(h, account, Stopped(h, account, s, ls, ps[0]), ls, ps[1..]);
    }
  }

  lemma {:induction false} LeftBatch(h: Hashes, account: string, s: State, ls: seq<Line>, ps: seq<Point>)
    requires ArePoints(ls, ps) && Batch(h, account, s.rows, ls)
    ensures Batch(h, account, Left(h, account, s, ls, ps).rows, ls)
  {
    hide Batch, Stopped, IsPoint, KeysAt;
    if ps != [] {
      LeftBatch(h, account, s, ls, ps[..|ps| - 1]);
      StoppedAgain(h, account, Left(h, account, s, ls, ps[..|ps| - 1]), ls, ps[|ps| - 1]);
    }
  }

  /** In a batch no line fails. */
  lemma {:induction false} NoLineFails(h: Hashes, account: string, x: State, ls: seq<Line>, n: nat)
    requires Batch(h, account, x.rows, ls) && n < |ls|
    ensures Handled(h, account, Run(h, account, x, ls[..n]), ls[n], false)
      == Result(Run(h, account, x, ls[..n + 1]), Done)
  {
    hide Batch, Ready, Effects, Handled, EndPlaces;
    PassFirst(h, account, x, ls, n + 1);
    assert ls[..n + 1][..n] == ls[..n];
    PassIsEffects(h, account, EndPlaces(h, account, x.rows, ls), x, ls[..n + 1]);
  }

  // ----- Runs are interruptions -----

  /** No queue, and a replay of it is idle. */
  predicate QuietQueue(log: Log.State) {
    log.queue == [] && (log.replay == Log.Quiet || log.replay == Log.Replaying([], 0, [], false))
  }

  /** How many lines of the pass are handled. */
  function Position(log: Log.State): nat {
    match log.main
    case Processing(_, n, _) => n
    case Draining(_, n) => n
    case _ => 0
  }

  predicate InPass(log: Log.State, raws: seq<string>) {
    && Position(log) <= |raws|
    && (log.main == Log.Processing(raws, Position(log), false) || log.main == Log.Draining(raws, Position(log)))
  }

  predicate Over(log: Log.State) {
    log.wal == [] && (log.main.Down? || log.main.Idle? || log.main == Log.Draining([], 0))
  }

  /** `n` lines into a pass that began with the store `x`. */
  predicate At(h: Hashes, account: string, parse: Parser, raws: seq<string>, wal: seq<Log.Record>, x: State, w: World,
    n: nat) {
    && QuietQueue(w.log) && w.log.wal == wal && InPass(w.log, raws) && Position(w.log) == n
    && w.store == Run(h, account, x, Parsed(parse, raws)[..n])
  }

  predicate IsDown(wal: seq<Log.Record>, x: State, w: World) {
    QuietQueue(w.log) && w.log.wal == wal && w.log.main.Down? && w.store == x
  }

  predicate IsOver(h: Hashes, account: string, parse: Parser, raws: seq<string>, x: State, w: World) {
    QuietQueue(w.log) && Over(w.log) && w.store == Run(h, account, x, Parsed(parse, raws))
  }

  /** Where a run of the batch can stand: in a pass from the store `x`, down with the log whole, or
      over. */
  predicate Stands(h: Hashes, account: string, parse: Parser, raws: seq<string>, wal: seq<Log.Record>, x: State,
    w: World) {
    || At(h, account, parse, raws, wal, x, w, Position(w.log))
    || IsDown(wal, x, w)
    || IsOver(h, account, parse, raws, x, w)
  }

  /** The batch's log. */
  predicate IsLog(enc: Log.Encoding, wal: seq<Log.Record>, raws: seq<string>) {
    Log.Raws(wal) == raws && Log.Readable(enc, wal) == wal
  }

  /** What a crash in `w` adds to the crash points. */
  function PointsOf(w: World, raws: seq<string>, inside: bool): seq<Point> {
    if !InPass(w.log, raws) then []
    else if inside && Position(w.log) < |raws| then [Inside(Position(w.log))]
    else [Between(Position(w.log))]
  }

  lemma {:induction false} ProcessAt(enc: Log.Encoding, h: Hashes, account: string, parse: Parser, raws: seq<string>,
        wal: seq<Log.Record>, x: State, w: World, failed: Log.Record, n: nat)
    requires Batch(h, account, x.rows, Parsed(parse, raws)) && At(h, account, parse, raws, wal, x, w, n) && n < |raws|
    ensures At(h, account, parse, raws, wal, x, Step(enc, h, account, parse, w, Process(failed)), n + 1)
  {
    hide Batch, Run, Handled;
    NoLineFails(h, account, x, Parsed(parse, raws), n);
  }

  lemma {:induction false} ProcessStands(enc: Log.Encoding, h: Hashes, account: string, parse: Parser,
    raws: seq<string>,
        wal: seq<Log.Record>, x: State, w: World, failed: Log.Record)
    requires Batch(h, account, x.rows, Parsed(parse, raws)) && Stands(h, account, parse, raws, wal, x, w)
    ensures Stands(h, account, parse, raws, wal, x, Step(enc, h, account, parse, w, Process(failed)))
  {
    hide Batch, Run, Handled;
    if At(h, account, parse, raws, wal, x, w, Position(w.log)) && Position(w.log) < |raws| {
      ProcessAt(enc, h, account, parse, raws, wal, x, w, failed, Position(w.log));
    }
  }

  /** Any other step but a crash. */
  predicate IsOther(e: Event) { !e.Receive? && !e.Process? && !e.Crash? && !e.CrashInside? }

  lemma {:induction false} OtherAt(enc: Log.Encoding, h: Hashes, account: string, parse: Parser, raws: seq<string>,
        wal: seq<Log.Record>, x: State, w: World, n: nat, e: Event)
    requires At(h, account, parse, raws, wal, x, w, n) && IsLog(enc, wal, raws) && IsOther(e)
    ensures Stands(h, account, parse, raws, wal, x, Step(enc, h, account, parse, w, e))
  {
    hide Run, Handled, Log.Raws;
    assert Parsed(parse, raws)[..|raws|] == Parsed(parse, raws);
  }

  lemma {:induction false} OtherDown(enc: Log.Encoding, h: Hashes, account: string, parse: Parser, raws: seq<string>,
        wal: seq<Log.Record>, x: State, w: World, e: Event)
    requires IsDown(wal, x, w) && IsLog(enc, wal, raws) && IsOther(e)
    ensures Stands(h, account, parse, raws, wal, x, Step(enc, h, account, parse, w, e))
  {
    hide Run, Handled, Log.Raws;
    NoLinesRun(h, account, x, Parsed(parse, raws));
  }

  lemma {:induction false} OtherOver(enc: Log.Encoding, h: Hashes, account: string, parse: Parser, raws: seq<string>,
        x: State, w: World, e: Event)
    requires IsOver(h, account, parse, raws, x, w) && IsOther(e)
    ensures IsOver(h, account, parse, raws, x, Step(enc, h, account, parse, w, e))
  {
    hide Run, Handled, Parsed;
  }

  lemma {:induction false} OtherStands(enc: Log.Encoding, h: Hashes, account: string, parse: Parser, raws: seq<string>,
        wal: seq<Log.Record>, x: State, w: World, e: Event)
    requires Stands(h, account, parse, raws, wal, x, w) && IsLog(enc, wal, raws) && IsOther(e)
    ensures Stands(h, account, parse, raws, wal, x, Step(enc, h, account, parse, w, e))
  {
    hide Run, Step, At, IsDown, IsOver, IsLog, IsOther;
    if At(h, account, parse, raws, wal, x, w, Position(w.log)) {
      OtherAt(enc, h, account, parse, raws, wal, x, w, Position(w.log), e);
    } else if IsDown(wal, x, w) {
      OtherDown(enc, h, account, parse, raws, wal, x, w, e);
    } else {
      OtherOver(enc, h, account, parse, raws, x, w, e);
    }
  }

  lemma NoLinesRun(h: Hashes, account: string, s: State, ls: seq<Line>)
    ensures Run(h, account, s, ls[..0]) == s
  {
  }

  function CrashAs(inside: bool): Event { if inside then CrashInside else Crash }

  /** A crash in a pass. */
  lemma {:induction false} CrashAt(enc: Log.Encoding, h: Hashes, account: string, parse: Parser, raws: seq<string>,
        wal: seq<Log.Record>, x: State, w: World, n: nat, inside: bool)
    requires At(h, account, parse, raws, wal, x, w, n)
    ensures var ls := Parsed(parse, raws); var p := if inside && n < |raws| then Inside(n) else Between(n);
      && PointsOf(w, raws, inside) == [p] && IsPoint(ls, p)
      && IsDown(wal, Stopped(h, account, x, ls, p), Step(enc, h, account, parse, w, CrashAs(inside)))
  {
    hide Run, FirstWrite;
  }

  lemma {:induction false} CrashElsewhere(enc: Log.Encoding, h: Hashes, account: string, parse: Parser,
    raws: seq<string>,
        wal: seq<Log.Record>, x: State, w: World, inside: bool)
    requires IsLog(enc, wal, raws) && Stands(h, account, parse, raws, wal, x, w)
    requires !At(h, account, parse, raws, wal, x, w, Position(w.log))
    ensures PointsOf(w, raws, inside) == []
    ensures Stands(h, account, parse, raws, wal, x, Step(enc, h, account, parse, w, CrashAs(inside)))
  {
    hide Run, FirstWrite;
    NoLinesRun(h, account, x, Parsed(parse, raws));
    assert raws == [] ==> Parsed(parse, raws)[..0] == Parsed(parse, raws);
  }

  /** A crash adds its point, if it comes in a pass. */
  lemma {:induction false} CrashStands(enc: Log.Encoding, h: Hashes, account: string, parse: Parser, raws: seq<string>,
        wal: seq<Log.Record>, s: State, ps: seq<Point>, w: World, inside: bool)
    requires ArePoints(Parsed(parse, raws), ps) && IsLog(enc, wal, raws)
    requires Stands(h, account, parse, raws, wal, Left(h, account, s, Parsed(parse, raws), ps), w)
    ensures var ls := Parsed(parse, raws); var qs := ps + PointsOf(w, raws, inside);
      && ArePoints(ls, qs)
      && Stands(h, account, parse, raws, wal, Left(h, account, s, ls, qs),
        Step(enc, h, account, parse, w, CrashAs(inside)))
  {
    hide Run, Stopped, At, IsDown, IsOver, Step, PointsOf, Parsed, IsPoint, IsLog;
    var ls := Parsed(parse, raws);
    var x := Left(h, account, s, ls, ps);
    if At(h, account, parse, raws, wal, x, w, Position(w.log)) {
      CrashAt(enc, h, account, parse, raws, wal, x, w, Position(w.log), inside);
      assert (ps + PointsOf(w, raws, inside))[..|ps|] == ps;
    } else {
      CrashElsewhere(enc, h, account, parse, raws, wal, x, w, inside);
      assert ps + [] == ps;
    }
  }

  /** Every run over the batch is one of `SignalCrashes`, with a point for each crash in a pass. */
  lemma {:induction false} RunStands(enc: Log.Encoding, h: Hashes, account: string, parse: Parser, raws: seq<string>,
        w: World, es: seq<Event>) returns (ps: seq<Point>)
    requires JustSynced(enc, w, raws) && Batch(h, account, w.store.rows, Parsed(parse, raws)) && NoReceive(es)
    ensures var ls := Parsed(parse, raws);
      && ArePoints(ls, ps)
      && Stands(h, account, parse, raws, w.log.wal, Left(h, account, w.store, ls, ps),
        After(enc, h, account, parse, w, es))
    ensures NoneInside(es) ==> WholeLines(ps)
  {
    hide Batch, Run, Step, Stands, Left, Parsed;
    var ls := Parsed(parse, raws);
    if es == [] {
      ps := [];
      SyncedIsAt(enc, h, account, parse, w, raws);
    } else {
      var init, e := es[..|es| - 1], es[|es| - 1];
      assert forall i :: 0 <= i < |init| ==> init[i] == es[i];
      ps := RunStands(enc, h, account, parse, raws, w, init);
      var x, mid := Left(h, account, w.store, ls, ps), After(enc, h, account, parse, w, init);
      LeftBatch(h, account, w.store, ls, ps);
      if e.Process? {
        ProcessStands(enc, h, account, parse, raws, w.log.wal, x, mid, e.failed);
      } else if e.Crash? || e.CrashInside? {
        CrashStands(enc, h, account, parse, raws, w.log.wal, w.store, ps, mid, e.CrashInside?);
        ps := ps + PointsOf(mid, raws, e.CrashInside?);
      } else {
        OtherStands(enc, h, account, parse, raws, w.log.wal, x, mid, e);
      }
    }
  }

  lemma SyncedIsAt(enc: Log.Encoding, h: Hashes, account: string, parse: Parser, w: World, raws: seq<string>)
    requires JustSynced(enc, w, raws)
    ensures IsLog(enc, w.log.wal, raws)
    ensures At(h, account, parse, raws, w.log.wal, w.store, w, 0)
    ensures Left(h, account, w.store, Parsed(parse, raws), []) == w.store
    ensures Stands(h, account, parse, raws, w.log.wal, w.store, w)
  {
    NoLinesRun(h, account, w.store, Parsed(parse, raws));
  }

  /** With the log dropped, the store is that of the interrupted batch. */
  lemma DroppedIsOver(enc: Log.Encoding, h: Hashes, account: string, parse: Parser, raws: seq<string>,
        wal: seq<Log.Record>, x: State, w: World)
    requires Stands(h, account, parse, raws, wal, x, w) && IsLog(enc, wal, raws) && w.log.wal == []
    ensures w.store == Run(h, account, x, Parsed(parse, raws))
  {
    hide Run;
    NoLinesRun(h, account, x, Parsed(parse, raws));
    if raws == [] {
      assert Parsed(parse, raws)[..0] == Parsed(parse, raws);
    }
  }

  // ----- Interruptions are runs -----

  lemma {:induction false} AfterConcat(enc: Log.Encoding, h: Hashes, account: string, parse: Parser, w: World,
        a: seq<Event>, b: seq<Event>)
    ensures After(enc, h, account, parse, w, a + b)
      == After(enc, h, account, parse, After(enc, h, account, parse, w, a), b)
  {
    hide Step;
    if b == [] {
      assert a + b == a;
    } else {
      AfterConcat(enc, h, account, parse, w, a, b[..|b| - 1]);
      assert (a + b)[..|a + b| - 1] == a + b[..|b| - 1];
    }
  }

  lemma AfterOne(enc: Log.Encoding, h: Hashes, account: string, parse: Parser, w: World, es: seq<Event>, e: Event)
    ensures After(enc, h, account, parse, w, es + [e])
      == Step(enc, h, account, parse, After(enc, h, account, parse, w, es), e)
  {
    hide Step;
    assert (es + [e])[..|es|] == es;
  }

  predicate Plainly(es: seq<Event>, whole: bool) {
    NoReceive(es) && (whole ==> NoneInside(es))
  }

  /** The first `n` lines of a pass. */
  lemma {:induction false} PassTo(enc: Log.Encoding, h: Hashes, account: string, parse: Parser, raws: seq<string>,
        wal: seq<Log.Record>, x: State, w: World, n: nat) returns (es: seq<Event>)
    requires Batch(h, account, x.rows, Parsed(parse, raws)) && At(h, account, parse, raws, wal, x, w, 0) && n <= |raws|
    ensures At(h, account, parse, raws, wal, x, After(enc, h, account, parse, w, es), n) && Plainly(es, true)
  {
    hide Batch, At, Step;
    if n == 0 {
      es := [];
    } else {
      var failed := Log.Record(0, "", "", "", "");
      var init := PassTo(enc, h, account, parse, raws, wal, x, w, n - 1);
      es := init + [Process(failed)];
      AfterOne(enc, h, account, parse, w, init, Process(failed));
      ProcessAt(enc, h, account, parse, raws, wal, x, After(enc, h, account, parse, w, init), failed, n - 1);
    }
  }

  lemma {:induction false} StartAt(enc: Log.Encoding, h: Hashes, account: string, parse: Parser, raws: seq<string>,
        wal: seq<Log.Record>, x: State, w: World)
    requires IsLog(enc, wal, raws) && IsDown(wal, x, w)
    ensures At(h, account, parse, raws, wal, x, Step(enc, h, account, parse, w, Start), 0)
  {
    hide Run;
    NoLinesRun(h, account, x, Parsed(parse, raws));
  }

  lemma {:induction false} FinishAt(enc: Log.Encoding, h: Hashes, account: string, parse: Parser, raws: seq<string>,
        wal: seq<Log.Record>, x: State, w: World)
    requires At(h, account, parse, raws, wal, x, w, |raws|)
    ensures var t := Step(enc, h, account, parse, w, Finish);
      t.log.wal == [] && t.store == Run(h, account, x, Parsed(parse, raws))
  {
    hide Run;
    assert Parsed(parse, raws)[..|raws|] == Parsed(parse, raws);
  }

  /** Any list of crash points is that of a run, which ends with the log dropped. */
  lemma {:induction false} PointsAreARun(enc: Log.Encoding, h: Hashes, account: string, parse: Parser,
    raws: seq<string>,
        wal: seq<Log.Record>, x: State, w: World, ps: seq<Point>) returns (es: seq<Event>)
    requires Batch(h, account, x.rows, Parsed(parse, raws)) && At(h, account, parse, raws, wal, x, w, 0)
    requires IsLog(enc, wal, raws) && ArePoints(Parsed(parse, raws), ps)
    ensures Plainly(es, WholeLines(ps)) && After(enc, h, account, parse, w, es).log.wal == []
    ensures After(enc, h, account, parse, w, es).store == Interruptions(h, account, x, Parsed(parse, raws), ps)
    decreases |ps|
  {
    hide Batch, At, IsDown, Step, Run, Stopped, KeysAt, Parsed, PointsOf;
    var ls := Parsed(parse, raws);
    if ps == [] {
      var pass := PassTo(enc, h, account, parse, raws, wal, x, w, |raws|);
      es := pass + [Finish];
      AfterOne(enc, h, account, parse, w, pass, Finish);
      FinishAt(enc, h, account, parse, raws, wal, x, After(enc, h, account, parse, w, pass));
    } else {
      var p := ps[0];
      var crash := CrashAs(p.Inside?);
      var pass := PassTo(enc, h, account, parse, raws, wal, x, w, p.lines);
      AfterOne(enc, h, account, parse, w, pass, crash);
      AfterOne(enc, h, account, parse, w, pass + [crash], Start);
      CrashAt(enc, h, account, parse, raws, wal, x, After(enc, h, account, parse, w, pass), p.lines, p.Inside?);
      StartAt(enc, h, account, parse, raws, wal, Stopped(h, account, x, ls, p),
        After(enc, h, account, parse, w, pass + [crash]));
      StoppedAgain(h, account, x, ls, p);
      var again := pass + [crash] + [Start];
      var rest := PointsAreARun(enc, h, account, parse, raws, wal, Stopped(h, account, x, ls, p),
        After(enc, h, account, parse, w, again), ps[1..]);
      AfterConcat(enc, h, account, parse, w, again, rest);
      es := again + rest;
    }
  }

  // ----- How a batch comes to be synced -----

  /** Polling, with nothing logged and nothing queued. */
  predicate IsPolling(w: World) {
    w.log.main.Idle? && w.log.replay == Log.Quiet && w.log.wal == [] && w.log.queue == []
  }

  predicate IsAppending(w: World, ts: int, acct: string, batch: seq<string>, n: nat) {
    && n <= |batch| && w.log.main == Log.Appending(ts, acct, batch, n) && w.log.replay == Log.Quiet && w.log.queue == []
    && w.log.wal == Log.Logged(ts, acct, Log.Lines(batch[..n]))
  }

  lemma {:induction false} AppendsOne(enc: Log.Encoding, h: Hashes, account: string, parse: Parser, w: World, ts: int,
        acct: string, batch: seq<string>, n: nat)
    requires IsAppending(w, ts, acct, batch, n) && n < |batch| && Log.Fits(batch[n])
    ensures var t := Step(enc, h, account, parse, w, Append);
      IsAppending(t, ts, acct, batch, n + 1) && t.store == w.store
  {
    hide Log.Fits, Log.Lines, Log.Logged, Log.AppendStep;
    Log.AppendLogs(w.log);
  }

  lemma {:induction false} AppendsTo(enc: Log.Encoding, h: Hashes, account: string, parse: Parser, w: World, ts: int,
        acct: string, batch: seq<string>, n: nat) returns (es: seq<Event>)
    requires IsPolling(w) && n <= |batch| && forall i :: 0 <= i < n ==> Log.Fits(batch[i])
    ensures var t := After(enc, h, account, parse, w, es); IsAppending(t, ts, acct, batch, n) && t.store == w.store
  {
    hide Log.Fits, After, IsAppending, Step;
    if n == 0 {
      es := [] + [Receive(ts, acct, batch)];
      AfterOne(enc, h, account, parse, w, [], Receive(ts, acct, batch));
      ReceiveAppends(enc, h, account, parse, w, ts, acct, batch);
    } else {
      var init := AppendsTo(enc, h, account, parse, w, ts, acct, batch, n - 1);
      AfterOne(enc, h, account, parse, w, init, Append);
      es := init + [Append];
      AppendsOne(enc, h, account, parse, After(enc, h, account, parse, w, init), ts, acct, batch, n - 1);
    }
  }

  lemma ReceiveAppends(enc: Log.Encoding, h: Hashes, account: string, parse: Parser, w: World, ts: int, acct: string,
        batch: seq<string>)
    requires IsPolling(w)
    ensures var t := Step(enc, h, account, parse, After(enc, h, account, parse, w, []), Receive(ts, acct, batch));
      IsAppending(t, ts, acct, batch, 0) && t.store == w.store
  {
    assert batch[..0] == [];
  }

  /** A received batch whose lines the scanner accepts, also as records, comes to be just synced, its
      blank lines dropped and the others trimmed. */
  lemma {:induction false} ReceivedIsSynced(enc: Log.Encoding, h: Hashes, account: string, parse: Parser, w: World,
        ts: int, acct: string, batch: seq<string>) returns (es: seq<Event>)
    requires IsPolling(w) && forall i :: 0 <= i < |batch| ==> Log.Fits(batch[i])
    requires var records := Log.Logged(ts, acct, Log.Lines(batch)); Log.Readable(enc, records) == records
    ensures var t := After(enc, h, account, parse, w, es);
      JustSynced(enc, t, Log.Lines(batch)) && t.store == w.store
  {
    hide Log.Fits, After, Log.Lines, Log.Logged;
    var init := AppendsTo(enc, h, account, parse, w, ts, acct, batch, |batch|);
    AfterOne(enc, h, account, parse, w, init, Sync);
    es := init + [Sync];
    assert batch[..|batch|] == batch;
    Log.LoggedRaws(ts, acct, Log.Lines(batch));
  }

  // ----- The result -----

  /** The same conversation, with no fewer unread. */
  predicate SameButUnreadIn(a: Conversations, b: Conversations, c: string) {
    && (c in a <==> c in b)
    && (c in a ==> a[c].unread <= b[c].unread && b[c] == a[c].(unread := b[c].unread))
  }

  ghost predicate SameButCounts(t: State, u: State) {
    t.rows == u.rows && forall c :: SameButUnreadIn(u.convs, t.convs, c)
  }

  lemma RaisedIsSame(a: Conversations, b: Conversations, c: string, more: nat)
    requires Raised(a, b, c, more)
    ensures SameButUnreadIn(a, b, c)
  {
  }

  ghost predicate SafeRuns(enc: Log.Encoding, h: Hashes, account: string, parse: Parser, w: World, u: State) {
    forall es :: NoReceive(es) && After(enc, h, account, parse, w, es).log.wal == [] ==>
      SameButCounts(After(enc, h, account, parse, w, es).store, u)
  }

  ghost predicate SameRuns(enc: Log.Encoding, h: Hashes, account: string, parse: Parser, w: World, u: State) {
    forall es :: NoReceive(es) && NoneInside(es) && After(enc, h, account, parse, w, es).log.wal == [] ==>
      After(enc, h, account, parse, w, es).store == u
  }

  /** Main result: from a batch that is just synced, every run of the protocol that comes to drop the
      log leaves the store of the batch handled once, but for unread counts, and its very store when
      no crash falls between a line's writes, exactly when the titles settle. */
  lemma {:induction false} ProtocolIsSafeExactly(enc: Log.Encoding, h: Hashes, account: string, parse: Parser, w: World,
        raws: seq<string>)
    requires JustSynced(enc, w, raws) && Batch(h, account, w.store.rows, Parsed(parse, raws))
    ensures var u := Run(h, account, w.store, Parsed(parse, raws));
      && (SafeRuns(enc, h, account, parse, w, u) <==> SettledFrom(h, account, w.store, Parsed(parse, raws)))
      && (SameRuns(enc, h, account, parse, w, u) <==> SettledFrom(h, account, w.store, Parsed(parse, raws)))
  {
    hide Batch, Run, After, JustSynced, SettledFrom, Interruptions, Parsed, IsPoint, Extra, Raised, SameButUnreadIn;
    var ls := Parsed(parse, raws);
    var u := Run(h, account, w.store, ls);
    ReplayIsSafeExactly(h, account, w.store, ls);
    if SettledFrom(h, account, w.store, ls) {
      forall es | NoReceive(es) && After(enc, h, account, parse, w, es).log.wal == []
        ensures SameButCounts(After(enc, h, account, parse, w, es).store, u)
        ensures NoneInside(es) ==> After(enc, h, account, parse, w, es).store == u
      {
        var ps := DroppedRun(enc, h, account, parse, raws, w, es);
        CrashesReplay(h, account, w.store, ls, ps);
        var t := After(enc, h, account, parse, w, es).store;
        forall c ensures SameButUnreadIn(u.convs, t.convs, c) {
          RaisedIsSame(u.convs, t.convs, c, Extra(h, account, w.store.rows.Keys, ls, ps, c));
        }
      }
    } else {
      var ps := SomeDifference(h, account, w.store, ls);
      SyncedIsAt(enc, h, account, parse, w, raws);
      var es := PointsAreARun(enc, h, account, parse, raws, w.log.wal, w.store, w, ps);
      assert !SameButCounts(After(enc, h, account, parse, w, es).store, u);
    }
  }

  /** Where the titles do not settle, a crash after a whole line changes a row. */
  lemma {:induction false} SomeDifference(h: Hashes, account: string, s: State, ls: seq<Line>) returns (ps: seq<Point>)
    requires Batch(h, account, s.rows, ls) && !SettledFrom(h, account, s, ls)
    ensures ArePoints(ls, ps) && WholeLines(ps)
    ensures Interruptions(h, account, s, ls, ps).rows != Run(h, account, s, ls).rows
  {
    hide Batch, Run, Interruptions, TitleIntrudes, SenderRun, LastTitle, Ignored, DataId, LastIndex, ConversationId;
    var j :| 0 <= j < |ls| && !SettledAt(h, account, s, ls, j);
    var c := ConversationId(ls[j].o);
    var m :| 0 <= m <= |ls| && TitleIntrudes(account, ls, j, m, c)
      && LastTitle(account, ls[..m], c) != SenderRun(h, account, s, ls, c, DataId(h, ls[j]));
    UnsettledDiffers(h, account, s, ls, j, m);
    ps := [Between(m)];
  }

  lemma {:induction false} DroppedRun(enc: Log.Encoding, h: Hashes, account: string, parse: Parser, raws: seq<string>,
        w: World, es: seq<Event>) returns (ps: seq<Point>)
    requires JustSynced(enc, w, raws) && Batch(h, account, w.store.rows, Parsed(parse, raws)) && NoReceive(es)
    requires After(enc, h, account, parse, w, es).log.wal == []
    ensures ArePoints(Parsed(parse, raws), ps) && (NoneInside(es) ==> WholeLines(ps))
    ensures After(enc, h, account, parse, w, es).store == Interruptions(h, account, w.store, Parsed(parse, raws), ps)
  {
    hide Batch, Run, After, Stands, Left, Interruptions, Parsed, IsPoint;
    ps := RunStands(enc, h, account, parse, raws, w, es);
    SyncedIsAt(enc, h, account, parse, w, raws);
    var x := Left(h, account, w.store, Parsed(parse, raws), ps);
    DroppedIsOver(enc, h, account, parse, raws, w.log.wal, x, After(enc, h, account, parse, w, es));
    InterruptionsAreLeft(h, account, w.store, Parsed(parse, raws), ps);
  }

  // ----- The log's part of a run -----

  /** The next line of the pass, or of the replay of the queue. */
  function NextOf(log: Log.State, replay: bool): seq<string> {
    if replay then
      if log.replay.Replaying? && log.replay.n < |log.replay.todo| then [log.replay.todo[log.replay.n].raw] else []
    else if (log.main.Processing? || log.main.Draining?) && log.main.n < |log.main.lines| then
      [log.main.lines[log.main.n]]
    else []
  }

  /** What a failed line leaves in the queue, a handled one nothing; no line fails that is not there. */
  function VerdictOf(h: Hashes, account: string, parse: Parser, w: World, replay: bool, failed: Log.Record)
    : Log.Verdict {
    var next := NextOf(w.log, replay);
    if next == [] || Handled(h, account, w.store, parse(next[0]), replay).outcome == Done
    then Log.Resolved else Log.Unresolved(failed)
  }

  /** The log sees the same event; whether a line failed, and the record it left, is what handling it
      on the store says. */
  predicate Mirrors(h: Hashes, account: string, parse: Parser, w: World, e: Event, l: Log.Event) {
    match e
    case Start => l.Start?
    case Receive(ts, acct, batch) => l == Log.Receive(ts, acct, batch)
    case Append => l.Append?
    case Sync => l.Sync?
    case Process(failed) => l == Log.Process(VerdictOf(h, account, parse, w, false, failed))
    case Finish => l.Finish?
    case StartReplay => l.StartReplay?
    case ReplayOne(failed) => l == Log.ReplayOne(VerdictOf(h, account, parse, w, true, failed))
    case FinishReplay => l.FinishReplay?
    case Crash => l.Crash?
    case CrashInside => l.Crash?
  }

  /** A line that is passed, in the log or in a replay, has had its effect on the store, once; a line
      that waits for the queue has not, and nothing else writes but a crash inside a line. */
  lemma StoreFollows(enc: Log.Encoding, h: Hashes, account: string, parse: Parser, w: World, e: Event)
    ensures var t := Step(enc, h, account, parse, w, e);
      && ((e.Process? || e.ReplayOne?) && t.log != w.log ==>
            NextOf(w.log, e.ReplayOne?) != []
            && t.store == Handled(h, account, w.store, parse(NextOf(w.log, e.ReplayOne?)[0]), e.ReplayOne?).state)
      && (t.log == w.log && !e.CrashInside? ==> t.store == w.store)
      && (!e.Process? && !e.ReplayOne? && !e.CrashInside? ==> t.store == w.store)
      && (e.CrashInside? && NextOf(w.log, false) == [] ==> t.store == w.store)
      && (e.CrashInside? && NextOf(w.log, false) != [] ==>
            t.store == FirstWrite(h, account, w.store, parse(NextOf(w.log, false)[0])))
  {
    hide Handled, FirstWrite, Log.Readable, Log.Raws, Log.Lines, Log.AppendStep, Log.IsResolved;
  }

  lemma StepMirrors(enc: Log.Encoding, h: Hashes, account: string, parse: Parser, w: World, e: Event)
    returns (l: Log.Event)
    ensures Mirrors(h, account, parse, w, e, l)
    ensures Step(enc, h, account, parse, w, e).log == Log.Step(enc, w.log, l)
  {
    hide Handled, FirstWrite, Log.Step;
    match e
    case Start => l := Log.Start;
    case Receive(ts, acct, batch) => l := Log.Receive(ts, acct, batch);
    case Append => l := Log.Append;
    case Sync => l := Log.Sync;
    case Process(failed) =>
      l := Log.Process(Verdict(HandledLine(h, account, parse, w.store, Current(w.log), false), failed));
    case Finish => l := Log.Finish;
    case StartReplay => l := Log.StartReplay;
    case ReplayOne(failed) =>
      l := Log.ReplayOne(Verdict(HandledLine(h, account, parse, w.store, Replayed(w.log), true), failed));
    case FinishReplay => l := Log.FinishReplay;
    case Crash => l := Log.Crash;
    case CrashInside => l := Log.Crash;
  }

  /** Main result: the log of every run of the two together is that of a run of the log by itself,
      with the same events and with the verdicts that the store gives, so its conservation holds here
      too. */
  lemma {:induction false} LogIsARun(enc: Log.Encoding, h: Hashes, account: string, parse: Parser, store: State,
    es: seq<Event>) returns (ls: seq<Log.Event>)
    ensures |ls| == |es|
    ensures After(enc, h, account, parse, World(Log.Run(enc, []), store), es).log == Log.Run(enc, ls)
    ensures forall i :: 0 <= i < |es| ==>
      Mirrors(h, account, parse, After(enc, h, account, parse, World(Log.Run(enc, []), store), es[..i]), es[i], ls[i])
  {
    hide Step, Log.Step, Mirrors;
    var w := World(Log.Run(enc, []), store);
    ls := [];
    if es != [] {
      var init := es[..|es| - 1];
      var before := LogIsARun(enc, h, account, parse, store, init);
      var l := StepMirrors(enc, h, account, parse, After(enc, h, account, parse, w, init), es[|es| - 1]);
      ls := before + [l];
      assert ls[..|ls| - 1] == before;
      forall i | 0 <= i < |es|
        ensures Mirrors(h, account, parse, After(enc, h, account, parse, w, es[..i]), es[i], ls[i])
      {
        if i < |init| {
          assert init[..i] == es[..i] && init[i] == es[i];
        }
      }
    }
  }
}
