/** Scheduled sends: workers load the due list, claim its messages one by one, send, and settle
    each as sent, failed or pending again. Any number of workers interleave step by step with
    cancellations, database errors and crashes; due lists may be stale when they are worked on. */
module Scheduler {
  import opened Records

  const MAX_ATTEMPTS := 5

  datatype Status = Pending | Sending | Sent | Failed | Canceled

  datatype Row = Row(sendAt: int, status: Status, attempts: int, lastError: string, sentMessageId: string)

  type Rows = map<string, Row>

  /** What a worker remembers of a due row: its attempts are those of the moment it was loaded. */
  datatype Due = Due(id: string, attempts: int)

  datatype Phase = Scanning | Claimed | Ready | Marking(messageId: string) | Retrying(reason: string)

  /** The rest of the due list; its first entry is the one in progress. */
  datatype Worker = Worker(queue: seq<Due>, phase: Phase)

  datatype Mark = Claim(id: string) | Failure(id: string) | Delivery(id: string)

  datatype State = State(rows: Rows, workers: map<nat, Worker>, log: seq<Mark>)

  // ----- The statements of the table -----

  function Created(rows: Rows, id: string, sendAt: int): Rows {
    if id in rows then rows else rows[id := Row(sendAt, Pending, 0, "", "")]
  }

  predicate Claimable(rows: Rows, id: string) {
    id in rows && rows[id].status == Pending
  }

  function SetStatus(rows: Rows, id: string, status: Status): Rows
    requires id in rows
  {
    rows[id := rows[id].(status := status)]
  }

  function MarkedSent(rows: Rows, id: string, messageId: string): Rows {
    if id in rows then rows[id := rows[id].(status := Sent, sentMessageId := messageId, lastError := "")] else rows
  }

  /** `retryOrFail`, deciding on the remembered attempts. */
  function Settled(rows: Rows, sm: Due, reason: string): Rows {
    if sm.id in rows then
      rows[sm.id := rows[sm.id].(status := if sm.attempts + 1 >= MAX_ATTEMPTS then Failed else Pending,
                                 lastError := reason, attempts := rows[sm.id].attempts + 1)]
    else rows
  }

  class ScheduledTable {
    var rows: Rows

    method ClaimScheduledMessage(id: string) returns (claimed: bool)
      modifies this
      ensures claimed <==> Claimable(old(rows), id)
      ensures rows == if claimed then SetStatus(old(rows), id, Sending) else old(rows)
    {
      claimed := id in rows && rows[id].status == Pending;
      if claimed {
        rows := rows[id := rows[id].(status := Sending)];
      }
    }

    method CancelScheduledMessage(id: string) returns (canceled: bool)
      modifies this
      ensures canceled <==> Claimable(old(rows), id)
      ensures rows == if canceled then SetStatus(old(rows), id, Canceled) else old(rows)
    {
      canceled := id in rows && rows[id].status == Pending;
      if canceled {
        rows := rows[id := rows[id].(status := Canceled)];
      }
    }

    method MarkScheduledMessageSent(id: string, messageId: string)
      modifies this
      ensures rows == MarkedSent(old(rows), id, messageId)
    {
      if id in rows {
        rows := rows[id := rows[id].(status := Sent, sentMessageId := messageId, lastError := "")];
      }
    }

    method CountAttempt(id: string, status: Status, reason: string)
      modifies this
      ensures rows == if id in old(rows) then
          old(rows)[id := old(rows)[id].(status := status, lastError := reason, attempts := old(rows)[id].attempts + 1)]
        else old(rows)
    {
      if id in rows {
        rows := rows[id := rows[id].(status := status, lastError := reason, attempts := rows[id].attempts + 1)];
      }
    }

    method RetryOrFail(sm: Due, reason: string)
      modifies this
      ensures rows == Settled(old(rows), sm, reason)
    {
      if sm.attempts + 1 >= MAX_ATTEMPTS {
        CountAttempt(sm.id, Failed, reason);
        return;
      }
      CountAttempt(sm.id, Pending, reason);
    }

    method SendScheduledMessage(sm: Due, answer: Answer)
      modifies this
      ensures rows == Handled(old(rows), sm, answer)
    {
      var claimed := ClaimScheduledMessage(sm.id);
      if !claimed {
        return;
      }
      match answer
      case NotConnected => RetryOrFail(sm, "platform not connected");
      case Refused(reason) => RetryOrFail(sm, reason);
      case Accepted(messageId) => MarkScheduledMessageSent(sm.id, messageId);
    }

    method ProcessDueScheduledMessages(due: seq<Due>, answers: seq<Answer>)
      requires |answers| == |due|
      modifies this
      ensures rows == HandledAll(old(rows), due, answers)
    {
      ghost var before := rows;
      for i := 0 to |due|
        invariant HandledAll(before, due, answers) == HandledAll(rows, due[i..], answers[i..])
      {
        SendScheduledMessage(due[i], answers[i]);
        assert due[i..][1..] == due[i + 1..] && answers[i..][1..] == answers[i + 1..];
      }
    }
  }

  /** What a claimed message meets. */
  datatype Answer = NotConnected | Refused(reason: string) | Accepted(messageId: string)

  function Handled(rows: Rows, sm: Due, answer: Answer): Rows {
    if !Claimable(rows, sm.id) then rows else
      var claimed := SetStatus(rows, sm.id, Sending);
      match answer
      case NotConnected => Settled(claimed, sm, "platform not connected")
      case Refused(reason) => Settled(claimed, sm, reason)
      case Accepted(messageId) => MarkedSent(claimed, sm.id, messageId)
  }

  function HandledAll(rows: Rows, due: seq<Due>, answers: seq<Answer>): Rows
    requires |answers| == |due|
  {
    if due == [] then rows else HandledAll(Handled(rows, due[0], answers[0]), due[1..], answers[1..])
  }

  // ----- Steps -----

  /** `ok` is false when the statement fails; a claim that reports failure may still have been
      applied. */
  datatype Event =
    | Create(id: string, sendAt: int)
    | Cancel(id: string)
    | Load(w: nat, now: int, due: seq<Due>)
    | TryClaim(w: nat, ok: bool, applied: bool)
    | Route(w: nat, connected: bool)
    | Send(w: nat, answer: Answer)
    | Settle(w: nat, ok: bool)
    | Crash(w: nat)

  /** `WHERE status = pending AND send_at <= now ORDER BY send_at`, in any order of equal times. */
  predicate IsDueList(rows: Rows, now: int, due: seq<Due>) {
    && (forall i :: 0 <= i < |due| ==>
          due[i].id in rows && rows[due[i].id].status == Pending && rows[due[i].id].sendAt <= now
          && due[i].attempts == rows[due[i].id].attempts)
    && (forall i, j :: 0 <= i < j < |due| ==>
      due[i].id != due[j].id && rows[due[i].id].sendAt <= rows[due[j].id].sendAt)
    && (forall id :: id in rows && rows[id].status == Pending && rows[id].sendAt <= now ==>
          exists i :: 0 <= i < |due| && due[i].id == id)
  }

  function Assign(s: State, w: nat, worker: Worker): State {
    s.(workers := s.workers[w := worker])
  }

  function Next(worker: Worker): Worker
    requires worker.queue != []
  {
    Worker(worker.queue[1..], Scanning)
  }

  function ClaimStep(s: State, w: nat, worker: Worker, ok: bool, applied: bool): State
    requires worker.queue != []
  {
    var id := worker.queue[0].id;
    if Claimable(s.rows, id) && (ok || applied) then
      Assign(s.(rows := SetStatus(s.rows, id, Sending), log := s.log + [Claim(id)]), w,
             if ok then worker.(phase := Claimed) else Next(worker))
    else Assign(s, w, Next(worker))
  }

  function SendStep(s: State, w: nat, worker: Worker, answer: Answer): State
    requires worker.queue != []
  {
    match answer
    case Accepted(messageId) =>
      Assign(s.(log := s.log + [Delivery(worker.queue[0].id)]), w, worker.(phase := Marking(messageId)))
    case Refused(reason) => Assign(s, w, worker.(phase := Retrying(reason)))
    case NotConnected => Assign(s, w, worker.(phase := Retrying("platform not connected")))
  }

  function SettleStep(s: State, w: nat, worker: Worker, ok: bool): State
    requires worker.queue != [] && (worker.phase.Marking? || worker.phase.Retrying?)
  {
    var sm := worker.queue[0];
    if !ok then Assign(s, w, Next(worker))
    else if worker.phase.Marking? then
      Assign(s.(rows := MarkedSent(s.rows, sm.id, worker.phase.messageId)), w, Next(worker))
    else
      Assign(s.(rows := Settled(s.rows, sm, worker.phase.reason), log := s.log + [Failure(sm.id)]), w, Next(worker))
  }

  function WorkerStep(s: State, w: nat, worker: Worker, e: Event): State
    requires worker.queue != []
  {
    match e
    case TryClaim(_, ok, applied) => if worker.phase.Scanning? then ClaimStep(s, w, worker, ok, applied) else s
    case Route(_, connected) =>
      if !worker.phase.Claimed? then s
      else Assign(s, w, worker.(phase := if connected then Ready else Retrying("platform not connected")))
    case Send(_, answer) => if worker.phase.Ready? then SendStep(s, w, worker, answer) else s
    case Settle(_, ok) =>
      if worker.phase.Marking? || worker.phase.Retrying? then SettleStep(s, w, worker, ok) else s
    case _ => s
  }

  /** An event that does not fit its worker's position does nothing. */
  function Step(s: State, e: Event): State {
    if e.Create? then s.(rows := Created(s.rows, e.id, e.sendAt))
    else if e.Cancel? then
      if Claimable(s.rows, e.id) then s.(rows := SetStatus(s.rows, e.id, Canceled)) else s
    else if e.w !in s.workers then s
    else if e.Crash? then Assign(s, e.w, Worker([], Scanning))
    else if e.Load? then
      if s.workers[e.w].queue == [] && IsDueList(s.rows, e.now, e.due)
        then Assign(s, e.w, Worker(e.due, Scanning)) else s
    else if s.workers[e.w].queue == [] then s
    else WorkerStep(s, e.w, s.workers[e.w], e)
  }

  function Run(s: State, es: seq<Event>): State {
    if es == [] then s else Step(Run(s, es[..|es| - 1]), es[|es| - 1])
  }

  function Idle(n: nat): (ws: map<nat, Worker>)
    ensures |ws| == n
    ensures forall w: nat :: w in ws <==> w < n
    ensures forall w :: w in ws ==> ws[w] == Worker([], Scanning)
  {
    if n == 0 then map[] else Idle(n - 1)[n - 1 := Worker([], Scanning)]
  }

  function Start(n: nat): State { State(map[], Idle(n), []) }

  function Count(log: seq<Mark>, m: Mark): nat {
    if log == [] then 0 else Count(log[..|log| - 1], m) + if log[|log| - 1] == m then 1 else 0
  }

  lemma CountGrows(log: seq<Mark>, x: Mark, m: Mark)
    ensures Count(log + [x], m) == Count(log, m) + if x == m then 1 else 0
  {
    assert (log + [x])[..|log|] == log;
  }

  // ----- One claim, at most one delivery -----

  predicate Holds(worker: Worker, id: string) {
    worker.queue != [] && !worker.phase.Scanning? && worker.queue[0].id == id
  }

  function StatusOf(s: State, id: string): Option<Status> {
    if id in s.rows then Some(s.rows[id].status) else None
  }

  /** A held message is in sending and held once; a delivered one is held only to be marked. */
  ghost predicate Owned(s: State, id: string) {
    && (forall v, w :: v in s.workers && w in s.workers && Holds(s.workers[v], id) && Holds(s.workers[w], id) ==>
      v == w)
    && (forall w :: w in s.workers && Holds(s.workers[w], id) ==>
          StatusOf(s, id) == Some(Sending)
          && Count(s.log, Delivery(id)) == (if s.workers[w].phase.Marking? then 1 else 0))
    && Count(s.log, Delivery(id)) <= 1
    && (Count(s.log, Delivery(id)) == 1 ==> StatusOf(s, id) == Some(Sending) || StatusOf(s, id) == Some(Sent))
    && (StatusOf(s, id) == Some(Sent) ==> Count(s.log, Delivery(id)) == 1)
  }

  predicate Open(s: State, id: string) {
    StatusOf(s, id) == Some(Sending) || StatusOf(s, id) == Some(Sent)
  }

  /** Attempts count the claims that ended in failure; one more claim is open in sending or sent. */
  ghost predicate Counted(s: State, id: string) {
    && Count(s.log, Claim(id)) == Count(s.log, Failure(id)) + (if Open(s, id) then 1 else 0)
    && (if id in s.rows then s.rows[id].attempts == Count(s.log, Failure(id)) else Count(s.log, Claim(id)) == 0)
  }

  lemma ClaimKeepsOwned(s: State, w: nat, ok: bool, applied: bool, id: string)
    requires Owned(s, id) && w in s.workers && s.workers[w].queue != [] && s.workers[w].phase.Scanning?
    ensures Owned(ClaimStep(s, w, s.workers[w], ok, applied), id)
  {
    hide Count;
    CountGrows(s.log, Claim(s.workers[w].queue[0].id), Delivery(id));
  }

  lemma SendKeepsOwned(s: State, w: nat, answer: Answer, id: string)
    requires Owned(s, id) && w in s.workers && s.workers[w].queue != [] && s.workers[w].phase.Ready?
    ensures Owned(SendStep(s, w, s.workers[w], answer), id)
  {
    hide Count;
    CountGrows(s.log, Delivery(s.workers[w].queue[0].id), Delivery(id));
  }

  lemma SettleKeepsOwned(s: State, w: nat, ok: bool, id: string)
    requires Owned(s, id) && w in s.workers && s.workers[w].queue != []
    requires s.workers[w].phase.Marking? || s.workers[w].phase.Retrying?
    ensures Owned(SettleStep(s, w, s.workers[w], ok), id)
  {
    hide Count;
    CountGrows(s.log, Failure(s.workers[w].queue[0].id), Delivery(id));
  }

  lemma WorkerKeepsOwned(s: State, w: nat, e: Event, id: string)
    requires Owned(s, id) && w in s.workers && s.workers[w].queue != []
    ensures Owned(WorkerStep(s, w, s.workers[w], e), id)
  {
    hide Count, ClaimStep, SendStep, SettleStep;
    var phase := s.workers[w].phase;
    match e
    case TryClaim(_, ok, applied) => if phase.Scanning? { ClaimKeepsOwned(s, w, ok, applied, id); }
    case Send(_, answer) => if phase.Ready? { SendKeepsOwned(s, w, answer, id); }
    case Settle(_, ok) => if phase.Marking? || phase.Retrying? { SettleKeepsOwned(s, w, ok, id); }
    case _ =>
  }

  lemma {:induction false} StepKeepsOwned(s: State, e: Event, id: string)
    requires Owned(s, id)
    ensures Owned(Step(s, e), id)
  {
    hide Count, IsDueList, WorkerStep;
    if !e.Create? && !e.Cancel? && e.w in s.workers && s.workers[e.w].queue != [] && !e.Load? && !e.Crash? {
      WorkerKeepsOwned(s, e.w, e, id);
    }
  }

  lemma WorkerKeepsCounted(s: State, w: nat, e: Event, id: string)
    requires Counted(s, id) && Owned(s, id) && w in s.workers && s.workers[w].queue != []
    ensures Counted(WorkerStep(s, w, s.workers[w], e), id)
  {
    hide Count;
    var worker := s.workers[w];
    var sm := worker.queue[0];
    assert Holds(worker, id) ==> StatusOf(s, id) == Some(Sending);
    GrowsBoth(s.log, Claim(sm.id), id);
    GrowsBoth(s.log, Delivery(sm.id), id);
    GrowsBoth(s.log, Failure(sm.id), id);
  }

  lemma GrowsBoth(log: seq<Mark>, x: Mark, id: string)
    ensures Count(log + [x], Claim(id)) == Count(log, Claim(id)) + if x == Claim(id) then 1 else 0
    ensures Count(log + [x], Failure(id)) == Count(log, Failure(id)) + if x == Failure(id) then 1 else 0
  {
    CountGrows(log, x, Claim(id));
    CountGrows(log, x, Failure(id));
  }

  lemma {:induction false} StepKeepsCounted(s: State, e: Event, id: string)
    requires Counted(s, id) && Owned(s, id)
    ensures Counted(Step(s, e), id)
  {
    hide Count, IsDueList, WorkerStep, Owned;
    if !e.Create? && !e.Cancel? && e.w in s.workers && s.workers[e.w].queue != [] && !e.Load? && !e.Crash? {
      WorkerKeepsCounted(s, e.w, e, id);
    }
  }

  /** Main result: over every run of any number of workers, a message in sending is held by at
      most one of them and accounted to exactly one open claim, at most one send of it succeeds,
      and a canceled or failed message was never delivered. */
  lemma {:induction false} SendsAtMostOnce(n: nat, es: seq<Event>, id: string)
    ensures Owned(Run(Start(n), es), id) && Counted(Run(Start(n), es), id)
  {
    hide Step, Owned, Counted;
    if es == [] {
      StartFine(n, id);
    } else {
      SendsAtMostOnce(n, es[..|es| - 1], id);
      StepKeepsOwned(Run(Start(n), es[..|es| - 1]), es[|es| - 1], id);
      StepKeepsCounted(Run(Start(n), es[..|es| - 1]), es[|es| - 1], id);
    }
  }

  lemma StartFine(n: nat, id: string)
    ensures Owned(Start(n), id) && Counted(Start(n), id)
  {
  }

  predicate Terminal(status: Status) {
    status == Sent || status == Failed || status == Canceled
  }

  /** A terminal row is never touched again. */
  lemma TerminalIsFinal(s: State, e: Event, id: string)
    requires Owned(s, id) && id in s.rows && Terminal(s.rows[id].status)
    ensures id in Step(s, e).rows && Step(s, e).rows[id] == s.rows[id]
  {
    hide Count, IsDueList;
    if e.Settle? && e.w in s.workers {
      assert !Holds(s.workers[e.w], id);
    }
  }

  /** Once sent, failed or canceled, a row is the same at the end of every longer run. */
  lemma {:induction false} TerminalStays(n: nat, es: seq<Event>, later: seq<Event>, id: string)
    requires var s := Run(Start(n), es); id in s.rows && Terminal(s.rows[id].status)
    ensures var s, t := Run(Start(n), es), Run(Start(n), es + later); id in t.rows && t.rows[id] == s.rows[id]
  {
    hide Step, Owned, Counted;
    if later == [] {
      assert es + later == es;
    } else {
      var init := later[..|later| - 1];
      TerminalStays(n, es, init, id);
      SendsAtMostOnce(n, es + init, id);
      TerminalIsFinal(Run(Start(n), es + init), later[|later| - 1], id);
      assert (es + later)[..|es + later| - 1] == es + init;
    }
  }

  // ----- Messages left in sending -----

  /** In sending, and held by no worker. */
  predicate Stranded(s: State, id: string) {
    StatusOf(s, id) == Some(Sending) && forall w :: w in s.workers ==> !Holds(s.workers[w], id)
  }

  lemma {:induction false} StrandedStep(s: State, e: Event, id: string)
    requires Stranded(s, id)
    ensures Stranded(Step(s, e), id) && Step(s, e).rows[id] == s.rows[id]
  {
    hide IsDueList;
    if !e.Create? && !e.Cancel? && e.w in s.workers {
      assert !Holds(s.workers[e.w], id);
    }
  }

  function Steps(s: State, es: seq<Event>): State {
    if es == [] then s else Step(Steps(s, es[..|es| - 1]), es[|es| - 1])
  }

  lemma {:induction false} StrandedStays(s: State, es: seq<Event>, id: string)
    requires Stranded(s, id)
    ensures Stranded(Steps(s, es), id) && Steps(s, es).rows[id] == s.rows[id]
  {
    hide Step, Stranded;
    assert id in s.rows by { StrandedRow(s, id); }
    if es != [] {
      StrandedStays(s, es[..|es| - 1], id);
      StrandedStep(Steps(s, es[..|es| - 1]), es[|es| - 1], id);
    }
  }

  lemma StrandedRow(s: State, id: string)
    requires Stranded(s, id)
    ensures id in s.rows
  {
  }

  /** What lets the holder settle. */
  function Onward(w: nat, phase: Phase): seq<Event> {
    match phase
    case Scanning => []
    case Claimed => [Route(w, false), Settle(w, true)]
    case Ready => [Send(w, NotConnected), Settle(w, true)]
    case Marking(_) => [Settle(w, true)]
    case Retrying(_) => [Settle(w, true)]
  }

  lemma {:induction false} HolderSettles(s: State, w: nat, id: string)
    requires StatusOf(s, id) == Some(Sending) && w in s.workers && Holds(s.workers[w], id)
    ensures var t := Steps(s, Onward(w, s.workers[w].phase)); id in t.rows && t.rows[id] != s.rows[id]
  {
    var e := Settle(w, true);
    StepsOf(s, e, e);
    StepsOf(s, Route(w, false), e);
    StepsOf(s, Send(w, NotConnected), e);
  }

  lemma StepsOf(s: State, a: Event, b: Event)
    ensures Steps(s, [a]) == Step(s, a) && Steps(s, [a, b]) == Step(Step(s, a), b)
  {
    hide Step;
    assert [a][..0] == [] && [a, b][..1] == [a];
  }

  /** A message in sending is stuck there for good exactly when no worker holds it, as after its
      holder's crash or a settling statement that fails: nothing returns it to pending. */
  lemma {:induction false} StuckExactly(s: State, id: string)
    requires StatusOf(s, id) == Some(Sending)
    ensures (forall es :: id in Steps(s, es).rows && Steps(s, es).rows[id] == s.rows[id]) <==> Stranded(s, id)
  {
    hide Steps, Step, Holds;
    if Stranded(s, id) {
      forall es ensures id in Steps(s, es).rows && Steps(s, es).rows[id] == s.rows[id] {
        StrandedStays(s, es, id);
        StrandedRow(Steps(s, es), id);
      }
    } else {
      var w :| w in s.workers && Holds(s.workers[w], id);
      HolderSettles(s, w, id);
    }
  }

  /** A crash, or a settling statement that fails, strands the message its worker holds. */
  lemma {:induction false} CrashStrands(s: State, w: nat, id: string)
    requires Owned(s, id) && w in s.workers && Holds(s.workers[w], id)
    ensures Stranded(Step(s, Crash(w)), id)
    ensures s.workers[w].phase.Marking? || s.workers[w].phase.Retrying? ==> Stranded(Step(s, Settle(w, false)), id)
  {
    hide Count, IsDueList;
  }

  // ----- How often a message can be claimed -----

  /** The worker remembers the message with attempts to spare: settling it would retry. */
  predicate Spares(worker: Worker, id: string) {
    exists i :: 0 <= i < |worker.queue| && worker.queue[i].id == id && worker.queue[i].attempts + 1 < MAX_ATTEMPTS
  }

  function Sparing(workers: map<nat, Worker>, id: string): set<nat> {
    set w | w in workers && Spares(workers[w], id)
  }

  /** A due list names a message once, and never with more attempts than its row has now. */
  predicate QueueFine(rows: Rows, q: seq<Due>, id: string) {
    && (forall i, j :: 0 <= i < j < |q| && q[i].id == id ==> q[j].id != id)
    && (forall i :: 0 <= i < |q| && q[i].id == id ==> id in rows && q[i].attempts <= rows[id].attempts)
  }

  /** Attempts beyond the fourth are paid for by workers that no longer remember the message as
      spare. */
  predicate WithinBudget(row: Row, sparing: nat, n: nat) {
    if row.status == Failed then MAX_ATTEMPTS <= row.attempts <= n + MAX_ATTEMPTS - 1
    else row.attempts <= MAX_ATTEMPTS - 2 || row.attempts + sparing <= n + MAX_ATTEMPTS - 2
  }

  ghost predicate Budgeted(s: State, id: string, n: nat) {
    && s.workers.Keys == Idle(n).Keys
    && (forall w :: w in s.workers ==> QueueFine(s.rows, s.workers[w].queue, id))
    && (id in s.rows ==> WithinBudget(s.rows[id], |Sparing(s.workers, id)|, n))
  }

  lemma SparingAtMost(workers: map<nat, Worker>, id: string, n: nat)
    requires workers.Keys == Idle(n).Keys
    ensures |Sparing(workers, id)| <= n
  {
    hide Spares;
    SubsetSize(Sparing(workers, id), Idle(n).Keys);
    assert |Idle(n).Keys| == |Idle(n)|;
  }

  lemma SparingLess(workers: map<nat, Worker>, w: nat, worker: Worker, id: string)
    requires w in workers && (Spares(worker, id) ==> Spares(workers[w], id))
    ensures |Sparing(workers[w := worker], id)| ==
      |Sparing(workers, id)| - if Spares(workers[w], id) && !Spares(worker, id) then 1 else 0
  {
    hide Spares;
    var before, after := Sparing(workers, id), Sparing(workers[w := worker], id);
    assert after == if Spares(worker, id) then before else before - {w};
  }

  /** A worker that spares no message it did not spare before. */
  lemma AssignKeeps(s: State, w: nat, worker: Worker, id: string, n: nat)
    requires Budgeted(s, id, n) && w in s.workers && QueueFine(s.rows, worker.queue, id)
    requires Spares(worker, id) ==> Spares(s.workers[w], id)
    ensures Budgeted(Assign(s, w, worker), id, n)
    ensures Spares(s.workers[w], id) && !Spares(worker, id) ==>
      |Sparing(s.workers, id)| > |Sparing(s.workers[w := worker], id)|
  {
    hide Spares, QueueFine, Sparing;
    SparingLess(s.workers, w, worker, id);
    assert Assign(s, w, worker).workers.Keys == s.workers.Keys;
  }

  lemma NextFine(rows: Rows, worker: Worker, id: string)
    requires worker.queue != [] && QueueFine(rows, worker.queue, id)
    ensures QueueFine(rows, Next(worker).queue, id)
    ensures Spares(Next(worker), id) ==> Spares(worker, id)
    ensures worker.queue[0].id == id ==> !Spares(Next(worker), id)
    ensures worker.queue[0].id == id ==> (Spares(worker, id) <==> worker.queue[0].attempts + 1 < MAX_ATTEMPTS)
  {
    var q := worker.queue;
    assert forall i :: 0 <= i < |q[1..]| ==> q[1..][i] == q[i + 1];
  }

  predicate SameBudget(row: Row, rows: Rows, id: string) {
    id in rows && rows[id].attempts == row.attempts && (rows[id].status == Failed <==> row.status == Failed)
  }

  /** Rows other than the message's, or its status while it is open, do not matter. */
  lemma RowsKeep(s: State, rows: Rows, id: string, n: nat)
    requires Budgeted(s, id, n)
    requires id in s.rows ==> SameBudget(s.rows[id], rows, id)
    requires id !in s.rows && id in rows ==> rows[id].attempts == 0 && rows[id].status != Failed
    ensures Budgeted(s.(rows := rows), id, n)
  {
    hide Sparing;
  }

  lemma LoadKeeps(s: State, w: nat, now: int, due: seq<Due>, id: string, n: nat)
    requires Budgeted(s, id, n) && w in s.workers && s.workers[w].queue == [] && IsDueList(s.rows, now, due)
    ensures Budgeted(Assign(s, w, Worker(due, Scanning)), id, n)
  {
    var worker := Worker(due, Scanning);
    if Spares(worker, id) {
      var i :| 0 <= i < |due| && due[i].id == id && due[i].attempts + 1 < MAX_ATTEMPTS;
      assert s.rows[id].attempts <= MAX_ATTEMPTS - 2 && s.rows[id].status == Pending;
      assert Assign(s, w, worker).workers.Keys == s.workers.Keys;
    } else {
      AssignKeeps(s, w, worker, id, n);
    }
  }

  /** The one step that spends an attempt. */
  lemma {:induction false} FailureKeeps(s: State, w: nat, id: string, n: nat)
    requires Budgeted(s, id, n) && w in s.workers && s.workers[w].queue != [] && s.workers[w].phase.Retrying?
    requires Owned(s, id)
    ensures Budgeted(SettleStep(s, w, s.workers[w], true), id, n)
  {
    hide Spares, QueueFine, Owned, Sparing;
    var worker := s.workers[w];
    var sm := worker.queue[0];
    NextFine(s.rows, worker, id);
    AssignKeeps(s, w, Next(worker), id, n);
    var moved := Assign(s, w, Next(worker));
    var rows := Settled(s.rows, sm, worker.phase.reason);
    if sm.id == id {
      HolderSends(s, w, id);
      SparingAtMost(s.workers, id, n);
      HeadFine(s.rows, worker, id);
      QueuesStay(moved, rows, id);
    } else {
      RowsKeep(moved, rows, id, n);
    }
  }

  lemma HeadFine(rows: Rows, worker: Worker, id: string)
    requires worker.queue != [] && QueueFine(rows, worker.queue, id) && worker.queue[0].id == id
    ensures id in rows && worker.queue[0].attempts <= rows[id].attempts
  {
  }

  lemma HolderSends(s: State, w: nat, id: string)
    requires Owned(s, id) && w in s.workers && Holds(s.workers[w], id)
    ensures id in s.rows && s.rows[id].status == Sending
  {
  }

  lemma QueuesStay(s: State, rows: Rows, id: string)
    requires forall w :: w in s.workers ==> QueueFine(s.rows, s.workers[w].queue, id)
    requires id in s.rows && id in rows && s.rows[id].attempts <= rows[id].attempts
    ensures forall w :: w in s.workers ==> QueueFine(rows, s.workers[w].queue, id)
  {
  }

  lemma {:induction false} WorkerKeepsBudget(s: State, w: nat, e: Event, id: string, n: nat)
    requires Budgeted(s, id, n) && Owned(s, id) && w in s.workers && s.workers[w].queue != []
    ensures Budgeted(WorkerStep(s, w, s.workers[w], e), id, n)
  {
    hide Spares, QueueFine, Owned, Sparing, Budgeted;
    var worker := s.workers[w];
    var sm := worker.queue[0];
    var after := WorkerStep(s, w, worker, e);
    FineOf(s, w, id, n);
    NextFine(s.rows, worker, id);
    if e.Settle? && e.ok && worker.phase.Retrying? {
      FailureKeeps(s, w, id, n);
    } else {
      if Holds(worker, id) { HolderSends(s, w, id); }
      RowsKeep(s, after.rows, id, n);
      FineOf(s.(rows := after.rows), w, id, n);
      NextFine(after.rows, worker, id);
      if after != s {
        if after.workers[w] != Next(worker) {
          SameQueue(worker, after.workers[w], id);
        }
        AssignKeeps(s.(rows := after.rows), w, after.workers[w], id, n);
        LogIrrelevant(Assign(s.(rows := after.rows), w, after.workers[w]), after.log, id, n);
      }
    }
  }

  lemma SameQueue(a: Worker, b: Worker, id: string)
    requires a.queue == b.queue
    ensures Spares(a, id) <==> Spares(b, id)
  {
  }

  lemma LogIrrelevant(s: State, log: seq<Mark>, id: string, n: nat)
    requires Budgeted(s, id, n)
    ensures Budgeted(s.(log := log), id, n)
  {
  }

  lemma FineOf(s: State, w: nat, id: string, n: nat)
    requires Budgeted(s, id, n) && w in s.workers
    ensures QueueFine(s.rows, s.workers[w].queue, id)
  {
  }

  lemma {:induction false} StepKeepsBudget(s: State, e: Event, id: string, n: nat)
    requires Budgeted(s, id, n) && Owned(s, id)
    ensures Budgeted(Step(s, e), id, n)
  {
    hide IsDueList, WorkerStep, Owned, Budgeted, Spares, QueueFine;
    if e.Create? {
      RowsKeep(s, Created(s.rows, e.id, e.sendAt), id, n);
    } else if e.Cancel? {
      if Claimable(s.rows, e.id) {
        RowsKeep(s, SetStatus(s.rows, e.id, Canceled), id, n);
      }
    } else if e.w in s.workers {
      if e.Crash? {
        CrashKeeps(s, e.w, id, n);
      } else if s.workers[e.w].queue == [] {
        if e.Load? && IsDueList(s.rows, e.now, e.due) {
          LoadKeeps(s, e.w, e.now, e.due, id, n);
        }
      } else if !e.Load? {
        WorkerKeepsBudget(s, e.w, e, id, n);
      }
    }
  }

  lemma CrashKeeps(s: State, w: nat, id: string, n: nat)
    requires Budgeted(s, id, n) && w in s.workers
    ensures Budgeted(Assign(s, w, Worker([], Scanning)), id, n)
  {
    AssignKeeps(s, w, Worker([], Scanning), id, n);
  }

  lemma {:induction false} BudgetHolds(n: nat, es: seq<Event>, id: string)
    ensures Budgeted(Run(Start(n), es), id, n)
  {
    hide Step, Budgeted, Owned, Counted;
    if es == [] {
      StartWithinBudget(n, id);
    } else {
      BudgetHolds(n, es[..|es| - 1], id);
      SendsAtMostOnce(n, es[..|es| - 1], id);
      StepKeepsBudget(Run(Start(n), es[..|es| - 1]), es[|es| - 1], id, n);
    }
  }

  lemma StartWithinBudget(n: nat, id: string)
    ensures Budgeted(Start(n), id, n)
  {
  }

  /** A failed message was tried at least five times, any other at most `n + 3`; with one worker
      these are exactly five and at most four. */
  lemma AttemptsWithWorkers(n: nat, es: seq<Event>, id: string)
    requires n > 0 && id in Run(Start(n), es).rows
    ensures var s := Run(Start(n), es); var row := s.rows[id];
      && row.attempts == Count(s.log, Failure(id))
      && (row.status == Failed ==> 5 <= row.attempts <= n + 4)
      && (row.status != Failed ==> row.attempts <= n + 3)
      && Count(s.log, Claim(id)) <= n + 4
  {
    hide Step, Run, Count, Owned, Sparing;
    BudgetHolds(n, es, id);
    SendsAtMostOnce(n, es, id);
  }

  // ----- The bound is reached -----

  const M := "m"

  /** The message waits with `a` recorded attempts; workers from `k` on still remember it as new,
      worker 0 has nothing to do. */
  predicate Waits(s: State, n: nat, k: nat, a: nat) {
    && s.workers.Keys == Idle(n).Keys && 0 in s.workers && s.workers[0].queue == []
    && s.rows.Keys == {M} && s.rows[M].status == Pending && s.rows[M].attempts == a && s.rows[M].sendAt == 0
    && (forall w :: w in s.workers && k <= w ==> s.workers[w] == Worker([Due(M, 0)], Scanning))
    && Count(s.log, Claim(M)) == a
  }

  lemma RunAppends(n: nat, es: seq<Event>, e: Event)
    ensures Run(Start(n), es + [e]) == Step(Run(Start(n), es), e)
  {
    hide Step;
    assert (es + [e])[..|es|] == es;
  }

  /** One failed round of a worker on the message. */
  lemma Round(n: nat, es: seq<Event>, w: nat, known: int) returns (after: seq<Event>)
    requires var s := Run(Start(n), es);
      w in s.workers && s.workers[w] == Worker([Due(M, known)], Scanning) && Claimable(s.rows, M)
    ensures var s, t := Run(Start(n), es), Run(Start(n), after);
      && t.workers == s.workers[w := Worker([], Scanning)]
      && t.rows == Settled(SetStatus(s.rows, M, Sending), Due(M, known), "platform not connected")
      && Count(t.log, Claim(M)) == Count(s.log, Claim(M)) + 1
  {
    hide Run, Count;
    var s := Run(Start(n), es);
    var e1, e2, e3 := TryClaim(w, true, true), Route(w, false), Settle(w, true);
    RunAppends(n, es, e1);
    RunAppends(n, es + [e1], e2);
    RunAppends(n, es + [e1] + [e2], e3);
    after := es + [e1] + [e2] + [e3];
    GrowsBoth(s.log, Claim(M), M);
    GrowsBoth(s.log + [Claim(M)], Failure(M), M);
    assert Next(s.workers[w]) == Worker([], Scanning);
    assert Run(Start(n), after).workers == s.workers[w := Worker([], Scanning)];
  }

  lemma LoadM(n: nat, es: seq<Event>, w: nat) returns (after: seq<Event>)
    requires var s := Run(Start(n), es);
      && w in s.workers && s.workers[w].queue == []
      && s.rows.Keys == {M} && s.rows[M].status == Pending && s.rows[M].sendAt == 0
    ensures var s, t := Run(Start(n), es), Run(Start(n), after);
      t == Assign(s, w, Worker([Due(M, s.rows[M].attempts)], Scanning))
  {
    hide Run, Count;
    var s := Run(Start(n), es);
    var due := [Due(M, s.rows[M].attempts)];
    RunAppends(n, es, Load(w, 0, due));
    assert due[0].id == M;
    after := es + [Load(w, 0, due)];
  }

  /** All workers from `k` on load the new message. */
  lemma {:induction false} AllLoad(n: nat, k: nat) returns (es: seq<Event>)
    requires 0 < k <= n
    ensures Waits(Run(Start(n), es), n, k, 0)
    ensures forall w :: w in Run(Start(n), es).workers && w < k ==> Run(Start(n), es).workers[w] == Worker([], Scanning)
    decreases n - k
  {
    hide Run, Count;
    if k == n {
      RunAppends(n, [], Create(M, 0));
      es := [] + [Create(M, 0)];
      RunEmpty(n);
    } else {
      es := AllLoad(n, k + 1);
      es := LoadM(n, es, k);
    }
  }

  lemma RunEmpty(n: nat)
    ensures Run(Start(n), []) == Start(n)
    ensures Count(Start(n).log, Claim(M)) == 0
  {
  }

  /** Worker 0 fails four times while the others hold their stale lists. */
  lemma {:induction false} FourRounds(n: nat, a: nat) returns (es: seq<Event>)
    requires n > 0 && a <= MAX_ATTEMPTS - 1
    ensures Waits(Run(Start(n), es), n, 1, a)
  {
    hide Run, Count, Step;
    if a == 0 {
      es := AllLoad(n, 1);
    } else {
      es := FourRounds(n, a - 1);
      es := LoadM(n, es, 0);
      es := Round(n, es, 0, a - 1);
    }
  }

  /** Then each stale worker retries once more. */
  lemma {:induction false} StaleRounds(n: nat, k: nat) returns (es: seq<Event>)
    requires 0 < k <= n
    ensures Waits(Run(Start(n), es), n, k, MAX_ATTEMPTS - 2 + k)
  {
    hide Run, Count, Step;
    if k == 1 {
      es := FourRounds(n, MAX_ATTEMPTS - 1);
    } else {
      es := StaleRounds(n, k - 1);
      es := Round(n, es, k - 1, 0);
    }
  }

  /** Main result: with `n` workers a message is claimed at most `n + 4` times, and some run with
      stale due lists does claim it that often. The intended limit of five holds exactly when one
      worker runs. */
  lemma ClaimBoundIsExact(n: nat, bound: int)
    requires n > 0
    ensures (forall es, id :: Count(Run(Start(n), es).log, Claim(id)) <= bound) <==> n + 4 <= bound
  {
    hide Run, Count, Step;
    forall es, id ensures Count(Run(Start(n), es).log, Claim(id)) <= n + 4 {
      SendsAtMostOnce(n, es, id);
      if id in Run(Start(n), es).rows {
        AttemptsWithWorkers(n, es, id);
      }
    }
    var es := StaleRounds(n, n);
    var a := Run(Start(n), es).rows[M].attempts;
    es := LoadM(n, es, 0);
    es := Round(n, es, 0, a);
    assert Count(Run(Start(n), es).log, Claim(M)) == n + 4;
  }

  // ----- The loop of one worker is such a run -----

  /** One undisturbed `sendScheduledMessage`. */
  lemma {:induction false} SendIsARun(n: nat, es: seq<Event>, w: nat, answer: Answer) returns (after: seq<Event>)
    requires var s := Run(Start(n), es);
      w in s.workers && s.workers[w].queue != [] && s.workers[w].phase.Scanning?
    ensures var s, t := Run(Start(n), es), Run(Start(n), after);
      && t.rows == Handled(s.rows, s.workers[w].queue[0], answer)
      && w in t.workers && t.workers[w] == Next(s.workers[w])
  {
    hide Run, Count, IsDueList;
    var s := Run(Start(n), es);
    var e1, e2, e3, e4 := TryClaim(w, true, true), Route(w, !answer.NotConnected?), Send(w, answer), Settle(w, true);
    RunAppends(n, es, e1);
    after := es + [e1];
    if Claimable(s.rows, s.workers[w].queue[0].id) {
      RunAppends(n, es + [e1], e2);
      RunAppends(n, es + [e1] + [e2], e3);
      RunAppends(n, es + [e1] + [e2] + [e3], e4);
      after := es + [e1] + [e2] + [e3] + [e4];
    }
  }

  /** What the loop method computes is the outcome of a run of its worker's steps, so the results
      above hold of it. */
  lemma {:induction false} PassIsARun(n: nat, es: seq<Event>, w: nat, answers: seq<Answer>) returns (after: seq<Event>)
    requires var s := Run(Start(n), es);
      w in s.workers && s.workers[w].phase.Scanning? && |answers| == |s.workers[w].queue|
    ensures var s := Run(Start(n), es); Run(Start(n), after).rows == HandledAll(s.rows, s.workers[w].queue, answers)
    decreases |answers|
  {
    hide Run, Step, Handled;
    if answers == [] {
      after := es;
    } else {
      var mid := SendIsARun(n, es, w, answers[0]);
      after := PassIsARun(n, mid, w, answers[1..]);
    }
  }

  // ----- What is sent, when -----

  /** Some worker loaded its due list at or after time `t`. */
  predicate LoadedSince(es: seq<Event>, t: int) {
    exists k :: 0 <= k < |es| && es[k].Load? && t <= es[k].now
  }

  predicate Queues(worker: Worker, id: string) {
    exists i :: 0 <= i < |worker.queue| && worker.queue[i].id == id
  }

  /** Wherever the message is queued or was claimed, its time had come at some load. */
  ghost predicate Timely(es: seq<Event>, s: State, id: string) {
    (Claim(id) in s.log || exists w :: w in s.workers && Queues(s.workers[w], id)) ==>
      id in s.rows && LoadedSince(es, s.rows[id].sendAt)
  }

  lemma RestQueues(worker: Worker, id: string)
    requires worker.queue != []
    ensures Queues(Next(worker), id) ==> Queues(worker, id)
    ensures Queues(worker, worker.queue[0].id)
  {
    var q := worker.queue;
    if Queues(Next(worker), id) {
      var i :| 0 <= i < |q[1..]| && q[1..][i].id == id;
      assert q[i + 1].id == id;
    }
  }

  /** A step of a worker with a list queues nothing new and claims only its first entry. */
  lemma WorkerQueuesLess(s: State, w: nat, e: Event, id: string)
    requires w in s.workers && s.workers[w].queue != []
    ensures var t := WorkerStep(s, w, s.workers[w], e);
      && t.workers.Keys == s.workers.Keys
      && (forall v :: v in s.workers && Queues(t.workers[v], id) ==> Queues(s.workers[v], id))
      && (Claim(id) in t.log ==> Claim(id) in s.log || Queues(s.workers[w], id))
      && (id in s.rows ==> id in t.rows && t.rows[id].sendAt == s.rows[id].sendAt)
  {
    hide Queues;
    RestQueues(s.workers[w], id);
    forall p: Phase ensures Queues(s.workers[w].(phase := p), id) ==> Queues(s.workers[w], id) {
      SameQueues(s.workers[w], p, id);
    }
  }

  lemma SameQueues(worker: Worker, p: Phase, id: string)
    ensures Queues(worker.(phase := p), id) ==> Queues(worker, id)
  {
  }

  lemma {:induction false} StepStaysTimely(es: seq<Event>, s: State, e: Event, id: string)
    requires Timely(es, s, id)
    ensures Timely(es + [e], Step(s, e), id)
  {
    hide WorkerStep, IsDueList;
    assert id in s.rows && LoadedSince(es, s.rows[id].sendAt) ==> LoadedSince(es + [e], s.rows[id].sendAt) by {
      LoadedLater(es, e, if id in s.rows then s.rows[id].sendAt else 0);
    }
    if !e.Create? && !e.Cancel? && e.w in s.workers && !e.Crash? {
      if s.workers[e.w].queue != [] && !e.Load? {
        WorkerQueuesLess(s, e.w, e, id);
      } else if e.Load? && s.workers[e.w].queue == [] && IsDueList(s.rows, e.now, e.due) {
        if Queues(Worker(e.due, Scanning), id) { LoadIsTimely(es, s, e, id); }
      }
    }
  }

  lemma LoadedLater(es: seq<Event>, e: Event, t: int)
    ensures LoadedSince(es, t) ==> LoadedSince(es + [e], t)
    ensures e.Load? && t <= e.now ==> LoadedSince(es + [e], t)
  {
    var more := es + [e];
    assert more[|es|] == e;
    assert forall k :: 0 <= k < |es| ==> more[k] == es[k];
  }

  lemma LoadIsTimely(es: seq<Event>, s: State, e: Event, id: string)
    requires e.Load? && IsDueList(s.rows, e.now, e.due) && Queues(Worker(e.due, Scanning), id)
    ensures id in s.rows && LoadedSince(es + [e], s.rows[id].sendAt)
  {
    var i :| 0 <= i < |e.due| && e.due[i].id == id;
    LoadedLater(es, e, s.rows[id].sendAt);
  }

  /** Main result: on every run, a message is claimed only after some worker loaded its due list at
      or after the time the message was scheduled for. */
  lemma {:induction false} ClaimsAreDue(n: nat, es: seq<Event>, id: string)
    requires Claim(id) in Run(Start(n), es).log
    ensures var s := Run(Start(n), es); id in s.rows && LoadedSince(es, s.rows[id].sendAt)
  {
    hide Run, LoadedSince;
    RunsAreTimely(n, es, id);
  }

  lemma {:induction false} RunsAreTimely(n: nat, es: seq<Event>, id: string)
    ensures Timely(es, Run(Start(n), es), id)
  {
    hide Step, Timely;
    if es == [] {
      assert Timely([], Start(n), id) by { StartIsTimely(n, id); }
    } else {
      RunsAreTimely(n, es[..|es| - 1], id);
      StepStaysTimely(es[..|es| - 1], Run(Start(n), es[..|es| - 1]), es[|es| - 1], id);
      assert es[..|es| - 1] + [es[|es| - 1]] == es;
    }
  }

  lemma StartIsTimely(n: nat, id: string)
    ensures Timely([], Start(n), id)
  {
  }

  /** The messages a load at time `now` owes a worker. */
  function DueIds(rows: Rows, now: int): set<string> {
    set id | id in rows && rows[id].status == Pending && rows[id].sendAt <= now
  }

  function IdsOf(due: seq<Due>): (ids: set<string>)
    ensures forall id :: id in ids <==> exists i :: 0 <= i < |due| && due[i].id == id
  {
    set i | 0 <= i < |due| :: due[i].id
  }

  predicate Distinct(due: seq<Due>) {
    forall i, j :: 0 <= i < j < |due| ==> due[i].id != due[j].id
  }

  lemma {:induction false} DistinctIds(due: seq<Due>)
    ensures |IdsOf(due)| <= |due|
    ensures |IdsOf(due)| == |due| <==> Distinct(due)
  {
    hide IdsOf, Distinct;
    if due != [] {
      var n := |due| - 1;
      DistinctIds(due[..n]);
      IdsNext(due, n);
      DistinctNext(due, n);
    } else {
      assert Distinct([]) by { DistinctNone(); }
    }
  }

  lemma DistinctNone()
    ensures Distinct([])
  {
  }

  lemma DistinctNext(due: seq<Due>, n: nat)
    requires |due| == n + 1
    ensures Distinct(due) <==> Distinct(due[..n]) && due[n].id !in IdsOf(due[..n])
  {
    if Distinct(due[..n]) && due[n].id !in IdsOf(due[..n]) {
      forall i, j | 0 <= i < j < n + 1 ensures due[i].id != due[j].id {
        assert due[..n][i].id in IdsOf(due[..n]);
      }
    }
  }

  lemma IdsNext(due: seq<Due>, n: nat)
    requires |due| == n + 1
    ensures IdsOf(due) == IdsOf(due[..n]) + {due[n].id}
  {
    assert forall i :: 0 <= i < n ==> due[..n][i] == due[i];
  }

  /** Each entry is a row with the attempts recorded so far. */
  predicate Current(rows: Rows, due: seq<Due>) {
    forall i :: 0 <= i < |due| ==> due[i].id in rows && due[i].attempts == rows[due[i].id].attempts
  }

  predicate EarliestFirst(rows: Rows, due: seq<Due>)
    requires Current(rows, due)
  {
    forall i, j :: 0 <= i < j < |due| ==> rows[due[i].id].sendAt <= rows[due[j].id].sendAt
  }

  /** Main result: an idle worker takes up a list exactly when it holds each pending message whose
      time has come once, and no other, earliest first, with the attempts recorded so far. */
  lemma {:induction false} LoadIsExact(s: State, w: nat, now: int, due: seq<Due>)
    requires w in s.workers && s.workers[w].queue == [] && due != []
    ensures Step(s, Load(w, now, due)).workers[w].queue == due <==>
      && IdsOf(due) == DueIds(s.rows, now) && |due| == |DueIds(s.rows, now)|
      && Current(s.rows, due) && EarliestFirst(s.rows, due)
  {
    DistinctIds(due);
    if IsDueList(s.rows, now, due) {
      assert IdsOf(due) == DueIds(s.rows, now);
    } else if IdsOf(due) == DueIds(s.rows, now) && Distinct(due) && Current(s.rows, due) && EarliestFirst(s.rows, due) {
      ListsTheDue(s.rows, now, due);
    }
  }

  lemma ListsTheDue(rows: Rows, now: int, due: seq<Due>)
    requires IdsOf(due) == DueIds(rows, now) && Distinct(due) && Current(rows, due) && EarliestFirst(rows, due)
    ensures IsDueList(rows, now, due)
  {
    assert forall i :: 0 <= i < |due| ==> due[i].id in DueIds(rows, now);
    forall id | id in rows && rows[id].status == Pending && rows[id].sendAt <= now
      ensures exists i :: 0 <= i < |due| && due[i].id == id
    {
      assert id in DueIds(rows, now);
    }
  }

  /** Main result: what one send leaves of each row. A message that is not pending is passed over;
      an accepted one is sent under its id; a failed one counts an attempt, keeps the reason, and
      is given up when the worker remembered four attempts or more. */
  lemma SendColumns(rows: Rows, sm: Due, answer: Answer)
    ensures var after := Handled(rows, sm, answer);
      && after.Keys == rows.Keys
      && (forall id :: id in rows && (id != sm.id || rows[id].status != Pending) ==> after[id] == rows[id])
      && (sm.id in rows && rows[sm.id].status == Pending ==>
            var o, r := rows[sm.id], after[sm.id];
            && r.sendAt == o.sendAt
            && (answer.Accepted? ==>
                  r.status == Sent && r.sentMessageId == answer.messageId && r.lastError == "" &&
                    r.attempts == o.attempts)
            && (!answer.Accepted? ==>
                  && r.attempts == o.attempts + 1 && r.sentMessageId == o.sentMessageId
                  && r.lastError == (if answer.Refused? then answer.reason else "platform not connected")
                  && r.status == if sm.attempts >= 4 then Failed else Pending))
  {
  }

  /** A claim takes a pending message and no other. The worker goes on with it only when it was told
      so; a claim that went through but reported an error leaves the message behind in sending. */
  lemma ClaimColumns(s: State, w: nat, ok: bool, applied: bool)
    requires w in s.workers && s.workers[w].queue != [] && s.workers[w].phase.Scanning?
    ensures var t, id := Step(s, TryClaim(w, ok, applied)), s.workers[w].queue[0].id;
      var mine := id in s.rows && s.rows[id].status == Pending;
      && (mine && (ok || applied) ==>
            t.rows == s.rows[id := s.rows[id].(status := Sending)] && t.log == s.log + [Claim(id)])
      && (!mine || (!ok && !applied) ==> t.rows == s.rows && t.log == s.log)
      && t.workers[w] == (if mine && ok then s.workers[w].(phase := Claimed)
                          else Worker(s.workers[w].queue[1..], Scanning))
      && t.workers.Keys == s.workers.Keys && forall v :: v in s.workers && v != w ==> t.workers[v] == s.workers[v]
  {
  }

  /** What a worker's answer and settlement leave of the message it holds. */
  lemma {:induction false} SettledColumns(s: State, w: nat, answer: Answer)
    requires w in s.workers && s.workers[w].queue != [] && s.workers[w].phase.Ready?
    requires s.workers[w].queue[0].id in s.rows
    ensures var sm := s.workers[w].queue[0];
      var o, t := s.rows[sm.id], Step(Step(s, Send(w, answer)), Settle(w, true)).rows;
      && t.Keys == s.rows.Keys && (forall id :: id in t && id != sm.id ==> t[id] == s.rows[id])
      && (answer.Accepted? ==> t[sm.id] == Row(o.sendAt, Sent, o.attempts, "", answer.messageId))
      && (answer.Refused? ==>
            t[sm.id] == Row(o.sendAt, if sm.attempts >= 4 then Failed else Pending, o.attempts + 1, answer.reason,
                            o.sentMessageId))
      && (answer.NotConnected? ==>
            t[sm.id] == Row(o.sendAt, if sm.attempts >= 4 then Failed else Pending, o.attempts + 1,
                            "platform not connected", o.sentMessageId))
  {
  }

  /** A message is created pending at its time, once; only a pending one can be canceled. */
  lemma CreateAndCancel(s: State, id: string, sendAt: int)
    ensures Step(s, Create(id, sendAt)) ==
      if id in s.rows then s else s.(rows := s.rows[id := Row(sendAt, Pending, 0, "", "")])
    ensures Step(s, Cancel(id)) ==
      if id in s.rows && s.rows[id].status == Pending
        then s.(rows := s.rows[id := s.rows[id].(status := Canceled)]) else s
  {
  }
}
