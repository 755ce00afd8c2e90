/** Idempotency keys of outgoing sends: concurrent requests claim a key, dispatch to a platform,
    then complete or release the key. Requests interleave step by step, a crash ends them all,
    and only the key table survives. */
module SendKeys {
  import opened Records

  datatype SendStatus = Sending | Sent | Failed | LocalStoreFailed

  datatype KeyRow = KeyRow(conv: string, messageId: string, status: SendStatus)

  type KeyTable = map<string, KeyRow>

  /** What the platform call came to. Only an auth rejection proves nothing was sent. */
  datatype Outcome = Accepted | AuthRejected | Refused | Ambiguous

  datatype Dispatch = Dispatch(key: string, outcome: Outcome)

  /** A deduplicated response carries what the lookup found. */
  datatype Response =
    | ServerError
    | Unavailable
    | SendFailed
    | Success
    | SentNotStored
    | Deduplicated(found: Option<SendStatus>)

  /** `success` in the body of a deduplicated response: a missing row leaves the default. */
  predicate ClaimsSuccess(found: Option<SendStatus>) {
    found.None? || found.value == Sent || found.value == LocalStoreFailed
  }

  datatype PC =
    | Arrived
    | LookingUp
    | Ready
    | Recording(messageId: string)
    | Completing(messageId: string, status: SendStatus)
    | Releasing(response: Response)
    | Done(response: Response)

  /** `bridge`: the conversation belongs to Signal or WhatsApp rather than Google Messages. */
  datatype Request = Request(key: string, conv: string, bridge: bool, pc: PC)

  datatype State = State(keys: KeyTable, reqs: map<nat, Request>, log: seq<Dispatch>)

  /** One atomic step, with what the environment decided in it. `dbOk` is false when the statement
      reports an error; `inserted` says whether a failing claim had still taken effect. */
  datatype Event =
    | Arrive(rid: nat, key: string, conv: string, bridge: bool)
    | Claim(rid: nat, dbOk: bool, inserted: bool)
    | Lookup(rid: nat, dbOk: bool)
    | Prepare(rid: nat, ok: bool)
    | Send(rid: nat, outcome: Outcome, messageId: string)
    | RecordLocally(rid: nat, ok: bool)
    | Complete(rid: nat, dbOk: bool)
    | Release(rid: nat, dbOk: bool)
    | Crash

  // ----- The statements of the key table -----

  function Inserted(keys: KeyTable, key: string, conv: string): KeyTable {
    if key in keys then keys else keys[key := KeyRow(conv, "", Sending)]
  }

  function Completed(keys: KeyTable, key: string, messageId: string, status: SendStatus): KeyTable {
    if key in keys then keys[key := KeyRow(keys[key].conv, messageId, status)] else keys
  }

  function Released(keys: KeyTable, key: string): KeyTable { keys - {key} }

  function StatusOf(keys: KeyTable, key: string): Option<SendStatus> {
    if key in keys then Some(keys[key].status) else None
  }

  datatype Statement =
    | Claims(key: string, conv: string)
    | Completes(key: string, messageId: string, status: SendStatus)
    | Releases(key: string)

  function Executed(keys: KeyTable, c: Statement): KeyTable {
    match c
    case Claims(key, conv) => Inserted(keys, key, conv)
    case Completes(key, messageId, status) => Completed(keys, key, messageId, status)
    case Releases(key) => Released(keys, key)
  }

  function KeysAfter(keys: KeyTable, cs: seq<Statement>): KeyTable {
    if cs == [] then keys else Executed(KeysAfter(keys, cs[..|cs| - 1]), cs[|cs| - 1])
  }

  function RowOf(keys: KeyTable, key: string): Option<KeyRow> {
    if key in keys then Some(keys[key]) else None
  }

  /** However the statements of many requests interleave, a lookup sees what the last statement on
      its own key made of the row that one found: a claim keeps a row that is there, a completion
      makes none, and nothing outlasts a release. */
  lemma {:induction false} LookupSeesLastStatement(keys: KeyTable, cs: seq<Statement>, n: nat)
    requires n < |cs| && forall i :: n < i < |cs| ==> cs[i].key != cs[n].key
    ensures var found, now := RowOf(KeysAfter(keys, cs[..n]), cs[n].key), RowOf(KeysAfter(keys, cs), cs[n].key);
      match cs[n]
      case Claims(_, conv) => now == if found.Some? then found else Some(KeyRow(conv, "", Sending))
      case Completes(_, messageId, status) => now ==
        if found.Some? then Some(KeyRow(found.value.conv, messageId, status)) else None
      case Releases(_) => now == None
    decreases |cs|
  {
    var init := cs[..|cs| - 1];
    if n < |init| {
      assert init[..n] == cs[..n];
      LookupSeesLastStatement(keys, init, n);
    }
  }

  /** What one request meets, step by step. */
  datatype World = World(claimOk: bool, inserted: bool, lookupOk: bool, prepared: bool, outcome: Outcome,
                         messageId: string, recorded: bool, completeOk: bool, releaseOk: bool)

  class SendKeyTable {
    var keys: KeyTable

    method ClaimOutgoingSendKey(key: string, conv: string) returns (claimed: bool)
      modifies this
      ensures claimed <==> key !in old(keys)
      ensures keys == Inserted(old(keys), key, conv)
    {
      claimed := key !in keys;
      if claimed {
        keys := keys[key := KeyRow(conv, "", Sending)];
      }
    }

    method GetOutgoingSendKey(key: string) returns (row: Option<KeyRow>)
      ensures row == RowOf(keys, key)
    {
      row := if key in keys then Some(keys[key]) else None;
    }

    method CompleteOutgoingSendKey(key: string, messageId: string, status: SendStatus)
      modifies this
      ensures keys == Completed(old(keys), key, messageId, status)
    {
      if key in keys {
        keys := keys[key := keys[key].(messageId := messageId, status := status)];
      }
    }

    method ReleaseOutgoingSendKey(key: string)
      modifies this
      ensures keys == Released(old(keys), key)
    {
      keys := map k | k in keys && k != key :: keys[k];
    }

    /** A send handler that nothing interleaves with. */
    method HandleSend(key: string, conv: string, bridge: bool, w: World) returns (response: Response)
      modifies this
      ensures key != "" && !w.claimOk ==> response == ServerError
      ensures key != "" && w.claimOk && key in old(keys) ==>
        keys == old(keys) && response == if w.lookupOk then Deduplicated(Some(old(keys)[key].status)) else ServerError
      ensures key == "" ==> keys == old(keys)
      ensures key == "" || (w.claimOk && key !in old(keys)) ==>
        response == Answer(w.prepared, w.outcome, w.recorded)
      ensures key != "" && w.claimOk && key !in old(keys) ==>
        keys == if !w.prepared || (!bridge && w.outcome == AuthRejected)
          then (if w.releaseOk then old(keys) else old(keys)[key := KeyRow(conv, "", Sending)])
          else old(keys)[key := if !w.completeOk then KeyRow(conv, "", Sending)
            else if w.outcome == Accepted then KeyRow(conv, w.messageId, if w.recorded then Sent else LocalStoreFailed)
            else KeyRow(conv, if bridge then "" else w.messageId, Failed)]
      ensures keys == Served(old(keys), key, conv, bridge, w).0 && response == Served(old(keys), key, conv, bridge, w).1
    {
      ClaimedOrNot(keys, key, conv, w.messageId);
      if key != "" {
        if !w.claimOk {
          if w.inserted {
            var _ := ClaimOutgoingSendKey(key, conv);
          }
          return ServerError;
        }
        var claimed := ClaimOutgoingSendKey(key, conv);
        if !claimed {
          InsertIgnored(old(keys), key, conv);
          if !w.lookupOk {
            return ServerError;
          }
          var row := GetOutgoingSendKey(key);
          return Deduplicated(if row.Some? then Some(row.value.status) else None);
        }
      }
      if !w.prepared {
        if key != "" && w.releaseOk {
          ReleaseOutgoingSendKey(key);
        }
        return Unavailable;
      }
      if w.outcome == Accepted {
        var status := if w.recorded then Sent else LocalStoreFailed;
        if key != "" && w.completeOk {
          CompleteOutgoingSendKey(key, w.messageId, status);
        }
        return ResponseFor(status);
      }
      if !bridge && w.outcome == AuthRejected {
        if key != "" && w.releaseOk {
          ReleaseOutgoingSendKey(key);
        }
        return SendFailed;
      }
      if key != "" && w.completeOk {
        CompleteOutgoingSendKey(key, if bridge then "" else w.messageId, Failed);
      }
      response := SendFailed;
    }
  }

  /** What a request that got its claim is told: success exactly when its message was accepted and
      recorded. */
  function Answer(prepared: bool, outcome: Outcome, recorded: bool): Response {
    if !prepared then Unavailable
    else if outcome != Accepted then SendFailed
    else if recorded then Success else SentNotStored
  }

  lemma ClaimedOrNot(keys: KeyTable, key: string, conv: string, messageId: string)
    ensures key !in keys ==>
      && Inserted(keys, key, conv) == keys[key := KeyRow(conv, "", Sending)]
      && Released(Inserted(keys, key, conv), key) == keys
      && forall status ::
        Completed(Inserted(keys, key, conv), key, messageId, status) == keys[key := KeyRow(conv, messageId, status)]
  {
  }

  /** The key table and the response one undisturbed request leaves. */
  function Served(keys: KeyTable, key: string, conv: string, bridge: bool, w: World): (KeyTable, Response) {
    if key != "" && !w.claimOk then (if w.inserted then Inserted(keys, key, conv) else keys, ServerError)
    else if key != "" && key in keys then (keys, if w.lookupOk then Deduplicated(StatusOf(keys, key)) else ServerError)
    else
      var claimed := if key != "" then Inserted(keys, key, conv) else keys;
      var released := if key != "" && w.releaseOk then Released(claimed, key) else claimed;
      if !w.prepared then (released, Unavailable)
      else if w.outcome == Accepted then
        var status := if w.recorded then Sent else LocalStoreFailed;
        (if key != "" && w.completeOk
          then Completed(claimed, key, w.messageId, status) else claimed, ResponseFor(status))
      else if !bridge && w.outcome == AuthRejected then (released, SendFailed)
      else (if key != "" && w.completeOk
        then Completed(claimed, key, if bridge then "" else w.messageId, Failed) else claimed, SendFailed)
  }

  // ----- The steps of a request -----

  function Move(s: State, rid: nat, pc: PC): State
    requires rid in s.reqs
  {
    s.(reqs := s.reqs[rid := s.reqs[rid].(pc := pc)])
  }

  function ClaimStep(s: State, rid: nat, dbOk: bool, inserted: bool): State
    requires rid in s.reqs
  {
    var r := s.reqs[rid];
    if r.key == "" then Move(s, rid, Ready)
    else if !dbOk then
      Move(s.(keys := if inserted then Inserted(s.keys, r.key, r.conv) else s.keys), rid, Done(ServerError))
    else if r.key in s.keys then Move(s, rid, LookingUp)
    else Move(s.(keys := Inserted(s.keys, r.key, r.conv)), rid, Ready)
  }

  /** Where a request goes after the platform call. */
  function AfterSend(r: Request, outcome: Outcome, messageId: string): PC {
    if outcome == Accepted then Recording(messageId)
    else if r.bridge then Completing("", Failed)
    else if outcome == AuthRejected then Releasing(SendFailed)
    else Completing(messageId, Failed)
  }

  function ResponseFor(status: SendStatus): Response {
    match status
    case Sent => Success
    case LocalStoreFailed => SentNotStored
    case _ => SendFailed
  }

  /** An event that does not fit the request's position does nothing. */
  function Step(s: State, e: Event): State {
    if e.Crash? then s.(reqs := map[])
    else if e.Arrive? then
      if e.rid in s.reqs then s else s.(reqs := s.reqs[e.rid := Request(e.key, e.conv, e.bridge, Arrived)])
    else if e.rid !in s.reqs then s
    else
      var r := s.reqs[e.rid];
      match e
      case Claim(rid, dbOk, inserted) => if r.pc.Arrived? then ClaimStep(s, rid, dbOk, inserted) else s
      case Lookup(rid, dbOk) =>
        if !r.pc.LookingUp? then s
        else Move(s, rid, Done(if dbOk then Deduplicated(StatusOf(s.keys, r.key)) else ServerError))
      case Prepare(rid, ok) => if r.pc.Ready? && !ok then Move(s, rid, Releasing(Unavailable)) else s
      case Send(rid, outcome, messageId) =>
        if !r.pc.Ready? then s
        else Move(s.(log := s.log + [Dispatch(r.key, outcome)]), rid, AfterSend(r, outcome, messageId))
      case RecordLocally(rid, ok) =>
        if !r.pc.Recording? then s
        else Move(s, rid, Completing(r.pc.messageId, if ok then Sent else LocalStoreFailed))
      case Complete(rid, dbOk) =>
        if !r.pc.Completing? then s
        else Move(s.(keys := if r.key != "" && dbOk
          then Completed(s.keys, r.key, r.pc.messageId, r.pc.status) else s.keys),
                  rid, Done(ResponseFor(r.pc.status)))
      case Release(rid, dbOk) =>
        if !r.pc.Releasing? then s
        else Move(s.(keys := if r.key != "" && dbOk then Released(s.keys, r.key) else s.keys), rid, Done(r.pc.response))
  }

  function Run(s: State, es: seq<Event>): State {
    if es == [] then s else Step(Run(s, es[..|es| - 1]), es[|es| - 1])
  }

  const Start := State(map[], map[], [])

  /** The steps of one request, in order; those that do not apply do nothing. */
  function FirstHalf(s: State, rid: nat, key: string, conv: string, bridge: bool, w: World): State {
    Step(Step(Step(Step(s, Arrive(rid, key, conv, bridge)), Claim(rid, w.claimOk, w.inserted)),
      Lookup(rid, w.lookupOk)), Prepare(rid, w.prepared))
  }

  function SecondHalf(s: State, rid: nat, w: World): State {
    Step(Step(Step(Step(s, Send(rid, w.outcome, w.messageId)), RecordLocally(rid, w.recorded)),
      Complete(rid, w.completeOk)), Release(rid, w.releaseOk))
  }

  function Serving(s: State, rid: nat, key: string, conv: string, bridge: bool, w: World): State {
    SecondHalf(FirstHalf(s, rid, key, conv, bridge, w), rid, w)
  }

  /** Where a request stands before it dispatches. */
  function Prepared(keys: KeyTable, key: string, conv: string, w: World): (KeyTable, PC) {
    if key != "" && !w.claimOk then (if w.inserted then Inserted(keys, key, conv) else keys, Done(ServerError))
    else if key != "" && key in keys
      then (keys, Done(if w.lookupOk then Deduplicated(StatusOf(keys, key)) else ServerError))
    else (if key != "" then Inserted(keys, key, conv) else keys, if w.prepared then Ready else Releasing(Unavailable))
  }

  /** Where a claim leaves a request. */
  function Claimed(keys: KeyTable, key: string, w: World): PC {
    if key != "" && !w.claimOk then Done(ServerError)
    else if key != "" && key in keys then LookingUp
    else Ready
  }

  lemma ClaimIs(s: State, rid: nat, key: string, conv: string, bridge: bool, w: World)
    requires rid !in s.reqs
    ensures var t := Step(Step(s, Arrive(rid, key, conv, bridge)), Claim(rid, w.claimOk, w.inserted));
      && t.keys == Prepared(s.keys, key, conv, w).0
      && rid in t.reqs && t.reqs[rid] == Request(key, conv, bridge, Claimed(s.keys, key, w))
  {
    hide Inserted;
  }

  lemma LookupIs(s: State, rid: nat, w: World)
    requires rid in s.reqs && (s.reqs[rid].pc.Done? || s.reqs[rid].pc.Ready? || s.reqs[rid].pc.LookingUp?)
    ensures var r := s.reqs[rid]; var t := Step(Step(s, Lookup(rid, w.lookupOk)), Prepare(rid, w.prepared));
      && t.keys == s.keys && rid in t.reqs
      && t.reqs[rid] == r.(pc := if r.pc.Done? then r.pc
        else if r.pc.LookingUp? then Done(if w.lookupOk then Deduplicated(StatusOf(s.keys, r.key)) else ServerError)
        else if w.prepared then Ready else Releasing(Unavailable))
  {
  }

  lemma {:induction false} FirstHalfIs(s: State, rid: nat, key: string, conv: string, bridge: bool, w: World)
    requires rid !in s.reqs
    ensures var t := FirstHalf(s, rid, key, conv, bridge, w); var p := Prepared(s.keys, key, conv, w);
      t.keys == p.0 && rid in t.reqs && t.reqs[rid] == Request(key, conv, bridge, p.1)
  {
    hide Inserted, Step;
    ClaimIs(s, rid, key, conv, bridge, w);
    LookupIs(Step(Step(s, Arrive(rid, key, conv, bridge)), Claim(rid, w.claimOk, w.inserted)), rid, w);
  }

  lemma SecondHalfIs(s: State, rid: nat, w: World)
    requires rid in s.reqs &&
      (s.reqs[rid].pc.Done? || s.reqs[rid].pc.Ready? || s.reqs[rid].pc == Releasing(Unavailable))
    ensures var r := s.reqs[rid]; var t := SecondHalf(s, rid, w);
      && rid in t.reqs
      && (r.pc.Done? ==> t.keys == s.keys && t.reqs[rid].pc == r.pc)
      && (r.pc.Releasing? ==> t.reqs[rid].pc == Done(Unavailable))
      && (r.pc.Releasing? ==> t.keys == if r.key != "" && w.releaseOk then Released(s.keys, r.key) else s.keys)
      && (r.pc.Ready? ==> Dispatched(s.keys, r, t.keys, t.reqs[rid].pc, w))
  {
    hide Inserted, Completed, Released, SecondHalf;
    if s.reqs[rid].pc.Ready? {
      ReadyIs(s, rid, w);
    } else {
      TurnedAwayIs(s, rid, w);
    }
  }

  lemma ReadyIs(s: State, rid: nat, w: World)
    requires rid in s.reqs && s.reqs[rid].pc.Ready?
    ensures var t := SecondHalf(s, rid, w); rid in t.reqs && Dispatched(s.keys, s.reqs[rid], t.keys, t.reqs[rid].pc, w)
  {
    hide Inserted, Completed, Released;
  }

  lemma TurnedAwayIs(s: State, rid: nat, w: World)
    requires rid in s.reqs && (s.reqs[rid].pc.Done? || s.reqs[rid].pc == Releasing(Unavailable))
    ensures var r := s.reqs[rid]; var t := SecondHalf(s, rid, w);
      && rid in t.reqs
      && (r.pc.Done? ==> t.keys == s.keys && t.reqs[rid].pc == r.pc)
      && (r.pc.Releasing? ==>
            t.keys == (if r.key != "" && w.releaseOk then Released(s.keys, r.key) else s.keys) &&
              t.reqs[rid].pc == Done(Unavailable))
  {
    hide Inserted, Completed, Released;
  }

  predicate Dispatched(keys: KeyTable, r: Request, after: KeyTable, pc: PC, w: World) {
    if w.outcome == Accepted then
      var status := if w.recorded then Sent else LocalStoreFailed;
      after == (if r.key != "" && w.completeOk then Completed(keys, r.key, w.messageId, status) else keys) &&
        pc == Done(ResponseFor(status))
    else if !r.bridge && w.outcome == AuthRejected then
      after == (if r.key != "" && w.releaseOk then Released(keys, r.key) else keys) && pc == Done(SendFailed)
    else
      after == (if r.key != "" && w.completeOk
        then Completed(keys, r.key, if r.bridge then "" else w.messageId, Failed) else keys) && pc == Done(SendFailed)
  }

  /** The handler computes the outcome of its own steps, run without interruption. */
  lemma {:induction false} ServedIsARun(s: State, rid: nat, key: string, conv: string, bridge: bool, w: World)
    requires rid !in s.reqs
    ensures var t := Serving(s, rid, key, conv, bridge, w); var served := Served(s.keys, key, conv, bridge, w);
      t.keys == served.0 && rid in t.reqs && t.reqs[rid].pc == Done(served.1)
  {
    hide Step, FirstHalf, SecondHalf, Inserted, Completed, Released;
    FirstHalfIs(s, rid, key, conv, bridge, w);
    SecondHalfIs(FirstHalf(s, rid, key, conv, bridge, w), rid, w);
  }

  // ----- At most one dispatch -----

  /** Dispatches of a key that may have reached the platform. */
  function Reached(log: seq<Dispatch>, key: string): nat {
    if log == [] then 0 else
      Reached(log[..|log| - 1], key)
      + if log[|log| - 1].key == key && log[|log| - 1].outcome != AuthRejected then 1 else 0
  }

  predicate HasAccepted(log: seq<Dispatch>, key: string) {
    Dispatch(key, Accepted) in log
  }

  /** The request owns its key. */
  predicate Holds(r: Request, key: string) {
    r.key == key && (r.pc.Ready? || r.pc.Recording? || r.pc.Completing? || r.pc.Releasing?)
  }

  /** The request may still dispatch, or give the key up. */
  predicate Undecided(r: Request) {
    r.pc.Ready? || r.pc.Releasing?
  }

  predicate RowTruthful(s: State, key: string) {
    key in s.keys && (s.keys[key].status == Sent || s.keys[key].status == LocalStoreFailed) ==> HasAccepted(s.log, key)
  }

  predicate RequestTruthful(s: State, r: Request) {
    r.pc.Recording? || (r.pc.Completing? && r.pc.status != Failed) ==> HasAccepted(s.log, r.key)
  }

  /** One holder per key; a held key has a row; a key whose message may have gone out has a row
      and no holder that could dispatch again or release it. */
  ghost predicate KeyInvariant(s: State, key: string) {
    && (forall i, j :: i in s.reqs && j in s.reqs && Holds(s.reqs[i], key) && Holds(s.reqs[j], key) ==> i == j)
    && (forall i :: i in s.reqs && Holds(s.reqs[i], key) ==> key in s.keys)
    && Reached(s.log, key) <= 1
    && (Reached(s.log, key) == 1 ==> key in s.keys)
    && (Reached(s.log, key) == 1 ==> forall i :: i in s.reqs && s.reqs[i].key == key ==> !Undecided(s.reqs[i]))
    && RowTruthful(s, key)
    && (forall i :: i in s.reqs && s.reqs[i].key == key ==> RequestTruthful(s, s.reqs[i]))
  }

  lemma LogGrows(log: seq<Dispatch>, d: Dispatch, key: string)
    ensures Reached(log + [d], key) == Reached(log, key) + if d.key == key && d.outcome != AuthRejected then 1 else 0
    ensures HasAccepted(log + [d], key) <==> HasAccepted(log, key) || d == Dispatch(key, Accepted)
  {
    assert (log + [d])[..|log|] == log;
  }

  /** A request that gains no power over the key, while table and log stay. */
  lemma MoveKeeps(s: State, rid: nat, pc: PC, key: string)
    requires key != "" && KeyInvariant(s, key) && rid in s.reqs
    requires var r := s.reqs[rid].(pc := pc);
      && (Holds(r, key) ==> Holds(s.reqs[rid], key))
      && (r.key == key && Undecided(r) ==> Undecided(s.reqs[rid]))
      && (r.key == key ==> RequestTruthful(s, r))
    ensures KeyInvariant(Move(s, rid, pc), key)
  {
    hide Reached, HasAccepted;
  }

  /** A row appears for a key that had none. */
  lemma InsertKeeps(s: State, k: string, conv: string, key: string)
    requires KeyInvariant(s, key) && k !in s.keys
    ensures KeyInvariant(s.(keys := Inserted(s.keys, k, conv)), key)
  {
    hide Reached, HasAccepted;
  }

  /** The first owner of a key. */
  lemma OwnKeeps(s: State, rid: nat, conv: string, key: string)
    requires KeyInvariant(s, key) && key !in s.keys && rid in s.reqs && s.reqs[rid].key == key
    ensures KeyInvariant(Move(s.(keys := Inserted(s.keys, key, conv)), rid, Ready), key)
  {
    hide Reached, HasAccepted;
    assert forall i :: i in s.reqs ==> !Holds(s.reqs[i], key);
  }

  lemma ClaimKeeps(s: State, e: Event, key: string)
    requires key != "" && KeyInvariant(s, key) && e.Claim? && e.rid in s.reqs && s.reqs[e.rid].pc.Arrived?
    ensures KeyInvariant(Step(s, e), key)
  {
    hide KeyInvariant, Inserted;
    var r := s.reqs[e.rid];
    if r.key != "" && r.key !in s.keys {
      if e.dbOk && r.key == key {
        OwnKeeps(s, e.rid, r.conv, key);
      } else if e.dbOk || e.inserted {
        InsertKeeps(s, r.key, r.conv, key);
        MoveKeeps(s.(keys := Inserted(s.keys, r.key, r.conv)), e.rid, if e.dbOk then Ready else Done(ServerError), key);
      } else {
        MoveKeeps(s, e.rid, Done(ServerError), key);
      }
    } else if r.key == "" {
      MoveKeeps(s, e.rid, Ready, key);
    } else {
      assert Inserted(s.keys, r.key, r.conv) == s.keys by { InsertIgnored(s.keys, r.key, r.conv); }
      MoveKeeps(s, e.rid, if e.dbOk then LookingUp else Done(ServerError), key);
    }
  }

  lemma InsertIgnored(keys: KeyTable, key: string, conv: string)
    requires key in keys
    ensures Inserted(keys, key, conv) == keys
  {
  }

  lemma SendKeeps(s: State, e: Event, key: string)
    requires key != "" && KeyInvariant(s, key) && e.Send? && e.rid in s.reqs && s.reqs[e.rid].pc.Ready?
    ensures KeyInvariant(Step(s, e), key)
  {
    hide Reached, HasAccepted;
    var r, d := s.reqs[e.rid], Dispatch(s.reqs[e.rid].key, e.outcome);
    LogGrows(s.log, d, key);
    if r.key == key {
      assert Holds(r, key) && Undecided(r);
    } else {
      LogGrows(s.log, d, r.key);
    }
  }

  lemma CompleteKeeps(s: State, e: Event, key: string)
    requires key != "" && KeyInvariant(s, key) && e.Complete? && e.rid in s.reqs && s.reqs[e.rid].pc.Completing?
    ensures KeyInvariant(Step(s, e), key)
  {
    hide Reached, HasAccepted;
    assert RequestTruthful(s, s.reqs[e.rid]) || s.reqs[e.rid].key != key;
  }

  lemma ReleaseKeeps(s: State, e: Event, key: string)
    requires key != "" && KeyInvariant(s, key) && e.Release? && e.rid in s.reqs && s.reqs[e.rid].pc.Releasing?
    ensures KeyInvariant(Step(s, e), key)
  {
    hide Reached, HasAccepted;
    var r := s.reqs[e.rid];
    if r.key == key {
      assert Holds(r, key) && Undecided(r);
    }
  }

  /** Every step of every request keeps the invariant of every non-empty key. */
  lemma {:induction false} StepKeepsKeys(s: State, e: Event, key: string)
    requires key != "" && KeyInvariant(s, key)
    ensures KeyInvariant(Step(s, e), key)
  {
    if e.Crash? || e.Arrive? {
      hide Reached, HasAccepted;
    } else if e.rid in s.reqs {
      hide Reached, HasAccepted, KeyInvariant;
      RequestOf(s, e.rid, key);
      var r := s.reqs[e.rid];
      match e
      case Claim(rid, dbOk, inserted) => if r.pc.Arrived? { ClaimKeeps(s, e, key); }
      case Lookup(rid, dbOk) =>
        if r.pc.LookingUp? { MoveKeeps(s, rid, Step(s, e).reqs[rid].pc, key); }
      case Prepare(rid, ok) => if r.pc.Ready? && !ok { MoveKeeps(s, rid, Releasing(Unavailable), key); }
      case Send(rid, outcome, messageId) => if r.pc.Ready? { SendKeeps(s, e, key); }
      case RecordLocally(rid, ok) =>
        if r.pc.Recording? {
          MoveKeeps(s, rid, Completing(r.pc.messageId, if ok then Sent else LocalStoreFailed), key);
        }
      case Complete(rid, dbOk) => if r.pc.Completing? { CompleteKeeps(s, e, key); }
      case Release(rid, dbOk) => if r.pc.Releasing? { ReleaseKeeps(s, e, key); }
    }
  }

  lemma RequestOf(s: State, rid: nat, key: string)
    requires KeyInvariant(s, key) && rid in s.reqs
    ensures s.reqs[rid].key == key ==> RequestTruthful(s, s.reqs[rid])
  {
  }

  lemma {:induction false} InvariantHolds(es: seq<Event>, key: string)
    requires key != ""
    ensures KeyInvariant(Run(Start, es), key)
  {
    if es != [] {
      InvariantHolds(es[..|es| - 1], key);
      StepKeepsKeys(Run(Start, es[..|es| - 1]), es[|es| - 1], key);
    }
  }

  /** A run that dispatches `n` times under the empty key. */
  function Unkeyed(n: nat): seq<Event> {
    if n == 0 then [] else
      Unkeyed(n - 1) + [Arrive(n, "", "c", true), Claim(n, true, true), Send(n, Accepted, "m")]
  }

  lemma OneMoreUnkeyed(s: State, n: nat)
    requires n !in s.reqs
    ensures var t := Step(Step(Step(s, Arrive(n, "", "c", true)), Claim(n, true, true)), Send(n, Accepted, "m"));
      t.log == s.log + [Dispatch("", Accepted)] && t.reqs.Keys == s.reqs.Keys + {n}
  {
  }

  lemma {:induction false} UnkeyedDispatches(n: nat)
    ensures Reached(Run(Start, Unkeyed(n)).log, "") == n
    ensures forall i :: i in Run(Start, Unkeyed(n)).reqs ==> i <= n
  {
    if n > 0 {
      hide Step, Reached, Run, Unkeyed;
      UnkeyedUnfolds(n);
      UnkeyedDispatches(n - 1);
      var s := Run(Start, Unkeyed(n - 1));
      RunThreeMore(Unkeyed(n - 1), Arrive(n, "", "c", true), Claim(n, true, true), Send(n, Accepted, "m"));
      OneMoreUnkeyed(s, n);
      LogGrows(s.log, Dispatch("", Accepted), "");
    } else {
      assert Run(Start, []) == Start;
    }
  }

  lemma UnkeyedUnfolds(n: nat)
    requires n > 0
    ensures Unkeyed(n) == Unkeyed(n - 1) + [Arrive(n, "", "c", true), Claim(n, true, true), Send(n, Accepted, "m")]
  {
  }

  lemma RunThreeMore(es: seq<Event>, a: Event, b: Event, c: Event)
    ensures Run(Start, es + [a, b, c]) == Step(Step(Step(Run(Start, es), a), b), c)
  {
    hide Step, Run;
    RunAppends(es, a);
    RunAppends(es + [a], b);
    RunAppends(es + [a] + [b], c);
    assert es + [a, b, c] == es + [a] + [b] + [c];
  }

  lemma RunAppends(es: seq<Event>, e: Event)
    ensures Run(Start, es + [e]) == Step(Run(Start, es), e)
  {
    hide Step;
    assert (es + [e])[..|es|] == es;
  }

  /** Main result: over every interleaving of requests, retries, database errors and crashes, at
      most one dispatch of a key may have reached the platform, exactly for non-empty keys. */
  lemma AtMostOneDispatchExactly(key: string)
    ensures (forall es :: Reached(Run(Start, es).log, key) <= 1) <==> key != ""
  {
    if key != "" {
      forall es ensures Reached(Run(Start, es).log, key) <= 1 {
        InvariantHolds(es, key);
      }
    } else {
      UnkeyedDispatches(2);
    }
  }

  /** Main result: a duplicate that finds the row is told success only if the message was
      accepted; one that finds no row is told success although nothing can have been sent. */
  lemma DuplicateIsToldTheTruthExactly(es: seq<Event>, rid: nat)
    requires rid in Run(Start, es).reqs && Run(Start, es).reqs[rid].pc.LookingUp? && Run(Start, es).reqs[rid].key != ""
    ensures var s := Run(Start, es); var key := s.reqs[rid].key; var found := StatusOf(s.keys, key);
      && Step(s, Lookup(rid, true)).reqs[rid].pc == Done(Deduplicated(found))
      && (ClaimsSuccess(found) ==> (HasAccepted(s.log, key) <==> found.Some?))
      && (found.None? ==> Reached(s.log, key) == 0)
  {
    var s := Run(Start, es);
    var key := s.reqs[rid].key;
    InvariantHolds(es, key);
    if HasAccepted(s.log, key) {
      AcceptedReached(s.log, key);
    }
  }

  lemma {:induction false} AcceptedReached(log: seq<Dispatch>, key: string)
    requires HasAccepted(log, key)
    ensures Reached(log, key) >= 1
  {
    var last := log[|log| - 1];
    if last != Dispatch(key, Accepted) {
      assert Dispatch(key, Accepted) in log[..|log| - 1];
      AcceptedReached(log[..|log| - 1], key);
    }
  }

  /** Such a run exists: the duplicate's insert is ignored, the owner is then turned away by an
      auth rejection and releases the key, and the duplicate's lookup finds nothing. */
  const FalseSuccess: seq<Event> :=
    [Arrive(0, "k", "c", false), Claim(0, true, true), Arrive(1, "k", "c", false), Claim(1, true, true),
     Send(0, AuthRejected, "m"), Release(0, true), Lookup(1, true)]

  lemma FalseSuccessHappens()
    ensures var s := Run(Start, FalseSuccess);
      && 1 in s.reqs && s.reqs[1].pc == Done(Deduplicated(None)) && ClaimsSuccess(None)
      && Reached(s.log, "k") == 0
  {
    var e := FalseSuccess;
    var s1 := Step(Start, e[0]);
    var s2 := Step(s1, e[1]);
    var s3 := Step(s2, e[2]);
    var s4 := Step(s3, e[3]);
    var s5 := Step(s4, e[4]);
    var s6 := Step(s5, e[5]);
    assert "k" in s4.keys && s4.reqs[0].pc == Ready && s4.reqs[1].pc == LookingUp;
    assert s5.log == [Dispatch("k", AuthRejected)] && s5.reqs[1].pc == LookingUp;
    assert "k" !in s6.keys && s6.log == s5.log && s6.reqs[1].pc == LookingUp;
    LogGrows([], Dispatch("k", AuthRejected), "k");
    RunSeven(e);
  }

  lemma RunSeven(e: seq<Event>)
    requires |e| == 7
    ensures Run(Start, e) == Step(Step(Step(Step(Step(Step(Step(Start, e[0]), e[1]), e[2]), e[3]), e[4]), e[5]), e[6])
  {
    hide Step;
    assert e[..0] == [];
    var k := 0;
    while k < 7
      invariant 0 <= k <= 7
      invariant k > 0 ==> Run(Start, e[..k]) == Step(Run(Start, e[..k - 1]), e[k - 1])
      invariant forall j :: 0 < j <= k ==> Run(Start, e[..j]) == Step(Run(Start, e[..j - 1]), e[j - 1])
    {
      RunAppends(e[..k], e[k]);
      assert e[..k + 1] == e[..k] + [e[k]];
      k := k + 1;
    }
    assert e[..7] == e;
  }

  // ----- What a request is told -----

  /** What happened to a request since it arrived: the platform's answer to its dispatch, with the
      message id, and whether the message was recorded. */
  datatype Story = Story(answer: Option<(Outcome, string)>, recorded: Option<bool>)

  function Told(story: Story, s: State, e: Event, rid: nat): Story {
    if e.Crash? || (e.Arrive? && e.rid == rid && rid !in s.reqs) then Story(None, None)
    else if e.Send? && e.rid == rid && rid in s.reqs && s.reqs[rid].pc.Ready?
      then Story(Some((e.outcome, e.messageId)), None)
    else if e.RecordLocally? && e.rid == rid && rid in s.reqs && s.reqs[rid].pc.Recording?
      then story.(recorded := Some(e.ok))
    else story
  }

  function StoryOf(es: seq<Event>, rid: nat): Story {
    if es == [] then Story(None, None) else
      Told(StoryOf(es[..|es| - 1], rid), Run(Start, es[..|es| - 1]), es[|es| - 1], rid)
  }

  /** Where a request stands tells its story. */
  predicate Tells(pc: PC, story: Story) {
    match pc
    case Recording(m) => story == Story(Some((Accepted, m)), None)
    case Completing(m, status) =>
      && story.answer.Some?
      && (if story.answer.value.0 == Accepted then
            story.answer.value.1 == m && story.recorded.Some? &&
              status == (if story.recorded.value then Sent else LocalStoreFailed)
          else status == Failed)
    case Releasing(response) => response == (if story.answer.None? then Unavailable else SendFailed) &&
      !WasAccepted(story)
    case Done(Success) => WasAccepted(story) && story.recorded == Some(true)
    case Done(SentNotStored) => WasAccepted(story) && story.recorded == Some(false)
    case Done(SendFailed) => story.answer.Some? && !WasAccepted(story)
    case _ => story.answer.None?
  }

  predicate WasAccepted(story: Story) { story.answer.Some? && story.answer.value.0 == Accepted }

  lemma StepTells(s: State, e: Event, story: Story, rid: nat)
    requires rid in s.reqs ==> Tells(s.reqs[rid].pc, story)
    ensures rid in Step(s, e).reqs ==> Tells(Step(s, e).reqs[rid].pc, Told(story, s, e, rid))
  {
    hide Inserted, Completed, Released;
  }

  lemma {:induction false} RunTells(es: seq<Event>, rid: nat)
    ensures rid in Run(Start, es).reqs ==> Tells(Run(Start, es).reqs[rid].pc, StoryOf(es, rid))
  {
    hide Step, Tells, Told;
    if es != [] {
      RunTells(es[..|es| - 1], rid);
      StepTells(Run(Start, es[..|es| - 1]), es[|es| - 1], StoryOf(es[..|es| - 1], rid), rid);
    }
  }

  /** Main result: over all runs, a request that is over was told success exactly when its own
      dispatch was accepted and its message recorded, that it was sent but not stored exactly when
      it was accepted and not recorded, and a failed send exactly when its dispatch was refused. */
  lemma ResponseIsTrueExactly(es: seq<Event>, rid: nat)
    requires rid in Run(Start, es).reqs && Run(Start, es).reqs[rid].pc.Done?
    ensures var response, story := Run(Start, es).reqs[rid].pc.response, StoryOf(es, rid);
      && (response == Success <==> WasAccepted(story) && story.recorded == Some(true))
      && (response == SentNotStored <==> WasAccepted(story) && story.recorded == Some(false))
      && (response == SendFailed <==> story.answer.Some? && !WasAccepted(story))
      && (WasAccepted(story) ==> response == Success || response == SentNotStored)
  {
    hide Run, StoryOf;
    RunTells(es, rid);
  }

  /** Nobody holds the key, which has a row. */
  predicate IsFinal(s: State, key: string) {
    key in s.keys && forall i :: i in s.reqs ==> !Holds(s.reqs[i], key)
  }

  lemma FinalStep(s: State, e: Event, key: string)
    requires key != "" && IsFinal(s, key)
    ensures IsFinal(Step(s, e), key) && Step(s, e).keys[key] == s.keys[key]
  {
  }

  function Steps(s: State, es: seq<Event>): State {
    if es == [] then s else Step(Steps(s, es[..|es| - 1]), es[|es| - 1])
  }

  lemma {:induction false} FinalStays(s: State, es: seq<Event>, key: string)
    requires key != "" && IsFinal(s, key)
    ensures IsFinal(Steps(s, es), key) && Steps(s, es).keys[key] == s.keys[key]
  {
    hide Step, IsFinal;
    assert key in s.keys by { FinalRow(s, key); }
    if es != [] {
      FinalStays(s, es[..|es| - 1], key);
      FinalRow(Steps(s, es[..|es| - 1]), key);
      FinalStep(Steps(s, es[..|es| - 1]), es[|es| - 1], key);
    }
    FinalRow(Steps(s, es), key);
  }

  lemma FinalRow(s: State, key: string)
    requires IsFinal(s, key)
    ensures key in s.keys
  {
  }

  /** Main result: after an accepted dispatch, a completion that works leaves the key's row with the
      message id and with `Sent` or `LocalStoreFailed`, as the message was recorded, and that row is
      the same at the end of every longer run. */
  lemma {:induction false} CompletionIsFinal(es: seq<Event>, rid: nat, later: seq<Event>)
    requires rid in Run(Start, es).reqs && Run(Start, es).reqs[rid].pc.Completing? && Run(Start, es).reqs[rid].key != ""
    requires WasAccepted(StoryOf(es, rid))
    ensures var s, story := Run(Start, es), StoryOf(es, rid); var key := s.reqs[rid].key;
      var t := Steps(Step(s, Complete(rid, true)), later);
      && key in t.keys && story.recorded.Some?
      && t.keys[key].messageId == story.answer.value.1
      && t.keys[key].status == (if story.recorded.value then Sent else LocalStoreFailed)
  {
    hide Run, StoryOf, Steps, Reached, HasAccepted;
    var s := Run(Start, es);
    var key := s.reqs[rid].key;
    InvariantHolds(es, key);
    RunTells(es, rid);
    var done := Step(s, Complete(rid, true));
    assert Holds(s.reqs[rid], key);
    assert IsFinal(done, key);
    FinalStays(done, later, key);
  }

  /** A duplicate is told success unless the row it finds is still sending or failed. */
  lemma DuplicateAnswer(found: Option<SendStatus>)
    ensures ClaimsSuccess(found) <==> found != Some(Sending) && found != Some(Failed)
  {
  }
}
