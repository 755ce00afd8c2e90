/** Crashes while a batch is handled, and again while the log is drained: what the store ends in. */
module SignalCrashes {
  import opened Text
  import opened Records
  import opened Upsert
  import opened SignalReactions
  import opened ReactionHistory
  import opened SignalStore
  import opened SignalBatch
  import opened SignalReplay
  import opened SignalUnread
  import opened SignalNames

  // ----- Where the process dies -----

  /** After so many lines, or between the two writes of the line that follows them. */
  datatype Point = Between(lines: nat) | Inside(lines: nat)

  predicate IsPoint(ls: seq<Line>, p: Point) {
    p.lines < |ls| || p == Between(|ls|)
  }

  predicate ArePoints(ls: seq<Line>, ps: seq<Point>) {
    forall i :: 0 <= i < |ps| ==> IsPoint(ls, ps[i])
  }

  predicate WholeLines(ps: seq<Point>) {
    forall i :: 0 <= i < |ps| ==> ps[i].Between?
  }

  /** A data line or an edit writes its conversation's row before its message; a reaction is one
      write. */
  function FirstWrite(h: Hashes, account: string, s: State, l: Line): State {
    if !Speaks(l, account) then s else
      var conv := ConversationId(l.o);
      s.(convs := s.convs[conv := LineConversation(h, s.rows, Existing(s.convs, conv), l)])
  }

  function Stopped(h: Hashes, account: string, s: State, ls: seq<Line>, p: Point): State
    requires IsPoint(ls, p)
  {
    var done := Run(h, account, s, ls[..p.lines]);
    if p.Inside? then FirstWrite(h, account, done, ls[p.lines]) else done
  }

  /** The batch is interrupted at a point, again and again, each time to be run from its start; at
      last it is run whole. */
  function Interruptions(h: Hashes, account: string, s: State, ls: seq<Line>, ps: seq<Point>): State
    requires ArePoints(ls, ps)
    decreases |ps|
  {
    if ps == [] then Run(h, account, s, ls) else
      Interruptions(h, account, Stopped(h, account, s, ls, ps[0]), ls, ps[1..])
  }

  /** The lines whose conversation row is written. */
  function Begun(p: Point): nat { if p.Inside? then p.lines + 1 else p.lines }

  lemma FirstWriteIs(h: Hashes, account: string, s: State, l: Line)
    ensures FirstWrite(h, account, s, l) == State(s.rows, Handled(h, account, s, l, false).state.convs)
  {
    hide StoredData, DataConversation, EditConversation, Accepts, UpsertRow, EditedRow, Ignored, FindTarget, Updated,
      HasChange, ConversationId, Addressed, DataTime,
      DataId;
  }

  // ----- A pass over what a crash left -----

  lemma {:induction false} PassFirst(h: Hashes, account: string, s: State, ls: seq<Line>, n: nat)
    requires Batch(h, account, s.rows, ls) && n <= |ls|
    ensures var k := EndPlaces(h, account, s.rows, ls);
      && Ready(h, account, k, s, ls[..n])
      && Run(h, account, s, ls[..n]) == Effects(h, account, k, s, ls[..n])
      && Within(PlacesOf(Effects(h, account, k, s, ls[..n]).rows), k)
  {
    hide Ready, Clear, Within, PlacesAfter, PlacesOf, LineFine, Lands, Effects, Delivered, Run;
    PlacesGrow(h, account, PlacesOf(s.rows), ls);
    BatchReady(h, account, s.rows, ls, s, n);
    PassIsEffects(h, account, EndPlaces(h, account, s.rows, ls), s, ls[..n]);
  }

  /** Whatever the conversations are, a whole pass follows on the rows that `n` lines left. */
  lemma {:induction false} PassAgain(h: Hashes, account: string, s: State, ls: seq<Line>, n: nat, x: State)
    requires Batch(h, account, s.rows, ls) && n <= |ls| && x.rows == Run(h, account, s, ls[..n]).rows
    ensures var k := EndPlaces(h, account, s.rows, ls);
      && Ready(h, account, k, x, ls)
      && Run(h, account, x, ls) == Effects(h, account, k, x, ls)
  {
    hide Ready, Clear, Within, OnePlace, PlacesAfter, PlacesOf, LineFine, Lands, Effects, Delivered, Run;
    var k := EndPlaces(h, account, s.rows, ls);
    PassFirst(h, account, s, ls, n);
    EffectsKeys(h, account, k, s, ls[..n]);
    ClearAfter(h, account, k, s, ls, n);
    BatchReady(h, account, s.rows, ls, x, |ls|);
    assert ls[..|ls|] == ls;
    PassIsEffects(h, account, k, x, ls);
  }

  lemma ClearAfter(h: Hashes, account: string, k: Places, s: State, ls: seq<Line>, n: nat)
    requires n <= |ls| && forall i :: 0 <= i < |ls| ==> LineFine(h, ls[i]) && Clear(h, account, k, s.rows, ls[i])
    ensures forall i :: 0 <= i < |ls| ==> Clear(h, account, k, Effects(h, account, k, s, ls[..n]).rows, ls[i])
  {
    hide Clear, LineFine, Effects;
    forall i | 0 <= i < |ls| ensures Clear(h, account, k, Effects(h, account, k, s, ls[..n]).rows, ls[i]) {
      EffectsStayClear(h, account, k, s, ls[..n], ls[i]);
    }
  }

  /** Rerunning starts from the places the interrupted pass left; the end places are the same. */
  lemma {:induction false} SameEndPlaces(h: Hashes, account: string, s: State, ls: seq<Line>, n: nat)
    requires Batch(h, account, s.rows, ls) && n <= |ls|
    ensures EndPlaces(h, account, Run(h, account, s, ls[..n]).rows, ls) == EndPlaces(h, account, s.rows, ls)
    ensures OnePlace(h, account, PlacesOf(Run(h, account, s, ls[..n]).rows), ls)
    ensures forall i :: 0 <= i < |ls| ==>
      Clear(h, account, EndPlaces(h, account, s.rows, ls), Run(h, account, s, ls[..n]).rows, ls[i])
    ensures s.rows.Keys <= Run(h, account, s, ls[..n]).rows.Keys
  {
    hide Ready, Clear, Within, PlacesAfter, PlacesOf, LineFine, Lands, Effects, Delivered, DataId, LinePlace, Run,
          Live, Expected;
    var k := EndPlaces(h, account, s.rows, ls);
    PassFirst(h, account, s, ls, n);
    var once := Effects(h, account, k, s, ls[..n]);
    EffectsKeys(h, account, k, s, ls[..n]);
    ClearAfter(h, account, k, s, ls, n);
    DeliveredGrows(h, account, ls, n);
    OnePlaceWithin(h, account, PlacesOf(s.rows), PlacesOf(once.rows), ls);
    PlacesKeys(h, account, PlacesOf(s.rows), ls);
    PlacesKeys(h, account, PlacesOf(once.rows), ls);
    forall i | 0 <= i < |ls| ensures Expected(h, account, k, ls[i]) {
      LineExpected(h, account, PlacesOf(s.rows), ls, i);
    }
    PlacesWithin(h, account, PlacesOf(once.rows), k, ls);
    KeysOf(s.rows);
    KeysOf(once.rows);
    WithinEqual(EndPlaces(h, account, once.rows, ls), k);
  }

  lemma KeysOf(rows: Table)
    ensures PlacesOf(rows).Keys == rows.Keys
  {
  }

  lemma WithinEqual(a: Places, b: Places)
    requires Within(a, b) && a.Keys == b.Keys
    ensures a == b
  {
  }

  lemma OnePlaceWithin(h: Hashes, account: string, k: Places, a: Places, ls: seq<Line>)
    requires OnePlace(h, account, k, ls) && Within(a, PlacesAfter(h, account, k, ls))
    ensures OnePlace(h, account, a, ls)
  {
    hide PlacesAfter, DataId, LinePlace, Ignored;
    forall i | 0 <= i < |ls| && Live(ls[i], account) && DataId(h, ls[i]) in a
      ensures a[DataId(h, ls[i])] == LinePlace(ls[i]) {
      LineExpected(h, account, k, ls, i);
    }
  }

  lemma {:induction false} PlacesWithin(h: Hashes, account: string, a: Places, k: Places, ls: seq<Line>)
    requires Within(a, k) && forall i :: 0 <= i < |ls| ==> Expected(h, account, k, ls[i])
    ensures Within(PlacesAfter(h, account, a, ls), k)
  {
    hide DataId, LinePlace, Ignored;
    if ls != [] {
      assert forall i :: 0 <= i < |ls| - 1 ==> ls[..|ls| - 1][i] == ls[i];
      PlacesWithin(h, account, a, k, ls[..|ls| - 1]);
      assert Expected(h, account, k, ls[|ls| - 1]);
    }
  }

  /** The batch can be taken up from where a crash left the rows. */
  lemma {:induction false} BatchAgain(h: Hashes, account: string, s: State, ls: seq<Line>, n: nat)
    requires Batch(h, account, s.rows, ls) && n <= |ls|
    ensures Batch(h, account, Run(h, account, s, ls[..n]).rows, ls)
  {
    hide Clear, OnePlace, PlacesAfter, PlacesOf, LineFine, Run, ExactIn, Delivered;
    SameEndPlaces(h, account, s, ls, n);
    var rows := Run(h, account, s, ls[..n]).rows;
    KeysOf(s.rows);
    KeysOf(rows);
    forall i | 0 <= i < |ls| ensures Lands(h, account, PlacesOf(rows), ls, i) {
      assert Lands(h, account, PlacesOf(s.rows), ls, i);
      PlacesKeys(h, account, PlacesOf(s.rows), ls[..i]);
      PlacesKeys(h, account, PlacesOf(rows), ls[..i]);
    }
  }

  // ----- Sender names and unread apart -----

  /** The ids stored when the process dies. */
  function KeysAt(h: Hashes, account: string, keys: set<string>, ls: seq<Line>, p: Point): set<string>
    requires IsPoint(ls, p)
  {
    keys + Delivered(h, account, ls[..p.lines])
  }

  /** The conversation row of a new message is written, and the message is not: the drain counts it
      as new once more. */
  function Twice(h: Hashes, account: string, keys: set<string>, ls: seq<Line>, p: Point, c: string): nat
    requires IsPoint(ls, p)
  {
    if p.Inside? && DeliversTo(ls[p.lines], account, c) && DataId(h, ls[p.lines]) !in KeysAt(h, account, keys, ls, p)
      then 1 else 0
  }

  /** How often that happens in a conversation. */
  function Extra(h: Hashes, account: string, keys: set<string>, ls: seq<Line>, ps: seq<Point>, c: string): nat
    requires ArePoints(ls, ps)
    decreases |ps|
  {
    if ps == [] then 0 else
      Twice(h, account, keys, ls, ps[0], c) + Extra(h, account, KeysAt(h, account, keys, ls, ps[0]), ls, ps[1..], c)
  }

  /** The same conversation, with so many more unread. */
  predicate Raised(a: Conversations, b: Conversations, c: string, more: nat) {
    && (c in a <==> c in b) && (more > 0 ==> c in a)
    && (c in a ==> b[c] == a[c].(unread := a[c].unread + more))
  }

  lemma RaisedTwice(x: Conversations, y: Conversations, z: Conversations, c: string, m: nat, n: nat)
    requires Raised(x, y, c, m) && Raised(y, z, c, n)
    ensures Raised(x, z, c, m + n)
  {
  }

  lemma {:induction false} LineRaised(h: Hashes, account: string, k: Places, s: State, t: State, l: Line, c: string,
    more: nat)
    requires Raised(s.convs, t.convs, c, more)
    requires DeliversTo(l, account, c) ==>
      (DataId(h, l) in s.rows <==> DataId(h, l) in t.rows) || (c in s.convs && DataId(h, l) in s.rows)
    ensures Raised(Effect(h, account, k, s, l).convs, Effect(h, account, k, t, l).convs, c,
      more + if DeliversTo(l, account, c) && DataId(h, l) in s.rows && DataId(h, l) !in t.rows then 1 else 0)
  {
    hide Effect, Ignored, DataId, DataTime, ConversationId, Titled, Label;
    if Belongs(l, account, c) {
      OwnConversation(h, account, k, s, l, c);
      OwnConversation(h, account, k, t, l, c);
    } else {
      OtherConversation(h, account, k, s, l, c);
      OtherConversation(h, account, k, t, l, c);
    }
  }

  /** The same messages are new to both passes. */
  lemma {:induction false} LinesRaised(h: Hashes, account: string, k: Places, s: State, t: State, ls: seq<Line>,
        c: string, more: nat)
    requires Raised(s.convs, t.convs, c, more)
    requires forall id :: id in Delivered(h, account, ls) ==> (id in s.rows <==> id in t.rows)
    ensures Raised(Effects(h, account, k, s, ls).convs, Effects(h, account, k, t, ls).convs, c, more)
  {
    hide Effect, Raised, Ignored, DataId, ConversationId;
    if ls != [] {
      var init, l := ls[..|ls| - 1], ls[|ls| - 1];
      LinesRaised(h, account, k, s, t, init, c, more);
      EffectsKeys(h, account, k, s, init);
      EffectsKeys(h, account, k, t, init);
      LineRaised(h, account, k, Effects(h, account, k, s, init), Effects(h, account, k, t, init), l, c, more);
    }
  }

  lemma {:induction false} EffectsConcat(h: Hashes, account: string, k: Places, s: State, a: seq<Line>, b: seq<Line>)
    ensures Effects(h, account, k, s, a + b) == Effects(h, account, k, Effects(h, account, k, s, a), b)
  {
    hide Effect;
    if b == [] {
      assert a + b == a;
    } else {
      EffectsConcat(h, account, k, s, a, b[..|b| - 1]);
      assert (a + b)[..|a + b| - 1] == a + b[..|b| - 1];
    }
  }

  lemma EffectsSplit(h: Hashes, account: string, k: Places, s: State, ls: seq<Line>, n: nat)
    requires n < |ls|
    ensures Effects(h, account, k, s, ls) ==
      Effects(h, account, k, Effect(h, account, k, Effects(h, account, k, s, ls[..n]), ls[n]), ls[n + 1..])
  {
    hide Effect;
    assert ls == ls[..n + 1] + ls[n + 1..] && ls[..n + 1][..n] == ls[..n];
    EffectsConcat(h, account, k, s, ls[..n + 1], ls[n + 1..]);
  }

  lemma ConversationKept(h: Hashes, account: string, k: Places, s: State, ls: seq<Line>, c: string)
    requires c in s.convs
    ensures c in Effects(h, account, k, s, ls).convs
  {
    hide Effects, NameRun;
    EffectsName(h, account, k, s, ls, c);
    NameRunTitled(account, NameIn(s.convs, c), ls, c);
  }

  lemma FirstWriteConvs(h: Hashes, account: string, k: Places, s: State, l: Line)
    ensures FirstWrite(h, account, s, l) == State(s.rows, Effect(h, account, k, s, l).convs)
    ensures Live(l, account) ==> ConversationId(l.o) in Effect(h, account, k, s, l).convs
  {
    hide DataConversation, EditConversation, DataRow, Ignored, Stored, TargetOf, DataId, DataTime, ConversationId,
      Reacted,
      Reworked;
  }

  /** From the same conversations, lines whose messages are all stored do the same. */
  lemma {:induction false} StoredLines(h: Hashes, account: string, k: Places, s: State, t: State, ls: seq<Line>,
        c: string)
    requires s.convs == t.convs && Delivered(h, account, ls) <= t.rows.Keys <= s.rows.Keys
    ensures var x, y := Effects(h, account, k, s, ls), Effects(h, account, k, t, ls);
      && Raised(x.convs, y.convs, c, 0) && (c in s.convs ==> c in x.convs)
      && x.rows.Keys == s.rows.Keys && y.rows.Keys == t.rows.Keys
  {
    hide Effects, Raised, Delivered;
    SameRaised(s.convs, c);
    LinesRaised(h, account, k, s, t, ls, c, 0);
    EffectsKeys(h, account, k, s, ls);
    EffectsKeys(h, account, k, t, ls);
    if c in s.convs {
      ConversationKept(h, account, k, s, ls, c);
    }
  }

  /** The line itself, when its message is stored already in one of the two. */
  lemma {:induction false} AcrossInside(h: Hashes, account: string, k: Places, keys: set<string>, x: State, y: State,
        l: Line, c: string)
    requires Raised(x.convs, y.convs, c, 0) && (DeliversTo(l, account, c) ==> c in x.convs)
    requires x.rows.Keys == keys + (if Live(l, account) then {DataId(h, l)} else {}) && y.rows.Keys == keys
    ensures var s, t := Effect(h, account, k, x, l), Effect(h, account, k, y, l);
      && Raised(s.convs, t.convs, c, if DeliversTo(l, account, c) && DataId(h, l) !in keys then 1 else 0)
      && s.rows.Keys == t.rows.Keys
  {
    hide Effect, Raised, Ignored, DataId, ConversationId;
    LineRaised(h, account, k, x, y, l, c, 0);
    EffectKeys(h, account, k, x, l);
    EffectKeys(h, account, k, y, l);
  }

  /** The drain after a crash inside a line, beside the one after that line. */
  lemma {:induction false} InsideRaised(h: Hashes, account: string, k: Places, done: State, ls: seq<Line>, n: nat,
        c: string)
    requires n < |ls| && Delivered(h, account, ls[..n]) <= done.rows.Keys
    ensures Raised(Effects(h, account, k, Effect(h, account, k, done, ls[n]), ls).convs,
      Effects(h, account, k, FirstWrite(h, account, done, ls[n]), ls).convs, c,
      if DeliversTo(ls[n], account, c) && DataId(h, ls[n]) !in done.rows then 1 else 0)
  {
    hide Effect, Effects, FirstWrite, Raised, Ignored, DataId, ConversationId, Delivered;
    var l, init, rest := ls[n], ls[..n], ls[n + 1..];
    var after, half := Effect(h, account, k, done, l), FirstWrite(h, account, done, l);
    var x, y := Effects(h, account, k, after, init), Effects(h, account, k, half, init);
    EffectKeys(h, account, k, done, l);
    FirstWriteConvs(h, account, k, done, l);
    StoredLines(h, account, k, after, half, init, c);
    AcrossInside(h, account, k, done.rows.Keys, x, y, l, c);
    EffectsSplit(h, account, k, after, ls, n);
    EffectsSplit(h, account, k, half, ls, n);
    var more := if DeliversTo(l, account, c) && DataId(h, l) !in done.rows then 1 else 0;
    LinesRaised(h, account, k, Effect(h, account, k, x, l), Effect(h, account, k, y, l), rest, c, more);
  }

  lemma SameRaised(a: Conversations, c: string)
    ensures Raised(a, a, c, 0)
  {
  }

  /** The rows of a pass depend on the rows it starts from, sender names apart. */
  lemma {:induction false} RowsFollow(h: Hashes, account: string, k: Places, s: State, t: State, ls: seq<Line>)
    requires s.rows == t.rows && AllInOrder(h, account, k, s.rows.Keys, ls)
    ensures RowsAlike(Effects(h, account, k, s, ls).rows, Effects(h, account, k, t, ls).rows)
  {
    hide Effects, Cell, ReactionsOf, AllInOrder, Deliveries, UpdatesOf, RunFrom, Join, Delivered;
    EffectsKeys(h, account, k, s, ls);
    EffectsKeys(h, account, k, t, ls);
    var a, b := Effects(h, account, k, s, ls).rows, Effects(h, account, k, t, ls).rows;
    forall id ensures Cell(a, id) == Cell(b, id) && ReactionsOf(a, id) == ReactionsOf(b, id) {
      EffectsCell(h, account, k, s, ls, id);
      EffectsCell(h, account, k, t, ls, id);
      EffectsReactions(h, account, k, s, ls, id);
      EffectsReactions(h, account, k, t, ls, id);
    }
  }

  lemma ReadyTargets(h: Hashes, account: string, k: Places, s: State, ls: seq<Line>)
    requires Ready(h, account, k, s, ls)
    ensures AllInOrder(h, account, k, s.rows.Keys, ls)
  {
    hide InOrder, Clear, Within, LineFine, Expected;
  }

  /** A crash after a line. */
  lemma {:induction false} BetweenIsAlike(h: Hashes, account: string, s: State, ls: seq<Line>, n: nat)
    requires Batch(h, account, s.rows, ls) && n <= |ls|
    ensures var k := EndPlaces(h, account, s.rows, ls);
      Alike(Effects(h, account, k, Effects(h, account, k, s, ls[..n]), ls), Effects(h, account, k, s, ls))
  {
    hide Ready, Batch, Effects, Alike, Run;
    var k := EndPlaces(h, account, s.rows, ls);
    PassFirst(h, account, s, ls, n);
    var once := Effects(h, account, k, s, ls[..n]);
    PassAgain(h, account, s, ls, n, once);
    TwiceIsAlike(h, account, k, s, ls[..n]);
    ReadyTargets(h, account, k, once, ls);
    EffectsAlike(h, account, k, once, s, ls[..n], ls);
  }

  /** What the process leaves: the rows of the whole lines, the conversations of those begun. */
  lemma {:induction false} StoppedIs(h: Hashes, account: string, s: State, ls: seq<Line>, p: Point)
    requires Batch(h, account, s.rows, ls) && IsPoint(ls, p)
    ensures var k := EndPlaces(h, account, s.rows, ls); var x := Stopped(h, account, s, ls, p);
      && x == State(Effects(h, account, k, s, ls[..p.lines]).rows, Effects(h, account, k, s, ls[..Begun(p)]).convs)
      && x.rows.Keys == KeysAt(h, account, s.rows.Keys, ls, p)
      && x.rows == Run(h, account, s, ls[..p.lines]).rows
      && Run(h, account, x, ls) == Effects(h, account, k, x, ls)
      && AllInOrder(h, account, k, x.rows.Keys, ls)
      && Run(h, account, s, ls) == Effects(h, account, k, s, ls)
  {
    hide Ready, Batch, Effect, Run, FirstWrite, Delivered, AllInOrder, EndPlaces;
    var k, x := EndPlaces(h, account, s.rows, ls), Stopped(h, account, s, ls, p);
    PassFirst(h, account, s, ls, p.lines);
    PassFirst(h, account, s, ls, |ls|);
    assert ls[..|ls|] == ls;
    EffectsKeys(h, account, k, s, ls[..p.lines]);
    if p.Inside? {
      FirstWriteConvs(h, account, k, Effects(h, account, k, s, ls[..p.lines]), ls[p.lines]);
      assert ls[..p.lines + 1][..p.lines] == ls[..p.lines];
    }
    PassAgain(h, account, s, ls, p.lines, x);
    ReadyTargets(h, account, k, x, ls);
  }

  /** The conversations after a crash inside a line and a drain. */
  lemma {:induction false} InsideIsRaised(h: Hashes, account: string, s: State, ls: seq<Line>, p: Point, c: string)
    requires Batch(h, account, s.rows, ls) && IsPoint(ls, p) && p.Inside?
    ensures var k := EndPlaces(h, account, s.rows, ls);
      Raised(Effects(h, account, k, s, ls).convs,
        Effects(h, account, k, Stopped(h, account, s, ls, p), ls).convs, c, Twice(h, account, s.rows.Keys, ls, p, c))
  {
    hide Batch, Effect, Run, Raised, RowsAlike, FirstWrite, Ignored, DataId, ConversationId, EndPlaces, Delivered,
      Effects;
    var k := EndPlaces(h, account, s.rows, ls);
    var done := Effects(h, account, k, s, ls[..p.lines]);
    PassFirst(h, account, s, ls, p.lines);
    BetweenIsAlike(h, account, s, ls, p.lines + 1);
    StepIs(h, account, k, s, ls, p.lines);
    EffectsKeys(h, account, k, s, ls[..p.lines]);
    InsideRaised(h, account, k, done, ls, p.lines, c);
  }

  /** The rows after a crash at any point and a drain. */
  lemma {:induction false} CrashedRows(h: Hashes, account: string, s: State, ls: seq<Line>, p: Point)
    requires Batch(h, account, s.rows, ls) && IsPoint(ls, p)
    ensures RowsAlike(Run(h, account, Stopped(h, account, s, ls, p), ls).rows, Run(h, account, s, ls).rows)
  {
    hide Batch, Effects, Run, Stopped, RowsAlike, AllInOrder, EndPlaces, KeysAt;
    var k, x := EndPlaces(h, account, s.rows, ls), Stopped(h, account, s, ls, p);
    var done := Effects(h, account, k, s, ls[..p.lines]);
    StoppedIs(h, account, s, ls, p);
    BetweenIsAlike(h, account, s, ls, p.lines);
    RowsFollow(h, account, k, x, done, ls);
    AlikeTrans(Effects(h, account, k, x, ls).rows, Effects(h, account, k, done, ls).rows,
      Effects(h, account, k, s, ls).rows);
  }

  /** One crash and one drain: the rows apart from sender names are those of the uninterrupted run,
      and so are the conversations but for the messages counted twice. */
  lemma {:induction false} CrashIsAlike(h: Hashes, account: string, s: State, ls: seq<Line>, p: Point, c: string)
    requires Batch(h, account, s.rows, ls) && IsPoint(ls, p)
    ensures var t, u := Run(h, account, Stopped(h, account, s, ls, p), ls), Run(h, account, s, ls);
      RowsAlike(t.rows, u.rows) && Raised(u.convs, t.convs, c, Twice(h, account, s.rows.Keys, ls, p, c))
  {
    hide Batch, Effects, Run, RowsAlike, Raised, AllInOrder, Belongs, EndPlaces, KeysAt, FirstWrite;
    StoppedIs(h, account, s, ls, p);
    CrashedRows(h, account, s, ls, p);
    if p.Inside? {
      InsideIsRaised(h, account, s, ls, p, c);
    } else {
      var k := EndPlaces(h, account, s.rows, ls);
      BetweenIsAlike(h, account, s, ls, p.lines);
      PassFirst(h, account, s, ls, p.lines);
      SameRaised(Effects(h, account, k, s, ls).convs, c);
    }
  }

  lemma StepIs(h: Hashes, account: string, k: Places, s: State, ls: seq<Line>, n: nat)
    requires n < |ls|
    ensures Effects(h, account, k, s, ls[..n + 1]) == Effect(h, account, k, Effects(h, account, k, s, ls[..n]), ls[n])
  {
    hide Effect;
    assert ls[..n + 1][..n] == ls[..n];
  }

  lemma AlikeTrans(a: Table, b: Table, c: Table)
    requires RowsAlike(a, b) && RowsAlike(b, c)
    ensures RowsAlike(a, c)
  {
    hide Cell, ReactionsOf;
    forall id ensures Cell(a, id) == Cell(c, id) && ReactionsOf(a, id) == ReactionsOf(c, id) {
      assert Cell(a, id) == Cell(b, id) && Cell(b, id) == Cell(c, id);
    }
  }

  /** What is left can be taken up again. */
  lemma StoppedAgain(h: Hashes, account: string, s: State, ls: seq<Line>, p: Point)
    requires Batch(h, account, s.rows, ls) && IsPoint(ls, p)
    ensures var x := Stopped(h, account, s, ls, p);
      Batch(h, account, x.rows, ls) && x.rows.Keys == KeysAt(h, account, s.rows.Keys, ls, p)
  {
    hide Batch, Run, Stopped, KeysAt, EndPlaces, Effects, AllInOrder;
    StoppedIs(h, account, s, ls, p);
    PointLines(ls, p);
    BatchAgain(h, account, s, ls, p.lines);
  }

  /** Any number of crashes and drains, whatever the titles. */
  lemma {:induction false} CrashesAreAlike(h: Hashes, account: string, s: State, ls: seq<Line>, ps: seq<Point>,
        c: string)
    requires Batch(h, account, s.rows, ls) && ArePoints(ls, ps)
    ensures var t, u := Interruptions(h, account, s, ls, ps), Run(h, account, s, ls);
      RowsAlike(t.rows, u.rows) && Raised(u.convs, t.convs, c, Extra(h, account, s.rows.Keys, ls, ps, c))
    decreases |ps|
  {
    hide Batch, Run, Stopped, RowsAlike, Raised, Twice, KeysAt, IsPoint;
    if ps == [] {
      SelfAlike(Run(h, account, s, ls).rows);
      SameRaised(Run(h, account, s, ls).convs, c);
    } else {
      var x, rest := Stopped(h, account, s, ls, ps[0]), ps[1..];
      StoppedAgain(h, account, s, ls, ps[0]);
      CrashesAreAlike(h, account, x, ls, rest, c);
      CrashIsAlike(h, account, s, ls, ps[0], c);
      var t, y, u := Interruptions(h, account, x, ls, rest), Run(h, account, x, ls), Run(h, account, s, ls);
      AlikeTrans(t.rows, y.rows, u.rows);
      RaisedTwice(u.convs, y.convs, t.convs, c, Twice(h, account, s.rows.Keys, ls, ps[0], c),
        Extra(h, account, x.rows.Keys, ls, rest, c));
    }
  }

  lemma PointLines(ls: seq<Line>, p: Point)
    requires IsPoint(ls, p)
    ensures p.lines <= |ls| && Begun(p) <= |ls|
  {
  }

  lemma SelfAlike(a: Table)
    ensures RowsAlike(a, a)
  {
  }

  // ----- Sender names -----

  /** Of a message's last delivery: where a title comes after an unnamed sender's line, it is what
      the message is called already. */
  predicate SettledAt(h: Hashes, account: string, s: State, ls: seq<Line>, j: nat)
    requires j < |ls|
  {
    Live(ls[j], account) && LastIndex(h, account, ls, DataId(h, ls[j])) == j ==>
      var c := ConversationId(ls[j].o);
      forall m :: 0 <= m <= |ls| && TitleIntrudes(account, ls, j, m, c) ==>
        LastTitle(account, ls[..m], c) == SenderRun(h, account, s, ls, c, DataId(h, ls[j]))
  }

  predicate SettledFrom(h: Hashes, account: string, s: State, ls: seq<Line>) {
    forall j :: 0 <= j < |ls| ==> SettledAt(h, account, s, ls, j)
  }

  /** The conversation of an id the batch delivers. */
  function HomeOf(h: Hashes, account: string, ls: seq<Line>, id: string): string {
    var j := LastIndex(h, account, ls, id);
    if j < 0 then "" else ConversationId(ls[j].o)
  }

  lemma DeliveredHome(h: Hashes, account: string, k: Places, ls: seq<Line>, n: nat, id: string)
    requires OnePlace(h, account, k, ls) && n <= |ls|
    ensures OnlyIn(h, account, ls[..n], HomeOf(h, account, ls, id), id)
  {
    hide DataId, Ignored, DataTime, ConversationId;
    var j := LastIndex(h, account, ls, id);
    forall i | 0 <= i < n && Live(ls[i], account) && DataId(h, ls[i]) == id
      ensures DeliversTo(ls[i], account, HomeOf(h, account, ls, id))
    {
      LastIndexIsLast(h, account, ls, id, i);
      assert LinePlace(ls[i]) == LinePlace(ls[j]);
    }
  }

  lemma {:induction false} LastIndexIsLast(h: Hashes, account: string, ls: seq<Line>, id: string, i: nat)
    requires i < |ls| && Live(ls[i], account) && DataId(h, ls[i]) == id
    ensures i <= LastIndex(h, account, ls, id)
  {
    hide DataId, Live;
    if i < |ls| - 1 {
      LastIndexIsLast(h, account, ls[..|ls| - 1], id, i);
    }
  }

  /** A message's sender name after one crash and one drain. */
  lemma {:induction false} CrashedSender(h: Hashes, account: string, s: State, ls: seq<Line>, p: Point, id: string)
    requires Batch(h, account, s.rows, ls) && IsPoint(ls, p)
    ensures var c, j := HomeOf(h, account, ls, id), LastIndex(h, account, ls, id);
      var x := Stopped(h, account, s, ls, p);
      && SenderOf(Run(h, account, x, ls).rows, id) == SenderRun(h, account, x, ls, c, id)
      && SenderOf(Run(h, account, s, ls).rows, id) == SenderRun(h, account, s, ls, c, id)
      && SenderRun(h, account, x, ls, c, id) ==
         if j >= 0 && TitleIntrudes(account, ls, j, Begun(p), c) then LastTitle(account, ls[..Begun(p)], c)
         else SenderRun(h, account, s, ls, c, id)
  {
    hide Effects, Run, Stopped, AllInOrder, Belongs, EndPlaces, KeysAt, HomeOf, OnePlace, OnlyIn, NameIn, NameRun,
      SenderOf, Named, LastTitle, TitleIntrudes, LastIndex, LineFine, Clear, Lands;
    var k, x, c := EndPlaces(h, account, s.rows, ls), Stopped(h, account, s, ls, p), HomeOf(h, account, ls, id);
    StoppedIs(h, account, s, ls, p);
    DeliveredHome(h, account, PlacesOf(s.rows), ls, |ls|, id);
    assert ls[..|ls|] == ls;
    DeliveredHome(h, account, PlacesOf(s.rows), ls, p.lines, id);
    EffectsSender(h, account, k, s, ls, c, id);
    EffectsSender(h, account, k, x, ls, c, id);
    EffectsSender(h, account, k, s, ls[..p.lines], c, id);
    EffectsName(h, account, k, s, ls[..Begun(p)], c);
    SameName(x.convs, Effects(h, account, k, s, ls[..Begun(p)]).convs, c);
    SenderAgain(h, account, NameIn(s.convs, c), SenderOf(s.rows, id), ls, p.lines, Begun(p), c, id);
  }

  lemma SameName(a: Conversations, b: Conversations, c: string)
    requires a == b
    ensures NameIn(a, c) == NameIn(b, c)
  {
  }

  /** Where the titles settle, a crash leaves every sender name, and the titles settled. */
  lemma {:induction false} SettledSender(h: Hashes, account: string, s: State, ls: seq<Line>, p: Point, id: string)
    requires Batch(h, account, s.rows, ls) && IsPoint(ls, p) && SettledFrom(h, account, s, ls)
    ensures var x := Stopped(h, account, s, ls, p);
      && SenderOf(Run(h, account, x, ls).rows, id) == SenderOf(Run(h, account, s, ls).rows, id)
      && SenderRun(h, account, x, ls, HomeOf(h, account, ls, id), id)
        == SenderRun(h, account, s, ls, HomeOf(h, account, ls, id), id)
  {
    hide Batch, Run, Stopped, TitleIntrudes, SenderRun, SenderOf, LastTitle, Ignored, DataId, LastIndex;
    CrashedSender(h, account, s, ls, p, id);
    var j := LastIndex(h, account, ls, id);
    if j >= 0 {
      assert SettledAt(h, account, s, ls, j);
    }
  }

  lemma {:induction false} StaysSettled(h: Hashes, account: string, s: State, ls: seq<Line>, p: Point)
    requires Batch(h, account, s.rows, ls) && IsPoint(ls, p) && SettledFrom(h, account, s, ls)
    ensures SettledFrom(h, account, Stopped(h, account, s, ls, p), ls)
  {
    hide Batch, Run, Stopped, TitleIntrudes, SenderRun, SenderOf, LastTitle, Ignored, DataId, LastIndex, SettledFrom;
    var x := Stopped(h, account, s, ls, p);
    forall j | 0 <= j < |ls| ensures SettledAt(h, account, x, ls, j) {
      assert SettledAt(h, account, s, ls, j) by { SettledPart(h, account, s, ls, j); }
      if Live(ls[j], account) {
        SettledSender(h, account, s, ls, p, DataId(h, ls[j]));
      }
    }
    SettledWhole(h, account, x, ls);
  }

  lemma SettledPart(h: Hashes, account: string, s: State, ls: seq<Line>, j: nat)
    requires SettledFrom(h, account, s, ls) && j < |ls|
    ensures SettledAt(h, account, s, ls, j)
  {
    hide SettledAt;
  }

  lemma SettledWhole(h: Hashes, account: string, s: State, ls: seq<Line>)
    requires forall j :: 0 <= j < |ls| ==> SettledAt(h, account, s, ls, j)
    ensures SettledFrom(h, account, s, ls)
  {
    hide SettledAt;
  }

  lemma {:induction false} CrashesKeepSenders(h: Hashes, account: string, s: State, ls: seq<Line>, ps: seq<Point>,
        id: string)
    requires Batch(h, account, s.rows, ls) && ArePoints(ls, ps) && SettledFrom(h, account, s, ls)
    ensures SenderOf(Interruptions(h, account, s, ls, ps).rows, id) == SenderOf(Run(h, account, s, ls).rows, id)
    decreases |ps|
  {
    hide Batch, Run, Stopped, SettledFrom, IsPoint, SenderOf;
    if ps != [] {
      StoppedAgain(h, account, s, ls, ps[0]);
      StaysSettled(h, account, s, ls, ps[0]);
      CrashesKeepSenders(h, account, Stopped(h, account, s, ls, ps[0]), ls, ps[1..], id);
      SettledSender(h, account, s, ls, ps[0], id);
    }
  }

  // ----- The results -----

  lemma RowsEqual(a: Table, b: Table)
    requires RowsAlike(a, b) && forall id :: SenderOf(a, id) == SenderOf(b, id)
    ensures a == b
  {
    forall id | id in a ensures a[id] == b[id] {
      assert Cell(a, id) == Cell(b, id) && ReactionsOf(a, id) == ReactionsOf(b, id);
      assert SenderOf(a, id) == SenderOf(b, id);
    }
  }

  /** The interrupted run ends as the uninterrupted one, but for unread: a message counts once more
      for each crash between its conversation's row and its own while it was new. */
  ghost predicate SameButUnread(h: Hashes, account: string, s: State, ls: seq<Line>, ps: seq<Point>)
    requires ArePoints(ls, ps)
  {
    var t, u := Interruptions(h, account, s, ls, ps), Run(h, account, s, ls);
    t.rows == u.rows && forall c :: Raised(u.convs, t.convs, c, Extra(h, account, s.rows.Keys, ls, ps, c))
  }

  /** However often the process dies, and wherever in the batch, also while draining. */
  lemma {:induction false} CrashesReplay(h: Hashes, account: string, s: State, ls: seq<Line>, ps: seq<Point>)
    requires Batch(h, account, s.rows, ls) && ArePoints(ls, ps) && SettledFrom(h, account, s, ls)
    ensures SameButUnread(h, account, s, ls, ps)
    ensures WholeLines(ps) ==> Interruptions(h, account, s, ls, ps) == Run(h, account, s, ls)
  {
    hide Batch, Run, Interruptions, SettledFrom, IsPoint, SenderOf, Extra, RowsAlike, Raised;
    var t, u := Interruptions(h, account, s, ls, ps), Run(h, account, s, ls);
    forall id ensures SenderOf(t.rows, id) == SenderOf(u.rows, id) {
      CrashesKeepSenders(h, account, s, ls, ps, id);
    }
    forall c ensures RowsAlike(t.rows, u.rows) &&
      Raised(u.convs, t.convs, c, Extra(h, account, s.rows.Keys, ls, ps, c)) {
      CrashesAreAlike(h, account, s, ls, ps, c);
    }
    CrashesAreAlike(h, account, s, ls, ps, "");
    RowsEqual(t.rows, u.rows);
    if WholeLines(ps) {
      forall c ensures Raised(u.convs, t.convs, c, 0) {
        NothingExtra(h, account, s.rows.Keys, ls, ps, c);
        CrashesAreAlike(h, account, s, ls, ps, c);
      }
      NotRaised(u.convs, t.convs);
    }
  }

  lemma {:induction false} NothingExtra(h: Hashes, account: string, keys: set<string>, ls: seq<Line>, ps: seq<Point>,
        c: string)
    requires ArePoints(ls, ps) && WholeLines(ps)
    ensures Extra(h, account, keys, ls, ps, c) == 0
    decreases |ps|
  {
    hide KeysAt, IsPoint;
    if ps != [] {
      NothingExtra(h, account, KeysAt(h, account, keys, ls, ps[0]), ls, ps[1..], c);
    }
  }

  lemma NotRaised(a: Conversations, b: Conversations)
    requires forall c :: Raised(a, b, c, 0)
    ensures a == b
  {
    forall c ensures c in a <==> c in b {
      assert Raised(a, b, c, 0);
    }
    forall c | c in a ensures a[c] == b[c] {
      assert Raised(a, b, c, 0);
    }
  }

  /** An unnamed sender's message in a conversation that a later line of the batch titles: stored
      under another name first, and under the title when the log is drained. */
  lemma {:induction false} UnsettledDiffers(h: Hashes, account: string, s: State, ls: seq<Line>, j: nat, m: nat)
    requires Batch(h, account, s.rows, ls) && j < |ls| && m <= |ls|
    requires Live(ls[j], account) && LastIndex(h, account, ls, DataId(h, ls[j])) == j
    requires TitleIntrudes(account, ls, j, m, ConversationId(ls[j].o))
    requires LastTitle(account, ls[..m], ConversationId(ls[j].o)) != SenderRun(h, account, s, ls,
      ConversationId(ls[j].o), DataId(h, ls[j]))
    ensures Interruptions(h, account, s, ls, [Between(m)]).rows != Run(h, account, s, ls).rows
  {
    hide Batch, Run, Stopped, TitleIntrudes, SenderRun, SenderOf, LastTitle, Ignored, DataId, LastIndex, ConversationId;
    CrashedSender(h, account, s, ls, Between(m), DataId(h, ls[j]));
    OneInterruption(h, account, s, ls, Between(m));
  }

  lemma OneInterruption(h: Hashes, account: string, s: State, ls: seq<Line>, p: Point)
    requires IsPoint(ls, p)
    ensures Interruptions(h, account, s, ls, [p]) == Run(h, account, Stopped(h, account, s, ls, p), ls)
  {
    hide Run, Stopped;
    assert [p][1..] == [];
  }

  ghost predicate SafeFrom(h: Hashes, account: string, s: State, ls: seq<Line>) {
    forall ps :: ArePoints(ls, ps) ==> SameButUnread(h, account, s, ls, ps)
  }

  /** With crashes after whole lines only. */
  ghost predicate SameFrom(h: Hashes, account: string, s: State, ls: seq<Line>) {
    forall ps :: ArePoints(ls, ps) && WholeLines(ps) ==> Interruptions(h, account, s, ls, ps) == Run(h, account, s, ls)
  }

  /** Main result: for a batch of data lines, of edits of its messages and of named-actor reactions,
      each edit and reaction after its exact-timestamp target and with no placeholder pending, any
      number of crashes at any points, each followed by a drain of the log from its start, end in
      the rows, reaction lists and conversations of an uninterrupted run, unread apart, exactly when
      the titles settle; and where no crash falls inside a line, in its very state. */
  lemma {:induction false} ReplayIsSafeExactly(h: Hashes, account: string, s: State, ls: seq<Line>)
    requires Batch(h, account, s.rows, ls)
    ensures SafeFrom(h, account, s, ls) <==> SettledFrom(h, account, s, ls)
    ensures SameFrom(h, account, s, ls) <==> SettledFrom(h, account, s, ls)
  {
    hide Batch, Run, Interruptions, TitleIntrudes, SenderRun, LastTitle, Ignored, DataId, LastIndex, ConversationId,
      Extra, Raised;
    if SettledFrom(h, account, s, ls) {
      forall ps | ArePoints(ls, ps)
        ensures SameButUnread(h, account, s, ls, ps)
        ensures WholeLines(ps) ==> Interruptions(h, account, s, ls, ps) == Run(h, account, s, ls)
      {
        CrashesReplay(h, account, s, ls, ps);
      }
    } else {
      var j :| 0 <= j < |ls| && !SettledAt(h, account, s, ls, j);
      var c := ConversationId(ls[j].o);
      var m :| 0 <= m <= |ls| && TitleIntrudes(account, ls, j, m, c)
        && LastTitle(account, ls[..m], c) != SenderRun(h, account, s, ls, c, DataId(h, ls[j]));
      UnsettledDiffers(h, account, s, ls, j, m);
      var ps := [Between(m)];
      assert ArePoints(ls, ps) && WholeLines(ps);
      assert !SameButUnread(h, account, s, ls, ps);
    }
  }

  // ----- Whatever the conversations are called -----

  /** An unnamed sender's message borrows the conversation's name. It is settled when no title
      comes, or one came before. */
  predicate Settled(account: string, ls: seq<Line>, j: nat)
    requires j < |ls| && ls[j].Data?
  {
    var c := ConversationId(ls[j].o);
    Label(ls[j].o) == "" ==> LastTitle(account, ls[..j + 1], c) != "" || LastTitle(account, ls, c) == ""
  }

  /** Of each message's last delivery in the batch. */
  predicate TitlesSettle(h: Hashes, account: string, ls: seq<Line>) {
    forall j :: 0 <= j < |ls| && Live(ls[j], account) && LastIndex(h, account, ls, DataId(h, ls[j])) == j ==>
      Settled(account, ls, j)
  }

  function Called(c: string, name: string): Conversations {
    map[c := Conversation(name, true, [], 0, 0, "signal")]
  }

  /** The titles of a batch settle from every conversations table exactly when no unnamed sender's
      last delivery comes before the first title. */
  lemma {:induction false} TitlesSettleExactly(h: Hashes, account: string, rows: Table, ls: seq<Line>)
    ensures (forall convs :: SettledFrom(h, account, State(rows, convs), ls)) <==> TitlesSettle(h, account, ls)
  {
    hide LastTitle, Ignored, DataId, LastIndex, ConversationId, SenderRun, Label;
    if TitlesSettle(h, account, ls) {
      forall convs, j | 0 <= j < |ls| ensures SettledAt(h, account, State(rows, convs), ls, j) {
        NeverIntrudes(h, account, ls, j);
      }
    } else {
      var j :| 0 <= j < |ls| && Live(ls[j], account) && LastIndex(h, account, ls, DataId(h, ls[j])) == j &&
        !Settled(account, ls, j);
      var c := ConversationId(ls[j].o);
      var s := State(rows, Called(c, "x" + LastTitle(account, ls, c)));
      assert ls[..|ls|] == ls;
      assert TitleIntrudes(account, ls, j, |ls|, c);
      BorrowedName(h, account, rows, ls, j);
      assert !SettledAt(h, account, s, ls, j);
    }
  }

  lemma NeverIntrudes(h: Hashes, account: string, ls: seq<Line>, j: nat)
    requires TitlesSettle(h, account, ls) && j < |ls|
    ensures Live(ls[j], account) && LastIndex(h, account, ls, DataId(h, ls[j])) == j ==>
      forall m :: 0 <= m <= |ls| ==> !TitleIntrudes(account, ls, j, m, ConversationId(ls[j].o))
  {
    hide LastTitle, Ignored, DataId, LastIndex, ConversationId, Label;
    if Live(ls[j], account) && LastIndex(h, account, ls, DataId(h, ls[j])) == j {
      var c := ConversationId(ls[j].o);
      forall m | 0 <= m <= |ls| ensures !TitleIntrudes(account, ls, j, m, c) {
        if LastTitle(account, ls, c) == "" {
          NoTitleBefore(account, ls, m, c);
        }
      }
    }
  }

  lemma {:induction false} BorrowedName(h: Hashes, account: string, rows: Table, ls: seq<Line>, j: nat)
    requires j < |ls| && Live(ls[j], account) && LastIndex(h, account, ls, DataId(h, ls[j])) == j &&
      !Settled(account, ls, j)
    ensures var c := ConversationId(ls[j].o); var title := LastTitle(account, ls, c);
      SenderRun(h, account, State(rows, Called(c, "x" + title)), ls, c, DataId(h, ls[j])) != title
  {
    hide LastTitle, Ignored, DataId, LastIndex, ConversationId, Label, Named, NameRun, TrimSpace, NameOf, SenderOf,
      Trimmed;
    var c, q := ConversationId(ls[j].o), ls[..j + 1];
    var name := "x" + LastTitle(account, ls, c);
    var start := NameIn(Called(c, name), c);
    assert q[|q| - 1] == ls[j];
    NamedUpTo(h, account, start, ls, c, DataId(h, ls[j]));
    NameRunKept(account, name, q, c);
    LabelStands(ls[j], name);
    TitleTrimmed(account, ls, c);
    PrefixTrimmed(LastTitle(account, ls, c));
    NamedLast(h, account, start, q, c, DataId(h, ls[j]));
  }

  lemma PrefixTrimmed(title: string)
    requires Trimmed(title)
    ensures TrimSpace("x" + title) == "x" + title && TrimSpace(title) == title && "x" + title != title
  {
    hide TrimSpace;
    assert Trimmed("x" + title);
    assert |"x" + title| != |title|;
  }

  // ----- A batch that does not settle -----

  const TwoDigests: Hashes := Hashes((c, x, t) => if t == 1 then "a" else "b", (c, x, t) => "c")

  /** A message of an unnamed sender in a group, and one that titles the group. */
  const Unnamed: Line := Data(Origin("", "", "g", "", 1), Content(1, "hi", false, "", None))
  const Titling: Line := Data(Origin("", "Ann", "g", "Trip", 2), Content(2, "yo", false, "", None))

  lemma TwoLines(account: string)
    ensures Live(Unnamed, account) && Live(Titling, account)
    ensures LineFine(TwoDigests, Unnamed) && LineFine(TwoDigests, Titling)
    ensures DataId(TwoDigests, Unnamed) != DataId(TwoDigests, Titling)
    ensures ConversationId(Unnamed.o) == ConversationId(Titling.o) && Label(Unnamed.o) == ""
  {
    assert DataId(TwoDigests, Unnamed)[7] == 'a' && DataId(TwoDigests, Titling)[7] == 'b';
  }

  lemma {:induction false} TwoLinesBatch(account: string)
    ensures Batch(TwoDigests, account, map[], [Unnamed, Titling])
  {
    hide LineFine, Ignored, DataId, DataTime, ConversationId;
    TwoLines(account);
    var ls := [Unnamed, Titling];
    forall i | 0 <= i < |ls|
      ensures LineFine(TwoDigests, ls[i])
      ensures Clear(TwoDigests, account, EndPlaces(TwoDigests, account, map[], ls), map[], ls[i])
      ensures Lands(TwoDigests, account, PlacesOf(map[]), ls, i)
    {
      assert ls[i] == Unnamed || ls[i] == Titling;
    }
  }

  /** What the two lines say, one after the other. */
  lemma {:induction false} TwoLinesSay(account: string, c: string)
    requires c == ConversationId(Unnamed.o)
    ensures LastTitle(account, [Unnamed], c) == "" && LastTitle(account, [Unnamed, Titling], c) == "Trip"
    ensures NameRun(account, None, [Unnamed], c) == Some("Signal Group")
    ensures LastIndex(TwoDigests, account, [Unnamed, Titling], DataId(TwoDigests, Unnamed)) == 0
  {
    hide LineFine, Ignored, DataId, DataTime, ConversationId, Label;
    TwoLines(account);
    assert [Unnamed][..0] == [] && [Unnamed, Titling][..1] == [Unnamed];
    assert TrimSpace("Trip") == "Trip";
  }

  /** From an empty store, the message is first stored under the group's default name, and under its
      title when the log is drained. */
  lemma {:induction false} UnsettledHappens(account: string)
    ensures var s, ls := State(map[], map[]), [Unnamed, Titling];
      && Batch(TwoDigests, account, s.rows, ls)
      && !SettledFrom(TwoDigests, account, s, ls) && !SafeFrom(TwoDigests, account, s, ls)
  {
    hide Batch, Ignored, DataId, ConversationId, Label, LastTitle, NameRun, LastIndex, SafeFrom, Interruptions, NameOf,
      Named;
    var s, ls := State(map[], map[]), [Unnamed, Titling];
    var c, id := ConversationId(Unnamed.o), DataId(TwoDigests, Unnamed);
    TwoLines(account);
    TwoLinesBatch(account);
    TwoLinesSay(account, c);
    assert ls[..1] == [Unnamed] && ls[..2] == ls;
    assert TitleIntrudes(account, ls, 0, 2, c);
    NamedUpTo(TwoDigests, account, None, ls, c, id);
    LabelStands(Unnamed, "Signal Group");
    assert TrimSpace("Signal Group") == "Signal Group";
    NamedLast(TwoDigests, account, None, [Unnamed], c, id);
    assert !SettledAt(TwoDigests, account, s, ls, 0);
    ReplayIsSafeExactly(TwoDigests, account, s, ls);
  }

  // ----- Unread counts -----

  /** After any crashes and drains, unread has risen by the number of delivered messages that were
      not stored at the start, and once more for each crash inside the line of a new one. */
  lemma {:induction false} CrashesCountUnread(h: Hashes, account: string, s: State, ls: seq<Line>, ps: seq<Point>,
        c: string)
    requires Batch(h, account, s.rows, ls) && ArePoints(ls, ps)
    ensures var t := Interruptions(h, account, s, ls, ps);
      && (c in t.convs <==> c in s.convs || DeliveredTo(h, account, ls, c) != {})
      && (c in t.convs ==>
            t.convs[c].unread == StartUnread(h, account, s, ls, c)
              + |DeliveredTo(h, account, ls, c) - s.rows.Keys| + Extra(h, account, s.rows.Keys, ls, ps, c))
  {
    hide Ready, Effects, Run, Clear, Lands, OnePlace, LineFine, DeliveredTo, PlacesOf, Interruptions, RowsAlike, Extra,
      StartUnread;
    CrashesAreAlike(h, account, s, ls, ps, c);
    PassFirst(h, account, s, ls, |ls|);
    assert ls[..|ls|] == ls;
    ReadyTargets(h, account, EndPlaces(h, account, s.rows, ls), s, ls);
    OrderFollows(h, account, EndPlaces(h, account, s.rows, ls), s.rows.Keys, ls);
    UnreadCountsNewMessages(h, account, EndPlaces(h, account, s.rows, ls), s, ls, c);
  }
}
