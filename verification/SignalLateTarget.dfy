/** Why a batch must bring a reaction's target before the reaction: where it comes after, a crash and
    a drain can give the reaction to a second message, or to a first one. */
module SignalLateTarget {
  import opened Text
  import opened Records
  import opened Ordering
  import opened Upsert
  import opened SignalReactions
  import opened ReactionHistory
  import opened SignalStore
  import opened SignalEdits
  import opened SignalBatch
  import opened SignalReplay
  import opened SignalNames
  import opened SignalCrashes

  /** A message, a reaction, and another message. */
  predicate AreThree(h: Hashes, account: string, first: Line, r: Line, last: Line) {
    && Live(first, account) && Live(last, account) && r.React? && Reacts(r)
    && LineFine(h, first) && LineFine(h, last) && DataId(h, first) != DataId(h, last)
  }

  predicate IsFrom(source: string, author: string) { author == "" || AddressesMatch(source, author) }

  function Distance(ts: int, target: int): nat { if ts < target then target - ts else ts - target }

  /** The reaction can mean the message: its conversation, its author, within fifteen seconds. */
  predicate Qualifies(l: Line, r: Line)
    requires l.Data? && r.React?
  {
    && ConversationId(l.o) == ConversationId(r.o) && IsFrom(l.o.source, r.author)
    && Distance(DataTime(l), r.target) <= 15000
  }

  predicate Closer(a: Message, b: Message, target: int) {
    Distance(a.ts, target) < Distance(b.ts, target) ||
      (Distance(a.ts, target) == Distance(b.ts, target) && Before(a, b))
  }

  /** The reaction means the last message: it qualifies, and if the first one does, too, it is the
      nearer one, or as near and listed first. */
  predicate MeansLast(h: Hashes, first: Line, r: Line, last: Line)
    requires first.Data? && r.React? && last.Data?
  {
    && Qualifies(last, r)
    && (Qualifies(first, r) ==>
      Closer(BlankRow(DataId(h, last), DataTime(last)), BlankRow(DataId(h, first), DataTime(first)), r.target))
  }

  // ----- The lookup in a small table -----

  predicate Candidate(m: Message, conv: string, ts: int, author: string) {
    m.conv == conv && Distance(m.ts, ts) <= 15000 && Eligible(m, author)
  }

  lemma {:induction false} AllListed(S: set<Message>, m: Message, n: nat)
    requires Keyed(S) && m in S && |S| <= n
    ensures m in Limit(Ascending(S), n)
  {
    hide Ascending, Keyed;
    assert Limit(Ascending(S), n) == Ascending(S);
  }

  /** Of a listing in order, the pick is the candidate closer than every other. */
  lemma {:induction false} PickClosest(ms: seq<Message>, author: string, ts: int, m: Message)
    requires m in ms && Eligible(m, author) && Ascends(ms)
    requires forall x :: x in ms && Eligible(x, author) && x != m ==> Closer(m, x, ts)
    ensures Pick(ms, author, ts) == Some(m)
  {
    hide Eligible, Pick, Less;
    PickIsNearest(ms, author, ts);
    var i :| 0 <= i < |ms| && IsNearest(ms, i, author, ts) && Pick(ms, author, ts) == Some(ms[i]);
    var j :| 0 <= j < |ms| && ms[j] == m;
    if ms[i] != m && i < j {
      BeforeAsym(ms[i], m);
    }
  }

  lemma WindowSize(rows: Table, conv: string, lo: int, hi: int)
    ensures |InWindow(rows, conv, lo, hi)| <= |rows|
  {
    var ids := set id | id in rows && rows[id].conv == conv && lo <= rows[id].ts <= hi;
    ImageSize(rows, ids);
    assert InWindow(rows, conv, lo, hi) == set id | id in ids :: rows[id];
    SubsetSize(ids, rows.Keys);
  }

  lemma PrefixAscends(S: set<Message>, n: int)
    requires Keyed(S)
    ensures Ascends(Limit(Ascending(S), n))
  {
    hide Ascending, Keyed, Before;
  }

  /** Where the limits do not bite, the closest candidate is found. */
  lemma {:induction false} ClosestFound(rows: Table, conv: string, ts: int, author: string, m: Message)
    requires |rows| <= 10 && ts != 0 && m.id in rows && rows[m.id] == m && Candidate(m, conv, ts, author)
    requires forall id :: id in rows && id != m.id && Candidate(rows[id], conv, ts, author) ==> Closer(m, rows[id], ts)
    ensures FindTarget(rows, conv, ts, author) == Some(m)
  {
    hide AddressesMatch, Pick, Ascending, Limit, Keyed, Before, InWindow, Eligible;
    var exact, near := InWindow(rows, conv, ts, ts), InWindow(rows, conv, ts - MATCH_WINDOW, ts + MATCH_WINDOW);
    WindowSize(rows, conv, ts, ts);
    WindowSize(rows, conv, ts - MATCH_WINDOW, ts + MATCH_WINDOW);
    PrefixAscends(exact, EXACT_LIMIT);
    PrefixAscends(near, WINDOW_LIMIT);
    if m.ts == ts {
      AllListed(exact, m, EXACT_LIMIT);
      PickClosest(AtTimestamp(rows, conv, ts), author, ts, m);
    } else {
      PickNone(AtTimestamp(rows, conv, ts), author, ts);
      AllListed(near, m, WINDOW_LIMIT);
      PickClosest(NearTimestamp(rows, conv, ts), author, ts, m);
    }
  }

  lemma {:induction false} NobodyFound(rows: Table, conv: string, ts: int, author: string)
    requires forall id :: id in rows ==> !Candidate(rows[id], conv, ts, author)
    ensures FindTarget(rows, conv, ts, author) == None
  {
    hide AddressesMatch, Pick, Ascending, Limit, Keyed, Before, InWindow, Eligible;
    PickNone(AtTimestamp(rows, conv, ts), author, ts);
    PickNone(NearTimestamp(rows, conv, ts), author, ts);
  }

  lemma FirstReaction(actor: string, emoji: string)
    ensures Updated([], actor, emoji) != [] <==> TrimSpace(emoji) != ""
  {
    hide TrimSpace, Updated;
    EmptyCanonical();
    if TrimSpace(emoji) != "" {
      UpdateLaw([], actor, emoji, TrimSpace(emoji));
    } else {
      NoReaction(actor, emoji);
    }
  }

  lemma NoReaction(actor: string, emoji: string)
    requires TrimSpace(emoji) == ""
    ensures Updated([], actor, emoji) == []
  {
    hide TrimSpace;
  }

  // ----- The three lines -----

  function Bare(h: Hashes, l: Line): Message
    requires l.Data?
  {
    DataRow(h, l, "").(senderName := "", reactions := [])
  }

  /** Nothing is stored but the two messages, as they were sent. */
  predicate Only(h: Hashes, rows: Table, a: Line, b: Line)
    requires a.Data? && b.Data?
  {
    && rows.Keys <= {DataId(h, a), DataId(h, b)}
    && (DataId(h, a) in rows ==> Cell(rows, DataId(h, a)) == Some(Bare(h, a)))
    && (DataId(h, b) in rows ==> Cell(rows, DataId(h, b)) == Some(Bare(h, b)))
  }

  lemma SameColumns(h: Hashes, rows: Table, l: Line)
    requires l.Data? && LineFine(h, l) && DataId(h, l) in rows && Cell(rows, DataId(h, l)) == Some(Bare(h, l))
    ensures var m := rows[DataId(h, l)]; PlaceOf(m) == LinePlace(l) && m.sourceId == SourceOf(h, l) && !IsPlaceholder(m)
  {
    hide TrimSpace, LineFine, DataId, DataRow;
    DataRowFacts(h, l, "");
  }

  lemma NeitherInTheWay(h: Hashes, rows: Table, a: Line, b: Line)
    requires a.Data? && b.Data? && Only(h, rows, a, b) && LineFine(h, a) && LineFine(h, b)
    requires DataId(h, a) != DataId(h, b)
    ensures NothingInTheWay(h, rows, a)
  {
    hide TrimSpace, LineFine, Bare, Cell, DataId, IsPlaceholder, SourceOf, LinePlace, AddressesMatch;
    SourceIsId(h, a);
    SourceIsId(h, b);
    if DataId(h, a) in rows { SameColumns(h, rows, a); }
    if DataId(h, b) in rows { SameColumns(h, rows, b); }
  }

  /** A message arrives, for the first time or again. */
  lemma {:induction false} Arrives(h: Hashes, account: string, s: State, a: Line, b: Line)
    requires Live(a, account) && LineFine(h, a) && b.Data? && LineFine(h, b) && DataId(h, a) != DataId(h, b)
    requires Only(h, s.rows, a, b)
    ensures var t := Handled(h, account, s, a, false).state;
      && t.rows.Keys == s.rows.Keys + {DataId(h, a)} && Only(h, t.rows, a, b)
      && forall id :: ReactionsOf(t.rows, id) == ReactionsOf(s.rows, id)
  {
    hide Effect, NothingInTheWay, LineFine, Cell, ReactionsOf, Ignored, DataId, Bare, Handled, Merge;
    var t := Handled(h, account, s, a, false).state;
    NeitherInTheWay(h, s.rows, a, b);
    DataEffect(h, account, map[], s, a);
    EffectKeys(h, account, map[], s, a);
    EffectCell(h, account, map[], s, a, DataId(h, a));
    EffectCell(h, account, map[], s, a, DataId(h, b));
    DeliveryIs(h, account, a, b);
    MergeSelf(Bare(h, a));
    CellThere(s.rows, DataId(h, a));
    forall id ensures ReactionsOf(t.rows, id) == ReactionsOf(s.rows, id) {
      EffectReactions(h, account, map[], s, a, id);
    }
  }

  lemma DeliveryIs(h: Hashes, account: string, a: Line, b: Line)
    requires Live(a, account) && b.Data? && DataId(h, a) != DataId(h, b)
    ensures Delivery(h, account, map[], a, DataId(h, a)) == Some(Bare(h, a))
    ensures Delivery(h, account, map[], a, DataId(h, b)) == None
  {
    hide DataRow, DataId, Ignored;
  }

  lemma CellThere(rows: Table, id: string)
    ensures Cell(rows, id).Some? <==> id in rows
  {
  }

  /** The reaction changes the list of the message it finds. */
  lemma {:induction false} ReactionLands(h: Hashes, account: string, s: State, r: Line, a: Line, b: Line, id: string)
    requires r.React? && Reacts(r) && a.Data? && b.Data? && Only(h, s.rows, a, b)
    ensures var t := Handled(h, account, s, r, false).state;
      var found := FindTarget(s.rows, ConversationId(r.o), r.target, r.author);
      && t.rows.Keys == s.rows.Keys && Only(h, t.rows, a, b)
      && ReactionsOf(t.rows, id) ==
         if found.Some? && found.value.id == id then Updated(ReactionsOf(s.rows, id), r.actor, r.emoji)
         else ReactionsOf(s.rows, id)
  {
    hide FindTarget, HasChange, Updated, ConversationId, DataId, Bare, Cell, ReactionsOf;
    var found := FindTarget(s.rows, ConversationId(r.o), r.target, r.author);
    if found.Some? {
      NoChangeNoUpdate(found.value.reactions, r);
      Relisted(s.rows, found.value.id, Updated(found.value.reactions, r.actor, r.emoji), DataId(h, a));
      Relisted(s.rows, found.value.id, Updated(found.value.reactions, r.actor, r.emoji), DataId(h, b));
      Relisted(s.rows, found.value.id, Updated(found.value.reactions, r.actor, r.emoji), id);
      Relisted(s.rows, found.value.id, found.value.reactions, id);
    }
  }

  lemma Relisted(rows: Table, id: string, rs: seq<Reaction>, x: string)
    requires id in rows
    ensures var t := rows[id := rows[id].(reactions := rs)];
      && Cell(t, x) == Cell(rows, x)
      && ReactionsOf(t, x) == if x == id then rs else ReactionsOf(rows, x)
    ensures rs == rows[id].reactions ==> ReactionsOf(rows, id) == rs
  {
  }

  lemma {:induction false} CandidateIs(h: Hashes, account: string, rows: Table, l: Line, r: Line)
    requires l.Data? && LineFine(h, l) && DataId(h, l) in rows && Cell(rows, DataId(h, l)) == Some(Bare(h, l)) &&
      r.React?
    ensures var m := rows[DataId(h, l)];
      && m.id == DataId(h, l) && m.ts == DataTime(l)
      && (Candidate(m, ConversationId(r.o), r.target, r.author) <==> Qualifies(l, r))
  {
    hide DataTime, ConversationId, DataId, Bare, Cell, LineFine, AddressesMatch;
    SameColumns(h, rows, l);
  }

  /** Among both messages the reaction finds the last one exactly when it means it. */
  lemma {:induction false} LastFoundExactly(h: Hashes, account: string, rows: Table, first: Line, r: Line, last: Line)
    requires AreThree(h, account, first, r, last) && Only(h, rows, first, last)
    requires rows.Keys == {DataId(h, first), DataId(h, last)}
    ensures var found := FindTarget(rows, ConversationId(r.o), r.target, r.author);
      (found.Some? && found.value.id == DataId(h, last)) <==> MeansLast(h, first, r, last)
  {
    hide FindTarget, ConversationId, DataId, AddressesMatch, Ignored, LineFine, DataTime, Less, Bare, Cell, Candidate,
      Qualifies;
    CandidateIs(h, account, rows, first, r);
    CandidateIs(h, account, rows, last, r);
    var a, b := rows[DataId(h, first)], rows[DataId(h, last)];
    TwoRows(rows, a, b);
    var conv := ConversationId(r.o);
    if MeansLast(h, first, r, last) {
      ClosestFound(rows, conv, r.target, r.author, b);
    } else if Qualifies(first, r) {
      CloserTotal(a, b, r.target);
      ClosestFound(rows, conv, r.target, r.author, a);
    } else {
      NobodyFound(rows, conv, r.target, r.author);
    }
  }

  lemma TwoRows(rows: Table, a: Message, b: Message)
    requires rows.Keys == {a.id, b.id} && a.id != b.id
    ensures |rows| == 2
  {
    assert |rows| == |rows.Keys|;
  }

  lemma CloserTotal(a: Message, b: Message, target: int)
    requires a.id != b.id
    ensures Closer(a, b, target) || Closer(b, a, target)
  {
    hide Less;
    BeforeTotal(a, b);
  }

  lemma RunAppends(h: Hashes, account: string, s: State, ls: seq<Line>, l: Line)
    ensures Run(h, account, s, ls + [l]) == Handled(h, account, Run(h, account, s, ls), l, false).state
  {
    hide Handled;
    assert (ls + [l])[..|ls|] == ls;
  }

  lemma ThreeLines(h: Hashes, account: string, s: State, a: Line, b: Line, c: Line)
    ensures Run(h, account, s, [a, b, c]) ==
      var s1 := Handled(h, account, s, a, false).state;
      Handled(h, account, Handled(h, account, s1, b, false).state, c, false).state
  {
    hide Handled, Run;
    assert Run(h, account, s, []) == s by { NoLinesRun(h, account, s); }
    RunAppends(h, account, s, [], a);
    RunAppends(h, account, s, [a], b);
    RunAppends(h, account, s, [a, b], c);
    assert [] + [a] == [a] && [a] + [b] == [a, b] && [a, b] + [c] == [a, b, c];
  }

  lemma NoLinesRun(h: Hashes, account: string, s: State)
    ensures Run(h, account, s, []) == s
  {
  }

  lemma NothingStored(h: Hashes, rows: Table, a: Line, b: Line)
    requires a.Data? && b.Data? && rows == map[]
    ensures Only(h, rows, a, b)
  {
    hide DataId, Bare;
  }

  lemma OnlySwaps(h: Hashes, rows: Table, a: Line, b: Line)
    requires a.Data? && b.Data? && Only(h, rows, a, b)
    ensures Only(h, rows, b, a)
  {
    hide DataId, Bare, Cell;
  }

  /** What the first two lines do to the last message's list. */
  lemma {:induction false} TwoOfThree(h: Hashes, account: string, s: State, first: Line, r: Line, last: Line)
    requires AreThree(h, account, first, r, last) && Only(h, s.rows, first, last)
    ensures var s1 := Handled(h, account, s, first, false).state; var t := Handled(h, account, s1, r, false).state;
      var id := DataId(h, last);
      && Only(h, t.rows, first, last) && t.rows.Keys == s.rows.Keys + {DataId(h, first)}
      && ReactionsOf(t.rows, id) ==
         if id in s.rows && MeansLast(h, first, r, last) then Updated(ReactionsOf(s.rows, id), r.actor, r.emoji)
         else ReactionsOf(s.rows, id)
  {
    hide Handled, FindTarget, ConversationId, DataId, Ignored, LineFine, DataTime, ReactionsOf, Cell, Bare, Only,
      Updated,
      MeansLast;
    var id := DataId(h, last);
    var s1 := Handled(h, account, s, first, false).state;
    OnlyKeys(h, s.rows, first, last);
    Arrives(h, account, s, first, last);
    ReactionLands(h, account, s1, r, first, last, id);
    if id in s.rows {
      LastFoundExactly(h, account, s1.rows, first, r, last);
    }
  }

  /** What the three lines do to the last message's list. */
  lemma {:induction false} Pass(h: Hashes, account: string, s: State, first: Line, r: Line, last: Line)
    requires AreThree(h, account, first, r, last) && Only(h, s.rows, first, last)
    ensures var t := Run(h, account, s, [first, r, last]); var id := DataId(h, last);
      && Only(h, t.rows, first, last) && t.rows.Keys == {DataId(h, first), id}
      && ReactionsOf(t.rows, id) ==
         if id in s.rows && MeansLast(h, first, r, last) then Updated(ReactionsOf(s.rows, id), r.actor, r.emoji)
         else ReactionsOf(s.rows, id)
  {
    hide Handled, ConversationId, DataId, Ignored, LineFine, DataTime, ReactionsOf, Run, Only, Updated, MeansLast;
    var s1 := Handled(h, account, s, first, false).state;
    var s2 := Handled(h, account, s1, r, false).state;
    ThreeLines(h, account, s, first, r, last);
    OnlyKeys(h, s.rows, first, last);
    TwoOfThree(h, account, s, first, r, last);
    OnlySwaps(h, s2.rows, first, last);
    Arrives(h, account, s2, last, first);
    OnlySwaps(h, Handled(h, account, s2, last, false).state.rows, last, first);
  }

  lemma OnlyKeys(h: Hashes, rows: Table, a: Line, b: Line)
    requires a.Data? && b.Data? && Only(h, rows, a, b)
    ensures rows.Keys <= {DataId(h, a), DataId(h, b)}
  {
    hide DataId, Cell, Bare;
  }

  /** Before the last line the last message is not stored. */
  lemma {:induction false} EarlyRows(h: Hashes, account: string, s: State, first: Line, r: Line, last: Line)
    requires s.rows == map[] && AreThree(h, account, first, r, last)
    ensures var a, b := Run(h, account, s, [first]).rows, Run(h, account, s, [first, r]).rows;
      && Only(h, a, first, last) && Only(h, b, first, last)
      && DataId(h, last) !in a && DataId(h, last) !in b
  {
    hide Handled, ConversationId, DataId, Ignored, LineFine, DataTime, Run, Only, FindTarget, Updated, ReactionsOf;
    NothingStored(h, s.rows, first, last);
    NoLinesRun(h, account, s);
    RunAppends(h, account, s, [], first);
    RunAppends(h, account, s, [first], r);
    assert [] + [first] == [first] && [first] + [r] == [first, r];
    Arrives(h, account, s, first, last);
    ReactionLands(h, account, Run(h, account, s, [first]), r, first, last, "");
  }

  /** What a crash leaves of the rows. */
  lemma {:induction false} StoppedEarly(h: Hashes, account: string, s: State, first: Line, r: Line, last: Line,
    p: Point)
    requires s.rows == map[] && AreThree(h, account, first, r, last) && IsPoint([first, r, last], p)
    ensures var x := Stopped(h, account, s, [first, r, last], p);
      && Only(h, x.rows, first, last)
      && (p != Between(3) ==> DataId(h, last) !in x.rows)
      && (p == Between(3) ==> x == Run(h, account, s, [first, r, last]))
  {
    hide AreThree, DataId, Run, Only, FirstWrite, MeansLast, Updated, ReactionsOf;
    ThreeAre(h, account, first, r, last);
    var ls := [first, r, last];
    assert ls[..3] == ls && ls[..2] == [first, r] && ls[..1] == [first] && ls[..0] == [];
    NothingStored(h, s.rows, first, last);
    NoLinesRun(h, account, s);
    EarlyRows(h, account, s, first, r, last);
    if p == Between(3) {
      Pass(h, account, s, first, r, last);
    } else if p.Inside? {
      FirstWriteRows(h, account, Run(h, account, s, ls[..p.lines]), ls[p.lines]);
    }
  }

  lemma FirstWriteRows(h: Hashes, account: string, s: State, l: Line)
    ensures FirstWrite(h, account, s, l).rows == s.rows
  {
    hide LineConversation, Speaks, ConversationId;
  }

  /** The last message is without reactions after the first pass, and has one after the drain. */
  predicate Gains(h: Hashes, account: string, s: State, ls: seq<Line>, p: Point, id: string)
    requires IsPoint(ls, p)
  {
    && ReactionsOf(Run(h, account, s, ls).rows, id) == []
    && ReactionsOf(Run(h, account, Stopped(h, account, s, ls, p), ls).rows, id) != []
  }

  /** Main result: from an empty store, a message, a reaction and another message. A crash and a drain
      give the last message a reaction it does not get without them exactly when the crash comes
      after all three lines, the reaction has an emoji, and it means the last message, which it
      could not find. Such lines are not safe to drain. */
  lemma {:induction false} LateTargetExactly(h: Hashes, account: string, s: State, first: Line, r: Line, last: Line,
        p: Point)
    requires s.rows == map[] && AreThree(h, account, first, r, last) && IsPoint([first, r, last], p)
    ensures Gains(h, account, s, [first, r, last], p, DataId(h, last)) <==>
      p == Between(3) && TrimSpace(r.emoji) != "" && MeansLast(h, first, r, last)
    ensures Gains(h, account, s, [first, r, last], p, DataId(h, last)) ==>
      !SafeFrom(h, account, s, [first, r, last]) && !Batch(h, account, s.rows, [first, r, last])
  {
    hide AreThree, DataId, ReactionsOf, Run, Interruptions, Batch, SafeFrom, Stopped, Only, MeansLast, Updated,
      TrimSpace;
    ThreeAre(h, account, first, r, last);
    var ls, id := [first, r, last], DataId(h, last);
    NothingStored(h, s.rows, first, last);
    Pass(h, account, s, first, r, last);
    StoppedEarly(h, account, s, first, r, last, p);
    Pass(h, account, Stopped(h, account, s, ls, p), first, r, last);
    NoReactions(s.rows, id);
    NoReactions(Stopped(h, account, s, ls, p).rows, id);
    FirstReaction(r.actor, r.emoji);
    OneInterruption(h, account, s, ls, p);
    if Gains(h, account, s, ls, p, id) {
      UnsafeList(h, account, s, ls, p, id);
    }
  }

  lemma ThreeAre(h: Hashes, account: string, first: Line, r: Line, last: Line)
    requires AreThree(h, account, first, r, last)
    ensures first.Data? && r.React? && last.Data?
  {
  }

  lemma NoReactions(rows: Table, id: string)
    ensures id !in rows ==> ReactionsOf(rows, id) == []
  {
  }

  lemma {:induction false} UnsafeList(h: Hashes, account: string, s: State, ls: seq<Line>, p: Point, id: string)
    requires IsPoint(ls, p)
    requires ReactionsOf(Interruptions(h, account, s, ls, [p]).rows, id) != ReactionsOf(Run(h, account, s, ls).rows, id)
    ensures !SafeFrom(h, account, s, ls) && !Batch(h, account, s.rows, ls)
  {
    hide ReactionsOf, Run, Interruptions, Batch, Cell, Extra, Raised;
    assert ArePoints(ls, [p]) && !SameButUnread(h, account, s, ls, [p]);
    if Batch(h, account, s.rows, ls) {
      CrashesAreAlike(h, account, s, ls, [p], "");
      assert false;
    }
  }
}
