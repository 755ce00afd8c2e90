/** Applying a batch of lines a second time: rows, reaction lists and conversations stay as the first
    pass left them, sender names apart. */
module SignalReplay {
  import opened Text
  import opened Records
  import opened Ordering
  import opened Upsert
  import opened SignalReactions
  import opened ReactionHistory
  import opened SignalStore
  import opened SignalEdits
  import opened SignalBatch

  // ----- A second pass changes nothing but sender names: the rows -----

  /** A row without its sender name and reactions. */
  function Cell(rows: Table, id: string): Option<Message> {
    if id in rows then Some(rows[id].(senderName := "", reactions := [])) else None
  }

  function Join(a: Option<Message>, b: Option<Message>): Option<Message> {
    if a.None? then b else if b.None? then a else Some(Merge(a.value, b.value))
  }

  /** What an edit brings for its message. */
  function Change(l: Line, id: string): Message
    requires l.Edit?
  {
    WithMedia(Message(id, ConversationId(l.o), "", "", l.c.body, 0, "received", false, l.c.mentionsMe, "", "", "", [],
                      l.c.replyTo, "signal", ""), l.c)
  }

  ghost function Delivery(h: Hashes, account: string, k: Places, l: Line, id: string): Option<Message> {
    if Live(l, account) && DataId(h, l) == id then Some(DataRow(h, l, "").(senderName := "", reactions := []))
    else if Edits(l, account) && TargetOf(k, l) == id then Some(Change(l, id))
    else None
  }

  /** Everything the lines deliver for one id, merged. */
  ghost function Deliveries(h: Hashes, account: string, k: Places, ls: seq<Line>, id: string): Option<Message> {
    if ls == [] then None else
      Join(Deliveries(h, account, k, ls[..|ls| - 1], id), Delivery(h, account, k, ls[|ls| - 1], id))
  }

  lemma JoinLaws(a: Option<Message>, b: Option<Message>, c: Option<Message>)
    ensures Join(Join(a, b), c) == Join(a, Join(b, c))
    ensures Join(Join(a, b), b) == Join(a, b)
  {
    hide Merge;
    if a.Some? && b.Some? && c.Some? {
      MergeBand(a.value, b.value, c.value);
    }
    if a.Some? && b.Some? {
      MergeBand(a.value, b.value, b.value);
    }
    if b.Some? {
      MergeSelf(b.value);
    }
  }

  lemma MergeSelf(a: Message)
    ensures Merge(a, a) == a
  {
  }

  lemma BareMerge(o: Message, m: Message, b: Message)
    requires b == m.(senderName := "", reactions := []) && m.reactions == []
    ensures Merge(o, m).(senderName := "", reactions := []) == Merge(o.(senderName := "", reactions := []), b)
    ensures Merge(o, m).reactions == o.reactions
    ensures Merge(o, m).senderName == Keep(m.senderName, o.senderName)
  {
  }

  lemma BareRow(h: Hashes, l: Line, name: string)
    requires l.Data?
    ensures DataRow(h, l, name).(senderName := "", reactions := [])
      == DataRow(h, l, "").(senderName := "", reactions := [])
    ensures DataRow(h, l, name).reactions == []
    ensures DataRow(h, l, name).senderName == NameOf(l, name)
    ensures DataRow(h, l, name).id == DataId(h, l)
  {
    hide TrimSpace;
  }

  /** The sender name a data line stores in a conversation of that name. */
  function NameOf(l: Line, convName: string): string
    requires l.Data?
  {
    FirstNonEmpty(FirstNonEmpty(Label(l.o), convName), l.o.source)
  }

  function ReactionsOf(rows: Table, id: string): seq<Reaction> {
    if id in rows then rows[id].reactions else []
  }

  lemma {:induction false} StoredCell(rows: Table, h: Hashes, l: Line, name: string, id: string)
    requires l.Data?
    ensures Cell(Stored(rows, DataRow(h, l, name)), id) ==
      Join(Cell(rows, id), if DataId(h, l) == id
        then Some(DataRow(h, l, "").(senderName := "", reactions := [])) else None)
    ensures ReactionsOf(Stored(rows, DataRow(h, l, name)), id) == ReactionsOf(rows, id)
  {
    hide DataRow, DataId, Merge;
    var m := DataRow(h, l, name);
    BareRow(h, l, name);
    if m.id in rows {
      BareMerge(rows[m.id], m, m.(senderName := "", reactions := []));
    }
  }

  function UpdateOf(k: Places, l: Line, id: string, target: string): seq<Update> {
    if Reacts(l) && target == id then [Update(l.actor, l.emoji)] else []
  }

  /** The updates the lines make to one id's list. */
  ghost function UpdatesOf(k: Places, ls: seq<Line>, id: string): seq<Update> {
    if ls == [] then [] else
      var l := ls[|ls| - 1];
      UpdatesOf(k, ls[..|ls| - 1], id) + if l.React? then UpdateOf(k, l, id, TargetOf(k, l)) else []
  }

  /** On a row the batch has delivered, an edit is one more delivery. */
  lemma ChangeMerges(m: Message, l: Line)
    requires l.Edit? && Plain(m, ConversationId(l.o))
    ensures Merge(m, EditedRow(m, l.c)).(senderName := "", reactions := [])
      == Merge(m.(senderName := "", reactions := []), Change(l, m.id))
  {
    hide IsSignalRow, ConversationId;
    assert m.platform == "signal" by { SignalPlatform(m); }
  }

  lemma SignalPlatform(m: Message)
    requires IsSignalRow(m)
    ensures m.platform == "signal"
  {
  }

  /** The row an edit meets is one the batch has delivered. */
  ghost predicate Meets(account: string, k: Places, rows: Table, l: Line) {
    Edits(l, account) ==> TargetOf(k, l) in rows && Plain(rows[TargetOf(k, l)], ConversationId(l.o))
  }

  lemma {:induction false} EffectCell(h: Hashes, account: string, k: Places, s: State, l: Line, id: string)
    requires Meets(account, k, s.rows, l)
    ensures Cell(Effect(h, account, k, s, l).rows, id) == Join(Cell(s.rows, id), Delivery(h, account, k, l, id))
  {
    hide DataRow, DataId, Ignored, DataConversation, EditConversation, Updated, TargetOf, Stored, Merge, Plain, Change,
      EditedRow, ConversationId;
    if Live(l, account) {
      StoredCell(s.rows, h, l,
        DataConversation(Existing(s.convs, ConversationId(l.o)), l.o, DataTime(l), DataId(h, l) !in s.rows).name, id);
    } else if Edits(l, account) {
      ChangeMerges(s.rows[TargetOf(k, l)], l);
    }
  }

  lemma EffectReactions(h: Hashes, account: string, k: Places, s: State, l: Line, id: string)
    requires Reacts(l) ==> TargetOf(k, l) in s.rows
    ensures ReactionsOf(Effect(h, account, k, s, l).rows, id) ==
      if l.React? then RunFrom(ReactionsOf(s.rows, id), UpdateOf(k, l, id, TargetOf(k, l))) else ReactionsOf(s.rows, id)
  {
    hide DataRow, DataId, Ignored, DataConversation, EditConversation, Updated, TargetOf, Stored, Merge, EditedRow;
    if Live(l, account) {
      StoredCell(s.rows, h, l,
        DataConversation(Existing(s.convs, ConversationId(l.o)), l.o, DataTime(l), DataId(h, l) !in s.rows).name, id);
    } else if Edits(l, account) && TargetOf(k, l) in s.rows {
      EditLeaves(s.rows[TargetOf(k, l)], l.c);
    } else if l.React? {
      RunOne(ReactionsOf(s.rows, id), l.actor, l.emoji);
    }
  }

  lemma RunOne(rs: seq<Reaction>, actor: string, emoji: string)
    ensures RunFrom(rs, []) == rs
    ensures RunFrom(rs, [Update(actor, emoji)]) == Updated(rs, actor, emoji)
  {
    hide Updated;
    assert [Update(actor, emoji)][..0] == [];
  }

  lemma {:induction false} RunConcat(rs: seq<Reaction>, a: seq<Update>, b: seq<Update>)
    ensures RunFrom(rs, a + b) == RunFrom(RunFrom(rs, a), b)
  {
    hide Updated;
    if b == [] {
      assert a + b == a;
    } else {
      RunConcat(rs, a, b[..|b| - 1]);
      assert (a + b)[..|a + b| - 1] == a + b[..|b| - 1];
    }
  }

  lemma OrderBefore(h: Hashes, account: string, k: Places, s: State, ls: seq<Line>)
    requires ls != [] && AllInOrder(h, account, k, s.rows.Keys, ls)
    ensures AllInOrder(h, account, k, s.rows.Keys, ls[..|ls| - 1]) && LineFine(h, ls[|ls| - 1])
    ensures var t := Effects(h, account, k, s, ls[..|ls| - 1]);
      && Meets(account, k, t.rows, ls[|ls| - 1])
      && (Aims(ls[|ls| - 1], account) ==> TargetOf(k, ls[|ls| - 1]) in t.rows)
  {
    hide ExactIn, Delivered, TargetOf, LineFine, Expected, Effects, Plain, Ignored;
    assert InOrder(h, account, k, s.rows.Keys, ls, |ls| - 1);
    OrderPrefix(h, account, k, s.rows.Keys, ls, |ls| - 1);
    EffectsKeys(h, account, k, s, ls[..|ls| - 1]);
    if Edits(ls[|ls| - 1], account) {
      EditMeets(h, account, k, s, ls);
    }
  }

  lemma {:induction false} EffectsCell(h: Hashes, account: string, k: Places, s: State, ls: seq<Line>, id: string)
    requires AllInOrder(h, account, k, s.rows.Keys, ls)
    ensures Cell(Effects(h, account, k, s, ls).rows, id) == Join(Cell(s.rows, id), Deliveries(h, account, k, ls, id))
  {
    hide Effect, Delivery, Cell, Merge, AllInOrder, Meets, Aims, LineFine;
    if ls != [] {
      OrderBefore(h, account, k, s, ls);
      EffectsCell(h, account, k, s, ls[..|ls| - 1], id);
      EffectCell(h, account, k, Effects(h, account, k, s, ls[..|ls| - 1]), ls[|ls| - 1], id);
      JoinLaws(Cell(s.rows, id), Deliveries(h, account, k, ls[..|ls| - 1], id),
        Delivery(h, account, k, ls[|ls| - 1], id));
    }
  }

  lemma {:induction false} EffectsReactions(h: Hashes, account: string, k: Places, s: State, ls: seq<Line>, id: string)
    requires AllInOrder(h, account, k, s.rows.Keys, ls)
    ensures ReactionsOf(Effects(h, account, k, s, ls).rows, id)
      == RunFrom(ReactionsOf(s.rows, id), UpdatesOf(k, ls, id))
  {
    hide Effect, ReactionsOf, AllInOrder, UpdateOf, TargetOf, RunFrom, Delivered, Meets, LineFine;
    if ls == [] {
      RunOne(ReactionsOf(s.rows, id), "", "");
    } else {
      var init, l := ls[..|ls| - 1], ls[|ls| - 1];
      OrderBefore(h, account, k, s, ls);
      EffectsReactions(h, account, k, s, init, id);
      EffectReactions(h, account, k, Effects(h, account, k, s, init), l, id);
      if l.React? {
        RunConcat(ReactionsOf(s.rows, id), UpdatesOf(k, init, id), UpdateOf(k, l, id, TargetOf(k, l)));
      } else {
        assert UpdatesOf(k, init, id) + [] == UpdatesOf(k, init, id);
      }
    }
  }

  lemma {:induction false} UpdatesNamed(h: Hashes, k: Places, ls: seq<Line>, id: string)
    requires forall i :: 0 <= i < |ls| ==> LineFine(h, ls[i])
    ensures NoneAnonymous(UpdatesOf(k, ls, id))
  {
    hide TrimSpace, TargetOf, Hex;
    if ls != [] {
      UpdatesNamed(h, k, ls[..|ls| - 1], id);
      assert LineFine(h, ls[|ls| - 1]);
    }
  }

  /** Applying the lines twice to the rows is applying them once, sender names apart. */
  lemma {:induction false} RowsIdempotent(h: Hashes, account: string, k: Places, s: State, p: seq<Line>, id: string)
    requires AllInOrder(h, account, k, s.rows.Keys, p)
    requires Canonical(ReactionsOf(s.rows, id)) || UpdatesOf(k, p, id) == []
    ensures var once := Effects(h, account, k, s, p); var twice := Effects(h, account, k, once, p);
      && Cell(twice.rows, id) == Cell(once.rows, id)
      && ReactionsOf(twice.rows, id) == ReactionsOf(once.rows, id)
      && twice.rows.Keys == once.rows.Keys
  {
    hide Cell, ReactionsOf, AllInOrder, Effects, Deliveries, UpdatesOf, RunFrom, LineFine, Canonical, Delivered, Join;
    var once := Effects(h, account, k, s, p);
    EffectsKeys(h, account, k, s, p);
    EffectsKeys(h, account, k, once, p);
    OrderMore(h, account, k, s.rows.Keys, once.rows.Keys, p);
    EffectsCell(h, account, k, s, p, id);
    EffectsCell(h, account, k, once, p, id);
    JoinLaws(Cell(s.rows, id), Deliveries(h, account, k, p, id), None);
    EffectsReactions(h, account, k, s, p, id);
    EffectsReactions(h, account, k, once, p, id);
    if UpdatesOf(k, p, id) == [] {
      RunOne(ReactionsOf(s.rows, id), "", "");
    } else {
      AllFine(h, account, k, s.rows.Keys, p);
      UpdatesNamed(h, k, p, id);
      ReplayIsNoChange(ReactionsOf(s.rows, id), UpdatesOf(k, p, id));
    }
  }

  lemma AllFine(h: Hashes, account: string, k: Places, keys: set<string>, ls: seq<Line>)
    requires AllInOrder(h, account, k, keys, ls)
    ensures forall i :: 0 <= i < |ls| ==> LineFine(h, ls[i])
  {
    hide LineFine, Expected, Finds, TargetOf, Delivered;
    forall i | 0 <= i < |ls| ensures LineFine(h, ls[i]) {
      assert InOrder(h, account, k, keys, ls, i);
    }
  }

  lemma OrderMore(h: Hashes, account: string, k: Places, a: set<string>, b: set<string>, ls: seq<Line>)
    requires AllInOrder(h, account, k, a, ls) && a <= b
    ensures AllInOrder(h, account, k, b, ls)
  {
    hide ExactIn, Delivered, TargetOf;
    forall i | 0 <= i < |ls| ensures InOrder(h, account, k, b, ls, i) {
      assert InOrder(h, account, k, a, ls, i);
    }
  }

  // ----- A second pass changes nothing but sender names: the conversations -----

  /** The line says something of its conversation. */
  predicate Speaks(l: Line, account: string) { Live(l, account) || Edits(l, account) }

  predicate Belongs(l: Line, account: string, c: string) { Speaks(l, account) && ConversationId(l.o) == c }

  predicate DeliversTo(l: Line, account: string, c: string) { Live(l, account) && ConversationId(l.o) == c }

  /** The last title the lines give the conversation. */
  function LastTitle(account: string, ls: seq<Line>, c: string): string {
    if ls == [] then ""
    else if Belongs(ls[|ls| - 1], account, c) && ls[|ls| - 1].o.groupId != "" && ls[|ls| - 1].o.groupTitle != ""
      then ls[|ls| - 1].o.groupTitle
    else LastTitle(account, ls[..|ls| - 1], c)
  }

  /** A person's conversation lists that person; an edit prefers the conversation's name. */
  function People(l: Line, name: string): seq<(string, string)> {
    if l.Edit? then [(FirstNonEmpty(FirstNonEmpty(name, Label(l.o)), l.o.source), l.o.source)]
    else [(Label(l.o), l.o.source)]
  }

  /** The participants the last line to a person's conversation leaves. */
  function LastParticipants(account: string, ls: seq<Line>, c: string, name: string,
      start: seq<(string, string)>): seq<(string, string)> {
    if ls == [] then start
    else if Belongs(ls[|ls| - 1], account, c) && ls[|ls| - 1].o.groupId == "" then People(ls[|ls| - 1], name)
    else LastParticipants(account, ls[..|ls| - 1], c, name, start)
  }

  function NameAfter(account: string, ls: seq<Line>, c: string, start: string): string {
    if LastTitle(account, ls, c) != "" then LastTitle(account, ls, c) else start
  }

  lemma SameKind(a: Origin, b: Origin)
    requires ConversationId(a) == ConversationId(b)
    ensures a.groupId != "" <==> b.groupId != ""
  {
    assert ("signal-group:" + a.groupId)[6] == '-' && ("signal-group:" + b.groupId)[6] == '-';
    assert ("signal:" + a.source)[6] == ':' && ("signal:" + b.source)[6] == ':';
  }

  lemma NamedLine(l: Line, account: string, name: string)
    requires Speaks(l, account)
    ensures Titled(l.o, name) != ""
    ensures l.o.groupId != "" && l.o.groupTitle != "" ==> Titled(l.o, name) == l.o.groupTitle
    ensures !(l.o.groupId != "" && l.o.groupTitle != "") && name != "" ==> Titled(l.o, name) == name
  {
    hide AddressesMatch;
  }

  /** What a line leaves of a conversation it does not belong to. */
  lemma OtherConversation(h: Hashes, account: string, k: Places, s: State, l: Line, c: string)
    requires !Belongs(l, account, c)
    ensures Existing(Effect(h, account, k, s, l).convs, c) == Existing(s.convs, c)
  {
    hide Ignored, Stored, DataRow, DataConversation, EditConversation, Reacted, Reworked, TargetOf;
  }

  /** The conversation a line leaves. */
  function LineConversation(h: Hashes, rows: Table, existing: Option<Conversation>, l: Line): Conversation {
    if l.Data? then DataConversation(existing, l.o, DataTime(l), DataId(h, l) !in rows)
    else EditConversation(existing, l.o)
  }

  lemma OwnConversation(h: Hashes, account: string, k: Places, s: State, l: Line, c: string)
    requires Belongs(l, account, c)
    ensures Existing(Effect(h, account, k, s, l).convs, c) == Some(LineConversation(h, s.rows, Existing(s.convs, c), l))
  {
    hide Ignored, Stored, DataRow, DataConversation, EditConversation, Reacted, Reworked, TargetOf;
  }

  /** The conversation carries everything the lines say of it. */
  predicate Carries(h: Hashes, account: string, s: State, ls: seq<Line>, c: string) {
    && (forall i :: 0 <= i < |ls| && Belongs(ls[i], account, c) ==>
      c in s.convs && CarriesLine(h, s, s.convs[c], ls[i]))
    && (c in s.convs && LastTitle(account, ls, c) != "" ==> s.convs[c].name == LastTitle(account, ls, c))
    && (c in s.convs ==>
          s.convs[c].participants == LastParticipants(account, ls, c, s.convs[c].name, s.convs[c].participants))
  }

  function LineTime(l: Line): int { if l.Data? then DataTime(l) else l.o.ts }

  predicate CarriesLine(h: Hashes, s: State, v: Conversation, l: Line) {
    && v.name != "" && v.platform == "signal" && v.isGroup == (l.o.groupId != "")
    && LineTime(l) <= v.lastTS && (l.Data? ==> DataId(h, l) in s.rows)
  }

  lemma CarriesStep(h: Hashes, account: string, k: Places, s: State, ls: seq<Line>, l: Line, c: string)
    requires Carries(h, account, s, ls, c) && Belongs(l, account, c)
    ensures Carries(h, account, Effect(h, account, k, s, l), ls + [l], c)
  {
    hide Carries, Ignored, DataId, ConversationId, LineTime, Titled, Label, Stored, Effect, LastTitle, LastParticipants,
      LineConversation;
    var t := Effect(h, account, k, s, l);
    OwnConversation(h, account, k, s, l, c);
    EffectKeys(h, account, k, s, l);
    var v := t.convs[c];
    var all := ls + [l];
    forall i | 0 <= i < |all| && Belongs(all[i], account, c) ensures CarriesLine(h, t, v, all[i]) {
      SameKind(all[i].o, l.o);
      OwnLine(h, account, s, l, c);
      if i < |ls| {
        CarriesOf(h, account, s, ls, c, i);
      }
    }
    CarriesLast(h, account, s, ls, l, c);
    CarriesIs(h, account, t, all, c);
  }

  lemma CarriesOf(h: Hashes, account: string, s: State, ls: seq<Line>, c: string, i: nat)
    requires Carries(h, account, s, ls, c) && i < |ls| && Belongs(ls[i], account, c)
    ensures c in s.convs && CarriesLine(h, s, s.convs[c], ls[i])
  {
    hide Belongs, CarriesLine, LastTitle, LastParticipants;
  }

  lemma CarriesIs(h: Hashes, account: string, s: State, ls: seq<Line>, c: string)
    requires c in s.convs && forall i :: 0 <= i < |ls| && Belongs(ls[i], account, c) ==>
      CarriesLine(h, s, s.convs[c], ls[i])
    requires LastTitle(account, ls, c) != "" ==> s.convs[c].name == LastTitle(account, ls, c)
    requires s.convs[c].participants == LastParticipants(account, ls, c, s.convs[c].name, s.convs[c].participants)
    ensures Carries(h, account, s, ls, c)
  {
    hide Belongs, CarriesLine, LastTitle, LastParticipants;
  }

  /** The columns a line sets. */
  lemma OwnLine(h: Hashes, account: string, s: State, l: Line, c: string)
    requires Belongs(l, account, c)
    ensures var v := LineConversation(h, s.rows, Existing(s.convs, c), l);
      && v.name != "" && v.platform == "signal" && v.isGroup == (l.o.groupId != "") && LineTime(l) <= v.lastTS
      && (c in s.convs ==> s.convs[c].lastTS <= v.lastTS)
  {
    hide Ignored, ConversationId, DataTime, DataId, Titled, Label;
    NamedLine(l, account, if c in s.convs then s.convs[c].name else Label(l.o));
  }

  lemma CarriesLast(h: Hashes, account: string, s: State, ls: seq<Line>, l: Line, c: string)
    requires Carries(h, account, s, ls, c) && Belongs(l, account, c)
    ensures var v := LineConversation(h, s.rows, Existing(s.convs, c), l); var all := ls + [l];
      && (LastTitle(account, all, c) != "" ==> v.name == LastTitle(account, all, c))
      && v.participants == LastParticipants(account, all, c, v.name, v.participants)
  {
    hide Ignored, ConversationId, DataTime, DataId, Label, CarriesLine, Titled, FirstNonEmpty;
    var all := ls + [l];
    assert all[..|all| - 1] == ls;
    NamedLine(l, account, if c in s.convs then s.convs[c].name else Label(l.o));
    if c !in s.convs {
      NoLines(account, s, ls, c);
      NothingSaid(account, ls, c, "", []);
    }
    if l.o.groupId != "" {
      var v := LineConversation(h, s.rows, Existing(s.convs, c), l);
      GroupKeeps(account, ls, l, c, v.name, v.participants);
    }
  }

  lemma NoLines(account: string, s: State, ls: seq<Line>, c: string)
    requires c !in s.convs && forall i :: 0 <= i < |ls| && Belongs(ls[i], account, c) ==> c in s.convs
    ensures forall i :: 0 <= i < |ls| ==> !Belongs(ls[i], account, c)
  {
    hide Belongs;
  }

  lemma {:induction false} NothingSaid(account: string, ls: seq<Line>, c: string, name: string,
        start: seq<(string, string)>)
    requires forall i :: 0 <= i < |ls| ==> !Belongs(ls[i], account, c)
    ensures LastTitle(account, ls, c) == "" && LastParticipants(account, ls, c, name, start) == start
  {
    hide Belongs, People;
    if ls != [] {
      assert forall i :: 0 <= i < |ls| - 1 ==> ls[..|ls| - 1][i] == ls[i];
      NothingSaid(account, ls[..|ls| - 1], c, name, start);
    }
  }

  /** Lines to a group leave the participants. */
  lemma {:induction false} GroupKeeps(account: string, ls: seq<Line>, l: Line, c: string, name: string,
        start: seq<(string, string)>)
    requires Belongs(l, account, c) && l.o.groupId != ""
    ensures LastParticipants(account, ls, c, name, start) == start
  {
    hide Speaks, ConversationId, People;
    if ls != [] {
      GroupKeeps(account, ls[..|ls| - 1], l, c, name, start);
      if Belongs(ls[|ls| - 1], account, c) {
        SameKind(ls[|ls| - 1].o, l.o);
      }
    }
  }

  /** A person's conversation gets no titles. */
  lemma {:induction false} PersonUntitled(account: string, ls: seq<Line>, l: Line, c: string)
    requires Belongs(l, account, c) && l.o.groupId == ""
    ensures LastTitle(account, ls, c) == ""
  {
    hide Speaks, ConversationId;
    if ls != [] {
      PersonUntitled(account, ls[..|ls| - 1], l, c);
      if Belongs(ls[|ls| - 1], account, c) {
        SameKind(ls[|ls| - 1].o, l.o);
      }
    }
  }

  lemma CarriesOther(h: Hashes, account: string, k: Places, s: State, ls: seq<Line>, l: Line, c: string)
    requires Carries(h, account, s, ls, c) && !Belongs(l, account, c)
    ensures Carries(h, account, Effect(h, account, k, s, l), ls + [l], c)
  {
    hide Ignored, Effect, DataId, DataTime, ConversationId;
    var t, all := Effect(h, account, k, s, l), ls + [l];
    OtherConversation(h, account, k, s, l, c);
    EffectKeys(h, account, k, s, l);
    assert all[..|all| - 1] == ls;
    assert c in t.convs <==> c in s.convs;
    forall i | 0 <= i < |all| && Belongs(all[i], account, c)
      ensures c in t.convs && CarriesLine(h, t, t.convs[c], all[i]) {
      CarriesOf(h, account, s, ls, c, i);
    }
  }

  lemma {:induction false} RunCarries(h: Hashes, account: string, k: Places, s: State, ls: seq<Line>, c: string)
    ensures Carries(h, account, Effects(h, account, k, s, ls), ls, c)
  {
    hide Effect, Carries, Belongs;
    if ls == [] {
      CarriesNothing(h, account, s, c);
    } else {
      var init, l := ls[..|ls| - 1], ls[|ls| - 1];
      RunCarries(h, account, k, s, init, c);
      assert ls == init + [l];
      if Belongs(l, account, c) {
        CarriesStep(h, account, k, Effects(h, account, k, s, init), init, l, c);
      } else {
        CarriesOther(h, account, k, Effects(h, account, k, s, init), init, l, c);
      }
    }
  }

  lemma CarriesNothing(h: Hashes, account: string, s: State, c: string)
    ensures Carries(h, account, s, [], c)
  {
  }

  lemma {:induction false} Untouched(h: Hashes, account: string, k: Places, s: State, ls: seq<Line>, c: string)
    requires forall i :: 0 <= i < |ls| ==> !Belongs(ls[i], account, c)
    ensures Existing(Effects(h, account, k, s, ls).convs, c) == Existing(s.convs, c)
  {
    hide Effect, Belongs, Existing;
    if ls != [] {
      assert forall i :: 0 <= i < |ls| - 1 ==> ls[..|ls| - 1][i] == ls[i];
      Untouched(h, account, k, s, ls[..|ls| - 1], c);
      OtherConversation(h, account, k, Effects(h, account, k, s, ls[..|ls| - 1]), ls[|ls| - 1], c);
    }
  }

  /** One more line to a conversation that carries it already. */
  lemma CarriedLine(h: Hashes, account: string, s: State, rows: Table, v: Conversation, w: Conversation, l: Line)
    requires Speaks(l, account) && CarriesLine(h, s, v, l) && s.rows.Keys <= rows.Keys
    requires w.name != "" && w == v.(name := w.name, participants := w.participants)
    ensures LineConversation(h, rows, Some(w), l) ==
      v.(name := if l.o.groupId != "" && l.o.groupTitle != "" then l.o.groupTitle else w.name,
         participants := if l.o.groupId != "" then w.participants else People(l, w.name))
  {
    hide Ignored, DataId, DataTime, Label, Titled, FirstNonEmpty;
    NamedLine(l, account, w.name);
  }

  /** Running lines again that a conversation carries: only the last title and participants count. */
  lemma {:induction false} Rerun(h: Hashes, account: string, k: Places, s: State, q: seq<Line>, c: string)
    requires c in s.convs && s.convs[c].name != ""
    requires forall i :: 0 <= i < |q| && Belongs(q[i], account, c) ==> CarriesLine(h, s, s.convs[c], q[i])
    ensures var v := s.convs[c];
      Existing(Effects(h, account, k, s, q).convs, c)
      == Some(v.(name := NameAfter(account, q, c, v.name),
        participants := LastParticipants(account, q, c, v.name, v.participants)))
  {
    hide Effect, CarriesLine, Ignored, LineTime, DataId, Label, ConversationId, LineConversation, People;
    if q != [] {
      var init, l, v := q[..|q| - 1], q[|q| - 1], s.convs[c];
      assert forall i :: 0 <= i < |init| ==> init[i] == q[i];
      Rerun(h, account, k, s, init, c);
      var mid := Effects(h, account, k, s, init);
      EffectsKeys(h, account, k, s, init);
      if Belongs(l, account, c) {
        OwnConversation(h, account, k, mid, l, c);
        CarriedLine(h, account, s, mid.rows, v, mid.convs[c], l);
        if l.o.groupId == "" {
          PersonUntitled(account, init, l, c);
        }
      } else {
        OtherConversation(h, account, k, mid, l, c);
      }
    }
  }

  lemma ConversationIdempotent(h: Hashes, account: string, k: Places, s: State, p: seq<Line>, c: string)
    ensures var once := Effects(h, account, k, s, p);
      Existing(Effects(h, account, k, once, p).convs, c) == Existing(once.convs, c)
  {
    hide Effects, Belongs, CarriesLine, LastTitle, LastParticipants, Carries, Existing;
    var once := Effects(h, account, k, s, p);
    RunCarries(h, account, k, s, p, c);
    if i :| 0 <= i < |p| && Belongs(p[i], account, c) {
      CarriedParts(h, account, once, p, c, i);
      Rerun(h, account, k, once, p, c);
      NameStays(account, once, p, c);
      ExistingIs(once.convs, c);
    } else {
      Untouched(h, account, k, once, p, c);
    }
  }

  lemma ExistingIs(convs: Conversations, c: string)
    requires c in convs
    ensures Existing(convs, c) == Some(convs[c])
  {
  }

  lemma CarriedParts(h: Hashes, account: string, s: State, p: seq<Line>, c: string, i: nat)
    requires Carries(h, account, s, p, c) && i < |p| && Belongs(p[i], account, c)
    ensures c in s.convs && s.convs[c].name != ""
    ensures forall j :: 0 <= j < |p| && Belongs(p[j], account, c) ==> CarriesLine(h, s, s.convs[c], p[j])
    ensures LastTitle(account, p, c) != "" ==> s.convs[c].name == LastTitle(account, p, c)
    ensures s.convs[c].participants == LastParticipants(account, p, c, s.convs[c].name, s.convs[c].participants)
  {
    hide DataId, DataTime, LastTitle, LastParticipants, ConversationId, Ignored;
    CarriesOf(h, account, s, p, c, i);
  }

  lemma NameStays(account: string, s: State, p: seq<Line>, c: string)
    requires c in s.convs && (LastTitle(account, p, c) != "" ==> s.convs[c].name == LastTitle(account, p, c))
    requires s.convs[c].participants == LastParticipants(account, p, c, s.convs[c].name, s.convs[c].participants)
    ensures var v := s.convs[c];
      v.(name := NameAfter(account, p, c, v.name),
        participants := LastParticipants(account, p, c, v.name, v.participants)) == v
  {
    hide LastTitle, LastParticipants;
  }

  // ----- Sender names apart -----

  /** Equal but for sender names. */
  ghost predicate RowsAlike(a: Table, b: Table) {
    && a.Keys == b.Keys
    && forall id :: Cell(a, id) == Cell(b, id) && ReactionsOf(a, id) == ReactionsOf(b, id)
  }

  ghost predicate Alike(s: State, t: State) {
    s.convs == t.convs && RowsAlike(s.rows, t.rows)
  }

  lemma SameExisting(a: Conversations, b: Conversations)
    requires forall c :: Existing(a, c) == Existing(b, c)
    ensures a == b
  {
    forall c ensures c in a <==> c in b {
      assert Existing(a, c) == Existing(b, c);
    }
    forall c | c in a ensures a[c] == b[c] {
      assert Existing(a, c) == Existing(b, c);
    }
  }

  lemma {:induction false} TwiceIsAlike(h: Hashes, account: string, k: Places, s: State, p: seq<Line>)
    requires Ready(h, account, k, s, p)
    ensures var once := Effects(h, account, k, s, p); Alike(Effects(h, account, k, once, p), once)
  {
    hide Effects, Cell, ReactionsOf, Clear, LineFine, Expected, Within, Canonical, InOrder, Existing, UpdatesOf;
    var once := Effects(h, account, k, s, p);
    var twice := Effects(h, account, k, once, p);
    forall id ensures Cell(twice.rows, id) == Cell(once.rows, id) &&
      ReactionsOf(twice.rows, id) == ReactionsOf(once.rows, id) && twice.rows.Keys == once.rows.Keys {
      CanonicalOf(h, account, k, s.rows, p, id);
      RowsIdempotent(h, account, k, s, p, id);
    }
    assert ReactionsOf(twice.rows, "") == ReactionsOf(once.rows, "");
    forall c ensures Existing(twice.convs, c) == Existing(once.convs, c) {
      ConversationIdempotent(h, account, k, s, p, c);
    }
    SameExisting(twice.convs, once.convs);
  }

  /** An id some reaction targets has a canonical list; any other gets no update. */
  lemma {:induction false} CanonicalOf(h: Hashes, account: string, k: Places, rows: Table, p: seq<Line>, id: string)
    requires forall i :: 0 <= i < |p| ==> Clear(h, account, k, rows, p[i])
    ensures Canonical(ReactionsOf(rows, id)) || UpdatesOf(k, p, id) == []
  {
    hide Canonical, NothingInTheWay, TargetOf, Ignored;
    if id !in rows {
      EmptyCanonical();
    } else if p != [] {
      assert forall i :: 0 <= i < |p| - 1 ==> p[..|p| - 1][i] == p[i];
      CanonicalOf(h, account, k, rows, p[..|p| - 1], id);
      assert Clear(h, account, k, rows, p[|p| - 1]);
    }
  }

  lemma EffectConvsAlike(h: Hashes, account: string, k: Places, s: State, t: State, l: Line)
    requires s.convs == t.convs && s.rows.Keys == t.rows.Keys
    ensures Effect(h, account, k, s, l).convs == Effect(h, account, k, t, l).convs
  {
    hide Stored, DataRow, DataConversation, EditConversation, Reacted, Reworked, TargetOf, Ignored, DataId, DataTime,
      ConversationId, Existing, Reacts;
    if Live(l, account) {
      assert DataId(h, l) in s.rows <==> DataId(h, l) in t.rows;
    }
  }

  lemma {:induction false} EffectRowAlike(h: Hashes, account: string, k: Places, s: State, t: State, l: Line,
        id: string)
    requires Cell(s.rows, id) == Cell(t.rows, id) && ReactionsOf(s.rows, id) == ReactionsOf(t.rows, id)
    requires Reacts(l) ==> TargetOf(k, l) in s.rows && TargetOf(k, l) in t.rows
    requires Meets(account, k, s.rows, l) && Meets(account, k, t.rows, l)
    ensures Cell(Effect(h, account, k, s, l).rows, id) == Cell(Effect(h, account, k, t, l).rows, id)
    ensures ReactionsOf(Effect(h, account, k, s, l).rows, id) == ReactionsOf(Effect(h, account, k, t, l).rows, id)
  {
    hide Cell, ReactionsOf, Effect, TargetOf, Delivery, UpdateOf, RunFrom, Join, Meets;
    EffectCell(h, account, k, s, l, id);
    EffectCell(h, account, k, t, l, id);
    EffectReactions(h, account, k, s, l, id);
    EffectReactions(h, account, k, t, l, id);
  }

  lemma MeetsAlike(account: string, k: Places, a: Table, b: Table, l: Line)
    requires RowsAlike(a, b) && Meets(account, k, a, l)
    ensures Meets(account, k, b, l)
  {
    hide TargetOf, ConversationId, Ignored, ReactionsOf;
    if Edits(l, account) {
      var id := TargetOf(k, l);
      assert Cell(a, id) == Cell(b, id);
    }
  }

  /** A line keeps states alike. */
  lemma {:induction false} EffectAlike(h: Hashes, account: string, k: Places, s: State, t: State, l: Line)
    requires Alike(s, t) && (Reacts(l) ==> TargetOf(k, l) in s.rows) && Meets(account, k, s.rows, l)
    ensures Alike(Effect(h, account, k, s, l), Effect(h, account, k, t, l))
  {
    hide Cell, ReactionsOf, Effect, TargetOf, Live, Reacts, Meets;
    MeetsAlike(account, k, s.rows, t.rows, l);
    forall id
      ensures Cell(Effect(h, account, k, s, l).rows, id) == Cell(Effect(h, account, k, t, l).rows, id)
      ensures ReactionsOf(Effect(h, account, k, s, l).rows, id) == ReactionsOf(Effect(h, account, k, t, l).rows, id)
    {
      assert Cell(s.rows, id) == Cell(t.rows, id);
      EffectRowAlike(h, account, k, s, t, l, id);
    }
    EffectConvsAlike(h, account, k, s, t, l);
    EffectKeys(h, account, k, s, l);
    EffectKeys(h, account, k, t, l);
  }

  lemma {:induction false} EffectsAlike(h: Hashes, account: string, k: Places, s: State, t: State, p: seq<Line>,
        ls: seq<Line>)
    requires Alike(Effects(h, account, k, s, p), Effects(h, account, k, t, p)) && p <= ls
    requires AllInOrder(h, account, k, s.rows.Keys, ls)
    ensures Alike(Effects(h, account, k, s, ls), Effects(h, account, k, t, ls))
    decreases |ls|
  {
    hide Alike, Effect, AllInOrder, TargetOf, Delivered, Meets, LineFine;
    if |p| == |ls| {
      assert p == ls;
    } else {
      var init, l := ls[..|ls| - 1], ls[|ls| - 1];
      OrderBefore(h, account, k, s, ls);
      EffectsAlike(h, account, k, s, t, p, init);
      EffectAlike(h, account, k, Effects(h, account, k, s, init), Effects(h, account, k, t, init), l);
    }
  }
}
