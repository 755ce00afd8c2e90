/** A batch of received data, reaction and edit lines, what it asks of the stored rows, and what each
    of its lines then does to the store. */
module SignalBatch {
  import opened Text
  import opened Records
  import opened Ordering
  import opened Upsert
  import opened SignalReactions
  import opened ReactionHistory
  import opened SignalStore
  import opened SignalEdits

  /** The line delivers a message. */
  predicate Live(l: Line, account: string) { l.Data? && !Ignored(l, account) }

  predicate Edits(l: Line, account: string) { l.Edit? && !Ignored(l, account) }

  predicate Reacts(l: Line) { l.React? && Addressed(l.o) && l.target != 0 }

  /** The line looks up a message, by its time and its author. */
  predicate Aims(l: Line, account: string) { Reacts(l) || Edits(l, account) }

  function Author(l: Line): string
    requires !l.Data?
  {
    if l.React? then l.author else l.o.source
  }

  // ----- Where messages stand -----

  /** What the lookups see of a row. */
  datatype Place = Place(conv: string, ts: int, sender: string)

  type Places = map<string, Place>

  function PlaceOf(m: Message): Place { Place(m.conv, m.ts, m.senderNumber) }

  function LinePlace(l: Line): Place
    requires l.Data?
  {
    Place(ConversationId(l.o), DataTime(l), l.o.source)
  }

  function PlacesOf(rows: Table): Places {
    map id | id in rows :: PlaceOf(rows[id])
  }

  /** The places after the batch. */
  function PlacesAfter(h: Hashes, account: string, k: Places, ls: seq<Line>): Places {
    if ls == [] then k else
      var before, l := PlacesAfter(h, account, k, ls[..|ls| - 1]), ls[|ls| - 1];
      if Live(l, account) then before[DataId(h, l) := LinePlace(l)] else before
  }

  predicate Within(a: Places, b: Places) {
    forall id :: id in a ==> id in b && b[id] == a[id]
  }

  predicate At(p: Place, conv: string, ts: int, author: string) {
    p.conv == conv && p.ts == ts && (author == "" || AddressesMatch(p.sender, author))
  }

  function CrowdBefore(k: Places, conv: string, ts: int, id: string): set<string> {
    set x | x in k && k[x].conv == conv && k[x].ts == ts && Less(x, id)
  }

  /** The message is the only one of the author at that time, and within the ten the lookup takes. */
  predicate ExactIn(k: Places, id: string, l: Line)
    requires !l.Data?
  {
    var conv := ConversationId(l.o);
    && id in k && At(k[id], conv, l.target, Author(l))
    && (forall x :: x in k && At(k[x], conv, l.target, Author(l)) ==> x == id)
    && |CrowdBefore(k, conv, l.target, id)| < 10
  }

  /** The line's target, when there is an exact one. */
  ghost function TargetOf(k: Places, l: Line): string
    requires !l.Data?
  {
    if id :| ExactIn(k, id, l) then id else ""
  }

  function Delivered(h: Hashes, account: string, ls: seq<Line>): set<string> {
    if ls == [] then {} else
      Delivered(h, account, ls[..|ls| - 1]) + if Live(ls[|ls| - 1], account) then {DataId(h, ls[|ls| - 1])} else {}
  }

  /** The line comes after its exact-timestamp target, which stays exact to the batch's end; an
      edit's target is a message of the batch. */
  ghost predicate Lands(h: Hashes, account: string, k: Places, ls: seq<Line>, i: nat)
    requires i < |ls|
  {
    Aims(ls[i], account) ==>
      exists id :: id in PlacesAfter(h, account, k, ls[..i]) &&
        Finds(h, account, PlacesAfter(h, account, k, ls), ls, i, id)
  }

  predicate Finds(h: Hashes, account: string, k: Places, ls: seq<Line>, i: nat, id: string)
    requires i < |ls| && !ls[i].Data?
  {
    ExactIn(k, id, ls[i]) && (ls[i].Edit? ==> id in Delivered(h, account, ls[..i]))
  }

  /** One id, one message: in the batch, and for the rows already stored. */
  predicate OnePlace(h: Hashes, account: string, k: Places, ls: seq<Line>) {
    && (forall i, j ::
      0 <= i < j < |ls| && Live(ls[i], account) && Live(ls[j], account) && DataId(h, ls[i]) == DataId(h, ls[j]) ==>
          LinePlace(ls[i]) == LinePlace(ls[j]))
    && (forall i :: 0 <= i < |ls| && Live(ls[i], account) && DataId(h, ls[i]) in k ==>
      k[DataId(h, ls[i])] == LinePlace(ls[i]))
  }

  function SourceOf(h: Hashes, l: Line): string
    requires l.Data?
  {
    h.message(ConversationId(l.o), l.o.source, DataTime(l))
  }

  /** No other Signal row carries the line's source id, and none is a placeholder the line would
      take for its own. */
  predicate NothingInTheWay(h: Hashes, rows: Table, l: Line)
    requires l.Data?
  {
    forall id :: id in rows ==>
      && (rows[id].platform == "signal" && rows[id].sourceId == SourceOf(h, l) ==> id == DataId(h, l))
      && (rows[id].conv == ConversationId(l.o) && rows[id].ts == DataTime(l) ==> !IsAlias(rows[id], l.o.source, false))
  }

  /** What the stored rows must be for one line of the batch: nothing stands in a message's way, and
      a reaction's target has a canonical list. Rows the batch does not name do not matter. */
  ghost predicate Clear(h: Hashes, account: string, k: Places, rows: Table, l: Line) {
    && (Live(l, account) ==> NothingInTheWay(h, rows, l))
    && (Reacts(l) && TargetOf(k, l) in rows ==> Canonical(rows[TargetOf(k, l)].reactions))
  }

  ghost predicate Injective(h: Hashes) {
    forall a, b: string, s, t: int, x, y: string :: h.message(a, x, s) == h.message(b, y, t) ==>
      a == b && x == y && s == t
  }

  /** Every row under a message digest is that message. */
  ghost predicate Placed(h: Hashes, rows: Table) {
    forall a, x: string, s: int :: "signal:" + h.message(a, x, s) in rows ==>
      PlaceOf(rows["signal:" + h.message(a, x, s)]) == Place(a, s, x)
  }

  /** Injective digests make one place of one id. */
  lemma DigestsGiveOnePlace(h: Hashes, account: string, rows: Table, ls: seq<Line>)
    requires Injective(h) && Placed(h, rows)
    ensures OnePlace(h, account, PlacesOf(rows), ls)
  {
    hide Ignored, DataTime, ConversationId;
    forall i, j | 0 <= i < j < |ls| && Live(ls[i], account) && Live(ls[j], account) &&
      DataId(h, ls[i]) == DataId(h, ls[j])
      ensures LinePlace(ls[i]) == LinePlace(ls[j])
    {
      assert DataId(h, ls[i])[7..] == DataId(h, ls[j])[7..];
    }
  }

  predicate LineFine(h: Hashes, l: Line) {
    match l
    case Data(_, _) => Hex(h.message(ConversationId(l.o), l.o.source, DataTime(l)))
    case React(_, actor, _, _, emoji) => TrimSpace(actor) != "" || TrimSpace(emoji) == ""
    case Edit(_, target, _) => target != 0
  }

  ghost function EndPlaces(h: Hashes, account: string, rows: Table, ls: seq<Line>): Places {
    PlacesAfter(h, account, PlacesOf(rows), ls)
  }

  /** A batch of data lines, of edits of its messages and of reactions by named actors, each edit and
      reaction after its target, with no placeholder of its messages pending. */
  ghost predicate Batch(h: Hashes, account: string, rows: Table, ls: seq<Line>) {
    && (forall i :: 0 <= i < |ls| ==>
      LineFine(h, ls[i]) && Clear(h, account, EndPlaces(h, account, rows, ls), rows, ls[i]))
    && OnePlace(h, account, PlacesOf(rows), ls)
    && (forall i :: 0 <= i < |ls| ==> Lands(h, account, PlacesOf(rows), ls, i))
  }

  // ----- The effect of a line -----

  function Run(h: Hashes, account: string, s: State, ls: seq<Line>): State {
    if ls == [] then s else Handled(h, account, Run(h, account, s, ls[..|ls| - 1]), ls[|ls| - 1], false).state
  }

  /** The lines of a batch, one after the other. */
  method ProcessLines(b: Bridge, ls: seq<Line>, now: int)
    modifies b
    ensures b.Now() == Run(b.h, b.account, old(b.Now()), ls)
  {
    hide HandledData, HandledReaction, HandledEdit;
    for i := 0 to |ls|
      invariant b.Now() == Run(b.h, b.account, old(b.Now()), ls[..i])
    {
      assert ls[..i + 1][..i] == ls[..i];
      match ls[i]
      case Data(_, _) => var _ := b.HandleDataMessage(ls[i]);
      case React(_, _, _, _, _) => b.ApplyReaction(ls[i]);
      case Edit(_, _, _) => var _ := b.HandleEditMessage(ls[i], false, now);
    }
    assert ls[..|ls|] == ls;
  }

  function Stored(rows: Table, m: Message): (r: Table)
    ensures r.Keys == rows.Keys + {m.id}
  {
    rows[m.id := if m.id in rows then Merge(rows[m.id], m) else m]
  }

  function Reacted(rows: Table, id: string, l: Line): (r: Table)
    requires l.React?
    ensures r.Keys == rows.Keys
  {
    if id in rows then rows[id := rows[id].(reactions := Updated(rows[id].reactions, l.actor, l.emoji))] else rows
  }

  function Reworked(rows: Table, id: string, l: Line): (r: Table)
    requires l.Edit?
    ensures r.Keys == rows.Keys
  {
    if id in rows then rows[id := Merge(rows[id], EditedRow(rows[id], l.c))] else rows
  }

  /** What a line does when nothing stands in its way; `k` are the places at the batch's end. */
  ghost function Effect(h: Hashes, account: string, k: Places, s: State, l: Line): State {
    if Live(l, account) then
      var conv := ConversationId(l.o);
      var convo := DataConversation(Existing(s.convs, conv), l.o, DataTime(l), DataId(h, l) !in s.rows);
      State(Stored(s.rows, DataRow(h, l, convo.name)), s.convs[conv := convo])
    else if Edits(l, account) then
      var conv := ConversationId(l.o);
      State(Reworked(s.rows, TargetOf(k, l), l), s.convs[conv := EditConversation(Existing(s.convs, conv), l.o)])
    else if Reacts(l) then s.(rows := Reacted(s.rows, TargetOf(k, l), l))
    else s
  }

  ghost function Effects(h: Hashes, account: string, k: Places, s: State, ls: seq<Line>): State {
    if ls == [] then s else Effect(h, account, k, Effects(h, account, k, s, ls[..|ls| - 1]), ls[|ls| - 1])
  }

  lemma {:induction false} NothingIsAlias(h: Hashes, rows: Table, l: Line)
    requires l.Data? && NothingInTheWay(h, rows, l)
    ensures AliasFor(rows, l) == None
  {
    hide IsAlias, AtTimestamp, Aliases, ConversationId, DataTime, SourceOf, DataId;
    NoAlias(AtTimestamp(rows, ConversationId(l.o), DataTime(l)), l.o.source, false);
  }

  lemma DataRowFacts(h: Hashes, l: Line, name: string)
    requires l.Data? && LineFine(h, l)
    ensures var m := DataRow(h, l, name);
      m.id == DataId(h, l) && IsSignalRow(m) && !IsPlaceholder(m) && WithPlatform(m) == m && PlaceOf(m) == LinePlace(l)
      && m.reactions == [] && m.sourceId == SourceOf(h, l)
  {
    hide TrimSpace;
    assert TrimSpace("signal") == "signal";
    HexIsNoPlaceholder(h.message(ConversationId(l.o), l.o.source, DataTime(l)));
  }

  lemma StoredIsUpsert(rows: Table, m: Message)
    requires IsSignalRow(m) && WithPlatform(m) == m
    requires forall id :: id in rows && rows[id].platform == "signal" && rows[id].sourceId == m.sourceId ==> id == m.id
    ensures Accepts(rows, m) && UpsertRow(rows, m) == Stored(rows, m)
  {
    hide WithPlatform;
    assert Written(rows, m).sourceId == m.sourceId && Written(rows, m).platform == "signal";
  }

  /** A stored row is in nobody else's way. */
  lemma StoredStaysOpen(h: Hashes, rows: Table, m: Message, l: Line)
    requires l.Data? && NothingInTheWay(h, rows, l) && IsSignalRow(m) && !IsPlaceholder(m) &&
      "signal:" + SourceOf(h, l) == DataId(h, l)
    ensures NothingInTheWay(h, Stored(rows, m), l)
  {
    hide TrimSpace, DataId, SourceOf, ConversationId, DataTime, AddressesMatch;
    var after := Stored(rows, m);
    assert after[m.id].sourceId == m.sourceId;
  }

  lemma {:induction false} DataEffect(h: Hashes, account: string, k: Places, s: State, l: Line)
    requires Live(l, account) && NothingInTheWay(h, s.rows, l) && LineFine(h, l)
    ensures Handled(h, account, s, l, false) == Result(Effect(h, account, k, s, l), Done)
  {
    hide NothingInTheWay, LineFine, DataRow, DataConversation, FindAlias, Accepts, UpsertRow, IsSignalRow,
      IsPlaceholder,
      WithPlatform, Ignored, Stored, DataId, DataTime, ConversationId, AliasFor;
    var convo := DataConversation(Existing(s.convs, ConversationId(l.o)), l.o, DataTime(l), DataId(h, l) !in s.rows);
    var m := DataRow(h, l, convo.name);
    DataRowFacts(h, l, convo.name);
    SourceIsId(h, l);
    OwnSource(h, s.rows, l, m);
    StoredIsUpsert(s.rows, m);
    StoredStaysOpen(h, s.rows, m, l);
    NothingIsAlias(h, s.rows, l);
    NothingIsAlias(h, Stored(s.rows, m), l);
    assert ToStore(h, s.rows, l, convo.name) == m;
    assert StoredData(h, s.rows, l, convo.name) == Some(Stored(s.rows, m));
  }

  lemma SourceIsId(h: Hashes, l: Line)
    requires l.Data?
    ensures "signal:" + SourceOf(h, l) == DataId(h, l)
  {
  }

  lemma OwnSource(h: Hashes, rows: Table, l: Line, m: Message)
    requires l.Data? && NothingInTheWay(h, rows, l) && m.id == DataId(h, l) && m.sourceId == SourceOf(h, l)
    ensures forall id :: id in rows && rows[id].platform == "signal" && rows[id].sourceId == m.sourceId ==> id == m.id
  {
    hide IsAlias, DataId, SourceOf, ConversationId, DataTime;
  }

  /** A line leaves every other line's way clear. */
  lemma {:induction false} EffectStaysClear(h: Hashes, account: string, k: Places, s: State, l: Line, other: Line)
    requires LineFine(h, l) && Clear(h, account, k, s.rows, other)
    ensures Clear(h, account, k, Effect(h, account, k, s, l).rows, other)
  {
    hide NothingInTheWay, LineFine, DataRow, DataConversation, Stored, Reacted, Reworked, Canonical, Ignored, DataId,
      DataTime, EditConversation,
      ConversationId, TargetOf, IsSignalRow, IsPlaceholder, WithPlatform, SourceOf;
    if Live(l, account) {
      var convo := DataConversation(Existing(s.convs, ConversationId(l.o)), l.o, DataTime(l), DataId(h, l) !in s.rows);
      DataRowFacts(h, l, convo.name);
      if Live(other, account) {
        SourceIsId(h, other);
        StoredStaysOpen(h, s.rows, DataRow(h, l, convo.name), other);
      }
      if Reacts(other) { StoredStaysCanonical(s.rows, DataRow(h, l, convo.name), TargetOf(k, other)); }
    } else if Edits(l, account) {
      if Live(other, account) { ReworkedStaysOpen(h, s.rows, TargetOf(k, l), l, other); }
      if Reacts(other) { ReworkedStaysCanonical(s.rows, TargetOf(k, l), l, TargetOf(k, other)); }
    } else if Reacts(l) {
      if Live(other, account) { ReactedStaysOpen(h, s.rows, TargetOf(k, l), l, other); }
      if Reacts(other) { ReactedStaysCanonical(s.rows, TargetOf(k, l), l, TargetOf(k, other)); }
    }
  }

  lemma StoredStaysCanonical(rows: Table, m: Message, id: string)
    requires m.reactions == [] && (id in rows ==> Canonical(rows[id].reactions))
    ensures id in Stored(rows, m) ==> Canonical(Stored(rows, m)[id].reactions)
  {
    hide Canonical;
    EmptyCanonical();
  }

  lemma {:induction false} ReactedStaysOpen(h: Hashes, rows: Table, id: string, l: Line, other: Line)
    requires l.React? && other.Data? && NothingInTheWay(h, rows, other)
    ensures NothingInTheWay(h, Reacted(rows, id, l), other)
  {
    hide Updated, IsAlias, SourceOf, DataId, DataTime, ConversationId;
    if id in rows {
      SameAlias(rows[id], Updated(rows[id].reactions, l.actor, l.emoji), other.o.source);
    }
  }

  /** What an edit leaves of a row. */
  lemma EditLeaves(m: Message, c: Content)
    ensures var r := Merge(m, EditedRow(m, c));
      && r.id == m.id && r.conv == m.conv && r.ts == m.ts && r.senderNumber == m.senderNumber && r.status == m.status
      && r.fromMe == m.fromMe && r.platform == m.platform && r.sourceId == m.sourceId && r.reactions == m.reactions
      && r.senderName == m.senderName
  {
  }

  lemma {:induction false} ReworkedStaysOpen(h: Hashes, rows: Table, id: string, l: Line, other: Line)
    requires l.Edit? && other.Data? && NothingInTheWay(h, rows, other)
    ensures NothingInTheWay(h, Reworked(rows, id, l), other)
  {
    hide Merge, EditedRow, SourceOf, DataId, DataTime, ConversationId, AddressesMatch, TrimSpace;
    if id in rows {
      EditLeaves(rows[id], l.c);
    }
  }

  lemma {:induction false} ReworkedStaysCanonical(rows: Table, id: string, l: Line, x: string)
    requires l.Edit? && (x in rows ==> Canonical(rows[x].reactions))
    ensures x in rows ==> Canonical(Reworked(rows, id, l)[x].reactions)
  {
    hide Canonical, Merge, EditedRow;
    if id in rows {
      EditLeaves(rows[id], l.c);
    }
  }

  lemma SameAlias(m: Message, rs: seq<Reaction>, source: Token)
    ensures IsAlias(m.(reactions := rs), source, false) == IsAlias(m, source, false)
  {
    hide TrimSpace, AddressesMatch;
  }

  lemma {:induction false} ReactedStaysCanonical(rows: Table, id: string, l: Line, x: string)
    requires l.React? && (x in rows ==> Canonical(rows[x].reactions))
    ensures x in rows ==> Canonical(Reacted(rows, id, l)[x].reactions)
  {
    hide Canonical, Updated;
    if x in rows {
      UpdateLaw(rows[x].reactions, l.actor, l.emoji, "x");
    }
  }

  // ----- The reaction's lookup -----

  lemma CrowdIsCrowd(rows: Table, conv: string, ts: int, id: string)
    ensures Crowd(rows, conv, ts, ts, ts, id) == |CrowdBefore(PlacesOf(rows), conv, ts, id)|
  {
    hide Less;
    var ids := CrowdBefore(PlacesOf(rows), conv, ts, id);
    var S := Predecessors(InWindow(rows, conv, ts, ts), BlankRow(id, ts));
    ImageSize(rows, ids);
    var image := set x | x in ids :: rows[x];
    forall m ensures m in S <==> m in image {
      if m in image {
        var x :| x in ids && rows[x] == m;
      }
    }
    assert S == image;
  }

  /** A target that is exact at the end is exact as soon as it is there. */
  lemma ExactEarlier(a: Places, b: Places, id: string, l: Line)
    requires !l.Data? && Within(a, b) && id in a && ExactIn(b, id, l)
    ensures ExactIn(a, id, l)
  {
    hide AddressesMatch, Less, ConversationId;
    SubsetSize(CrowdBefore(a, ConversationId(l.o), l.target, id), CrowdBefore(b, ConversationId(l.o), l.target, id));
  }

  lemma ExactUnique(k: Places, id: string, l: Line)
    requires !l.Data? && ExactIn(k, id, l)
    ensures TargetOf(k, l) == id
  {
    hide CrowdBefore, AddressesMatch, ConversationId;
  }

  lemma {:induction false} ExactFound(rows: Table, id: string, l: Line)
    requires !l.Data? && l.target != 0 && ExactIn(PlacesOf(rows), id, l)
    ensures id in rows && FindTarget(rows, ConversationId(l.o), l.target, Author(l)) == Some(rows[id])
  {
    hide AddressesMatch, CrowdBefore, Crowd, Pick, Ascending, Limit, Keyed, ConversationId, Less;
    var conv := ConversationId(l.o);
    var m := rows[id];
    CrowdIsCrowd(rows, conv, l.target, id);
    ListedExactly(rows, conv, l.target, l.target, m, EXACT_LIMIT);
    var ms := AtTimestamp(rows, conv, l.target);
    assert m in ms;
    forall x | x in ms && Eligible(x, Author(l)) ensures x == m {
      assert x in InWindow(rows, conv, l.target, l.target);
      assert x.id in PlacesOf(rows) && At(PlacesOf(rows)[x.id], conv, l.target, Author(l));
    }
    PickOnly(ms, Author(l), l.target, m);
  }

  lemma {:induction false} ReactEffect(h: Hashes, account: string, k: Places, s: State, l: Line, id: string)
    requires Reacts(l) && Within(PlacesOf(s.rows), k) && id in s.rows && ExactIn(k, id, l)
    ensures Handled(h, account, s, l, false) == Result(Effect(h, account, k, s, l), Done)
  {
    hide FindTarget, ExactIn, HasChange, Updated, ConversationId, Within;
    ExactEarlier(PlacesOf(s.rows), k, id, l);
    ExactFound(s.rows, id, l);
    ExactUnique(k, id, l);
    NoChangeNoUpdate(s.rows[id].reactions, l);
    var m := s.rows[id];
    assert s.rows[id := m.(reactions := m.reactions)] == s.rows;
  }

  /** A row the batch has delivered: stored under its own source id, as it was received. */
  predicate Plain(m: Message, conv: string) {
    IsSignalRow(m) && m.conv == conv && m.status == "received" && !m.fromMe
  }

  lemma {:induction false} EditAccepted(h: Hashes, rows: Table, id: string, l: Line, original: Line)
    requires l.Edit? && id in rows && Plain(rows[id], ConversationId(l.o))
    requires original.Data? && DataId(h, original) == id && NothingInTheWay(h, rows, original)
    ensures Accepts(rows, EditedRow(rows[id], l.c)) &&
      UpsertRow(rows, EditedRow(rows[id], l.c)) == Reworked(rows, id, l)
  {
    hide Merge, EditedRow, ConversationId, DataTime, IsAlias, TrimSpace;
    var m := rows[id];
    EditedFacts(m, l.c);
    EditLeaves(m, l.c);
    assert ("signal:" + m.sourceId)[7..] == ("signal:" + SourceOf(h, original))[7..];
    assert Written(rows, EditedRow(m, l.c)) == Merge(m, EditedRow(m, l.c));
  }

  lemma {:induction false} EditEffect(h: Hashes, account: string, k: Places, s: State, l: Line, id: string,
    original: Line)
    requires Edits(l, account) && l.target != 0 && Within(PlacesOf(s.rows), k) && id in s.rows && ExactIn(k, id, l)
    requires Plain(s.rows[id], ConversationId(l.o))
    requires original.Data? && DataId(h, original) == id && NothingInTheWay(h, s.rows, original)
    ensures Handled(h, account, s, l, false) == Result(Effect(h, account, k, s, l), Done)
  {
    hide FindTarget, ExactIn, ConversationId, Within, EditedRow, Merge, Reworked, Accepts, UpsertRow, NothingInTheWay,
      EditConversation, Ignored, DataId, Plain;
    ExactEarlier(PlacesOf(s.rows), k, id, l);
    ExactFound(s.rows, id, l);
    ExactUnique(k, id, l);
    EditAccepted(h, s.rows, id, l, original);
  }

  lemma NoChangeNoUpdate(rs: seq<Reaction>, l: Line)
    requires l.React?
    ensures !HasChange(rs, l.actor, l.emoji) ==> Updated(rs, l.actor, l.emoji) == rs
  {
    hide HasChange;
  }

  // ----- Runs are effects -----

  lemma {:induction false} PlacesKeys(h: Hashes, account: string, k: Places, ls: seq<Line>)
    ensures PlacesAfter(h, account, k, ls).Keys == k.Keys + Delivered(h, account, ls)
  {
    hide DataId, Ignored, LinePlace;
    if ls != [] {
      PlacesKeys(h, account, k, ls[..|ls| - 1]);
    }
  }

  /** The places at the end agree with the line. */
  predicate Expected(h: Hashes, account: string, k: Places, l: Line) {
    Live(l, account) ==> DataId(h, l) in k && k[DataId(h, l)] == LinePlace(l)
  }

  /** What a pass over the lines from a state needs, for the places `k` at the batch's end. */
  ghost predicate Ready(h: Hashes, account: string, k: Places, s: State, ls: seq<Line>) {
    && Within(PlacesOf(s.rows), k)
    && (forall i :: 0 <= i < |ls| ==> Clear(h, account, k, s.rows, ls[i]))
    && AllInOrder(h, account, k, s.rows.Keys, ls)
  }

  /** The line is fine, is where the batch's end has it, and finds its target among the stored
      ids. */
  ghost predicate InOrder(h: Hashes, account: string, k: Places, keys: set<string>, ls: seq<Line>, i: nat)
    requires i < |ls|
  {
    && LineFine(h, ls[i]) && Expected(h, account, k, ls[i])
    && (Aims(ls[i], account) ==>
          TargetOf(k, ls[i]) in keys + Delivered(h, account, ls[..i])
          && Finds(h, account, k, ls, i, TargetOf(k, ls[i])))
  }

  ghost predicate AllInOrder(h: Hashes, account: string, k: Places, keys: set<string>, ls: seq<Line>) {
    forall i :: 0 <= i < |ls| ==> InOrder(h, account, k, keys, ls, i)
  }

  lemma ReadyBefore(h: Hashes, account: string, k: Places, s: State, ls: seq<Line>)
    requires ls != [] && Ready(h, account, k, s, ls)
    ensures Ready(h, account, k, s, ls[..|ls| - 1])
  {
    hide Within, InOrder, Clear;
    OrderPrefix(h, account, k, s.rows.Keys, ls, |ls| - 1);
    assert forall i :: 0 <= i < |ls| - 1 ==> ls[..|ls| - 1][i] == ls[i];
  }

  lemma {:induction false} OrderPrefix(h: Hashes, account: string, k: Places, keys: set<string>, ls: seq<Line>, n: nat)
    requires n <= |ls| && AllInOrder(h, account, k, keys, ls)
    ensures AllInOrder(h, account, k, keys, ls[..n])
  {
    hide ExactIn, Delivered, TargetOf, LineFine, Expected;
    var init := ls[..n];
    forall i | 0 <= i < n ensures InOrder(h, account, k, keys, init, i) {
      assert InOrder(h, account, k, keys, ls, i);
      assert init[..i] == ls[..i] && init[i] == ls[i];
    }
  }

  lemma EffectKeys(h: Hashes, account: string, k: Places, s: State, l: Line)
    ensures Effect(h, account, k, s, l).rows.Keys == s.rows.Keys + if Live(l, account) then {DataId(h, l)} else {}
  {
    hide Stored, Reacted, Reworked, DataConversation, EditConversation, TargetOf, Ignored;
    if Live(l, account) {
      RowId(h, l, DataConversation(Existing(s.convs, ConversationId(l.o)), l.o, DataTime(l),
        DataId(h, l) !in s.rows).name);
    }
  }

  lemma RowId(h: Hashes, l: Line, name: string)
    requires l.Data?
    ensures DataRow(h, l, name).id == DataId(h, l)
  {
  }

  lemma {:induction false} EffectsKeys(h: Hashes, account: string, k: Places, s: State, ls: seq<Line>)
    ensures Effects(h, account, k, s, ls).rows.Keys == s.rows.Keys + Delivered(h, account, ls)
  {
    hide Effect, DataId, Live;
    if ls != [] {
      EffectsKeys(h, account, k, s, ls[..|ls| - 1]);
      EffectKeys(h, account, k, Effects(h, account, k, s, ls[..|ls| - 1]), ls[|ls| - 1]);
    }
  }

  lemma SamePlaces(rows: Table, id: string, l: Line)
    requires !l.Data?
    ensures l.Edit? ==> PlacesOf(Reworked(rows, id, l)) == PlacesOf(rows)
    ensures l.React? ==> PlacesOf(Reacted(rows, id, l)) == PlacesOf(rows)
  {
    hide Updated, Merge, EditedRow;
    if l.Edit? && id in rows {
      EditLeaves(rows[id], l.c);
    }
  }

  lemma StoredPlaces(rows: Table, m: Message)
    requires m.senderNumber != "" || m.id !in rows || rows[m.id].senderNumber == ""
    requires m.ts > 0 || m.id !in rows || rows[m.id].ts == m.ts
    ensures PlacesOf(Stored(rows, m)) == PlacesOf(rows)[m.id := PlaceOf(m)]
  {
  }

  lemma {:induction false} EffectWithin(h: Hashes, account: string, k: Places, s: State, l: Line)
    requires Within(PlacesOf(s.rows), k) && Expected(h, account, k, l) && LineFine(h, l)
    ensures Within(PlacesOf(Effect(h, account, k, s, l).rows), k)
  {
    hide DataConversation, EditConversation, TargetOf, Ignored, DataRow, DataTime, ConversationId, DataId,
      IsPlaceholder,
      IsSignalRow, Stored, Reworked, Reacted;
    if Live(l, account) {
      var convo := DataConversation(Existing(s.convs, ConversationId(l.o)), l.o, DataTime(l), DataId(h, l) !in s.rows);
      var m := DataRow(h, l, convo.name);
      DataRowFacts(h, l, convo.name);
      assert m.id in s.rows ==> PlacesOf(s.rows)[m.id] == k[m.id];
      StoredPlaces(s.rows, m);
    } else if Edits(l, account) || Reacts(l) {
      SamePlaces(s.rows, TargetOf(k, l), l);
    }
  }

  /** One line of a pass; an edit meets a row the batch has delivered. */
  lemma {:induction false} LineIsEffect(h: Hashes, account: string, k: Places, s: State, l: Line)
    requires Within(PlacesOf(s.rows), k) && LineFine(h, l) && Expected(h, account, k, l) &&
      Clear(h, account, k, s.rows, l)
    requires Aims(l, account) ==> TargetOf(k, l) in s.rows && ExactIn(k, TargetOf(k, l), l)
    requires Edits(l, account) ==> Editable(h, s.rows, TargetOf(k, l), ConversationId(l.o))
    ensures Handled(h, account, s, l, false) == Result(Effect(h, account, k, s, l), Done)
    ensures Within(PlacesOf(Effect(h, account, k, s, l).rows), k)
  {
    hide NothingInTheWay, Within, ExactIn, Expected, Reacted, Handled, TargetOf, Canonical, Ignored, Plain,
      ConversationId,
      DataId;
    EffectWithin(h, account, k, s, l);
    if Live(l, account) {
      DataEffect(h, account, k, s, l);
    } else if Edits(l, account) {
      var original: Line :| original.Data? && DataId(h, original) == TargetOf(k, l) &&
        NothingInTheWay(h, s.rows, original);
      EditEffect(h, account, k, s, l, TargetOf(k, l), original);
    } else if Reacts(l) {
      ReactEffect(h, account, k, s, l, TargetOf(k, l));
    } else {
      IdleLine(h, account, s, l);
    }
  }

  ghost predicate Editable(h: Hashes, rows: Table, id: string, conv: string) {
    && id in rows && Plain(rows[id], conv)
    && exists original: Line :: original.Data? && DataId(h, original) == id && NothingInTheWay(h, rows, original)
  }

  lemma IdleLine(h: Hashes, account: string, s: State, l: Line)
    requires LineFine(h, l) && !Live(l, account) && !Edits(l, account) && !Reacts(l)
    ensures Handled(h, account, s, l, false) == Result(s, Done)
  {
    hide HasChange, Updated, Pick, AtTimestamp, NearTimestamp, ConversationId;
  }

  // ----- The rows an edit meets -----

  lemma {:induction false} EffectPlain(h: Hashes, account: string, k: Places, s: State, l: Line, id: string)
    requires LineFine(h, l) && Expected(h, account, k, l) && id in k
    requires (id in s.rows && Plain(s.rows[id], k[id].conv)) || (Live(l, account) && DataId(h, l) == id)
    ensures var t := Effect(h, account, k, s, l); id in t.rows && Plain(t.rows[id], k[id].conv)
  {
    hide DataConversation, EditConversation, TargetOf, Ignored, DataRow, Updated, DataTime, ConversationId, DataId,
      IsPlaceholder, EditedRow, LineFine;
    if Live(l, account) {
      var convo := DataConversation(Existing(s.convs, ConversationId(l.o)), l.o, DataTime(l), DataId(h, l) !in s.rows);
      DataRowFacts(h, l, convo.name);
      RowReceived(h, l, convo.name);
    } else if Edits(l, account) && id in s.rows {
      EditLeaves(s.rows[id], l.c);
    }
  }

  lemma RowReceived(h: Hashes, l: Line, name: string)
    requires l.Data?
    ensures var m := DataRow(h, l, name); m.status == "received" && !m.fromMe
  {
  }

  lemma {:induction false} EffectsPlain(h: Hashes, account: string, k: Places, s: State, ls: seq<Line>, id: string)
    requires AllInOrder(h, account, k, s.rows.Keys, ls) && id in Delivered(h, account, ls)
    ensures id in k
    ensures var t := Effects(h, account, k, s, ls); id in t.rows && Plain(t.rows[id], k[id].conv)
  {
    hide Effect, Plain, LineFine, DataId, Ignored, LinePlace, Finds, TargetOf;
    var init, l := ls[..|ls| - 1], ls[|ls| - 1];
    assert InOrder(h, account, k, s.rows.Keys, ls, |ls| - 1);
    OrderPrefix(h, account, k, s.rows.Keys, ls, |ls| - 1);
    if id in Delivered(h, account, init) {
      EffectsPlain(h, account, k, s, init, id);
    }
    EffectPlain(h, account, k, Effects(h, account, k, s, init), l, id);
  }

  /** The edit that follows its original meets it. */
  lemma {:induction false} EditMeets(h: Hashes, account: string, k: Places, s: State, ls: seq<Line>)
    requires ls != [] && AllInOrder(h, account, k, s.rows.Keys, ls) && Edits(ls[|ls| - 1], account)
    ensures var l := ls[|ls| - 1]; var t := Effects(h, account, k, s, ls[..|ls| - 1]);
      TargetOf(k, l) in t.rows && Plain(t.rows[TargetOf(k, l)], ConversationId(l.o))
  {
    hide Effects, Plain, LineFine, DataId, Ignored, LinePlace, TargetOf, Delivered, ConversationId, AddressesMatch,
      CrowdBefore;
    assert InOrder(h, account, k, s.rows.Keys, ls, |ls| - 1);
    OrderPrefix(h, account, k, s.rows.Keys, ls, |ls| - 1);
    EffectsPlain(h, account, k, s, ls[..|ls| - 1], TargetOf(k, ls[|ls| - 1]));
  }

  lemma {:induction false} EffectsStayClear(h: Hashes, account: string, k: Places, s: State, ls: seq<Line>, other: Line)
    requires (forall i :: 0 <= i < |ls| ==> LineFine(h, ls[i])) && Clear(h, account, k, s.rows, other)
    ensures Clear(h, account, k, Effects(h, account, k, s, ls).rows, other)
  {
    hide Effect, Clear, LineFine;
    if ls != [] {
      EffectsStayClear(h, account, k, s, ls[..|ls| - 1], other);
      EffectStaysClear(h, account, k, Effects(h, account, k, s, ls[..|ls| - 1]), ls[|ls| - 1], other);
    }
  }

  lemma {:induction false} DeliveredBy(h: Hashes, account: string, ls: seq<Line>, id: string) returns (j: nat)
    requires id in Delivered(h, account, ls)
    ensures j < |ls| && Live(ls[j], account) && DataId(h, ls[j]) == id
  {
    hide DataId, Ignored;
    var l := ls[|ls| - 1];
    if Live(l, account) && DataId(h, l) == id {
      j := |ls| - 1;
    } else {
      j := DeliveredBy(h, account, ls[..|ls| - 1], id);
    }
  }

  lemma {:induction false} EditReady(h: Hashes, account: string, k: Places, s: State, ls: seq<Line>)
    requires ls != [] && Ready(h, account, k, s, ls) && Edits(ls[|ls| - 1], account)
    ensures var l := ls[|ls| - 1];
      Editable(h, Effects(h, account, k, s, ls[..|ls| - 1]).rows, TargetOf(k, l), ConversationId(l.o))
  {
    hide Effects, Plain, LineFine, DataId, Ignored, TargetOf, Delivered, ConversationId, ExactIn, NothingInTheWay,
      Within, Canonical, Expected;
    var init, l := ls[..|ls| - 1], ls[|ls| - 1];
    assert InOrder(h, account, k, s.rows.Keys, ls, |ls| - 1);
    EditMeets(h, account, k, s, ls);
    var j := DeliveredBy(h, account, init, TargetOf(k, l));
    assert forall i :: 0 <= i < |init| ==> init[i] == ls[i] && InOrder(h, account, k, s.rows.Keys, ls, i);
    EffectsStayClear(h, account, k, s, init, init[j]);
  }

  lemma {:induction false} PassIsEffects(h: Hashes, account: string, k: Places, s: State, ls: seq<Line>)
    requires Ready(h, account, k, s, ls)
    ensures Run(h, account, s, ls) == Effects(h, account, k, s, ls)
    ensures Within(PlacesOf(Effects(h, account, k, s, ls).rows), k)
    ensures ls != [] ==> Handled(h, account, Run(h, account, s, ls[..|ls| - 1]), ls[|ls| - 1], false).outcome == Done
  {
    hide Clear, Within, ExactIn, Expected, Effect, Handled, LineFine, TargetOf, Delivered, Editable, Ignored,
      ConversationId;
    if ls != [] {
      ReadyBefore(h, account, k, s, ls);
      var init, l := ls[..|ls| - 1], ls[|ls| - 1];
      PassIsEffects(h, account, k, s, init);
      EffectsKeys(h, account, k, s, init);
      assert InOrder(h, account, k, s.rows.Keys, ls, |ls| - 1);
      assert forall i :: 0 <= i < |init| ==> init[i] == ls[i] && InOrder(h, account, k, s.rows.Keys, ls, i);
      EffectsStayClear(h, account, k, s, init, l);
      if Edits(l, account) {
        EditReady(h, account, k, s, ls);
      }
      LineIsEffect(h, account, k, Effects(h, account, k, s, init), l);
    }
  }

  // ----- Both passes are ready -----

  lemma {:induction false} PlacesExpected(h: Hashes, account: string, k: Places, ls: seq<Line>, l: Line)
    requires OnePlace(h, account, k, ls) && Live(l, account)
    requires forall i :: 0 <= i < |ls| && Live(ls[i], account) && DataId(h, ls[i]) == DataId(h, l) ==>
      LinePlace(ls[i]) == LinePlace(l)
    requires (exists i :: 0 <= i < |ls| && ls[i] == l) || (DataId(h, l) in k && k[DataId(h, l)] == LinePlace(l))
    ensures Expected(h, account, PlacesAfter(h, account, k, ls), l)
  {
    hide DataId, LinePlace, Ignored;
    if ls != [] {
      var init, last := ls[..|ls| - 1], ls[|ls| - 1];
      if Live(last, account) && DataId(h, last) == DataId(h, l) {
      } else {
        OnePlaceBefore(h, account, k, ls);
        assert forall i :: 0 <= i < |init| ==> init[i] == ls[i];
        if i :| 0 <= i < |ls| && ls[i] == l {
          assert i < |init|;
        }
        PlacesExpected(h, account, k, init, l);
      }
    }
  }

  lemma OnePlaceBefore(h: Hashes, account: string, k: Places, ls: seq<Line>)
    requires ls != [] && OnePlace(h, account, k, ls)
    ensures OnePlace(h, account, k, ls[..|ls| - 1])
  {
    hide DataId, LinePlace, Live;
    assert forall i :: 0 <= i < |ls| - 1 ==> ls[..|ls| - 1][i] == ls[i];
  }

  lemma LineExpected(h: Hashes, account: string, k: Places, ls: seq<Line>, i: nat)
    requires OnePlace(h, account, k, ls) && i < |ls|
    ensures Expected(h, account, PlacesAfter(h, account, k, ls), ls[i])
  {
    hide DataId, LinePlace, Ignored, PlacesAfter;
    if Live(ls[i], account) {
      forall j | 0 <= j < |ls| && Live(ls[j], account) && DataId(h, ls[j]) == DataId(h, ls[i])
        ensures LinePlace(ls[j]) == LinePlace(ls[i])
      {
      }
      PlacesExpected(h, account, k, ls, ls[i]);
    }
  }

  lemma {:induction false} PlacesGrow(h: Hashes, account: string, k: Places, ls: seq<Line>)
    requires OnePlace(h, account, k, ls)
    ensures Within(k, PlacesAfter(h, account, k, ls))
  {
    hide DataId, LinePlace, Ignored;
    if ls != [] {
      OnePlaceBefore(h, account, k, ls);
      PlacesGrow(h, account, k, ls[..|ls| - 1]);
    }
  }

  /** The batch is ready for a pass over any of its prefixes, from any state whose rows are where
      the batch leaves them, clear for its lines, and at least those the batch starts with. */
  lemma {:induction false} BatchReady(h: Hashes, account: string, rows: Table, ls: seq<Line>, s: State, n: nat)
    requires Batch(h, account, rows, ls) && n <= |ls|
    requires Within(PlacesOf(s.rows), EndPlaces(h, account, rows, ls)) && rows.Keys <= s.rows.Keys
    requires forall i :: 0 <= i < |ls| ==> Clear(h, account, EndPlaces(h, account, rows, ls), s.rows, ls[i])
    ensures Ready(h, account, EndPlaces(h, account, rows, ls), s, ls[..n])
  {
    hide Clear, Within, LineFine, OnePlace, PlacesAfter, ExactIn, Delivered, TargetOf, Expected;
    var k := EndPlaces(h, account, rows, ls);
    forall i | 0 <= i < |ls| ensures InOrder(h, account, k, s.rows.Keys, ls, i) {
      LineExpected(h, account, PlacesOf(rows), ls, i);
      assert Lands(h, account, PlacesOf(rows), ls, i);
      PlacesKeys(h, account, PlacesOf(rows), ls[..i]);
      if Aims(ls[i], account) {
        var id :| id in PlacesAfter(h, account, PlacesOf(rows), ls[..i]) && Finds(h, account, k, ls, i, id);
        ExactUnique(k, id, ls[i]);
      }
    }
    OrderPrefix(h, account, k, s.rows.Keys, ls, n);
    assert forall i :: 0 <= i < n ==> ls[..n][i] == ls[i];
  }

  // ----- Rows the batch does not name -----

  /** A row in a conversation the batch does not touch, under no id or source id of its messages. */
  predicate Beside(h: Hashes, account: string, rows: Table, ls: seq<Line>, m: Message) {
    && m.id !in rows && m.id !in Delivered(h, account, ls)
    && forall i :: 0 <= i < |ls| ==>
      && ConversationId(ls[i].o) != m.conv
      && (ls[i].Data? && m.platform == "signal" ==> m.sourceId != SourceOf(h, ls[i]))
  }

  lemma {:induction false} PlacesBeside(h: Hashes, account: string, k: Places, ls: seq<Line>, id: string, p: Place)
    requires id !in k && id !in Delivered(h, account, ls)
    ensures PlacesAfter(h, account, k[id := p], ls) == PlacesAfter(h, account, k, ls)[id := p]
    ensures id !in PlacesAfter(h, account, k, ls)
  {
    hide DataId, Ignored, LinePlace;
    if ls != [] {
      PlacesBeside(h, account, k, ls[..|ls| - 1], id, p);
    }
  }

  lemma ExactBeside(k: Places, id: string, p: Place, l: Line, x: string)
    requires !l.Data? && id !in k && p.conv != ConversationId(l.o) && ExactIn(k, x, l)
    ensures ExactIn(k[id := p], x, l)
  {
    hide AddressesMatch, Less, ConversationId;
    assert CrowdBefore(k[id := p], ConversationId(l.o), l.target, x)
      == CrowdBefore(k, ConversationId(l.o), l.target, x);
  }

  lemma ClearBeside(h: Hashes, account: string, k: Places, rows: Table, l: Line, m: Message)
    requires Clear(h, account, k, rows, l) && m.id !in k && m.id !in rows && ConversationId(l.o) != m.conv
    requires l.Data? && m.platform == "signal" ==> m.sourceId != SourceOf(h, l)
    requires Reacts(l) ==> ExactIn(k, TargetOf(k, l), l)
    ensures Clear(h, account, k[m.id := PlaceOf(m)], rows[m.id := m], l)
  {
    hide ExactIn, Ignored, DataId, DataTime, SourceOf, IsAlias, TargetOf, Canonical, ConversationId;
    if Reacts(l) {
      ExactBeside(k, m.id, PlaceOf(m), l, TargetOf(k, l));
      ExactUnique(k[m.id := PlaceOf(m)], TargetOf(k, l), l);
      assert TargetOf(k, l) in k by { ExactThere(k, TargetOf(k, l), l); }
    }
  }

  lemma ExactThere(k: Places, id: string, l: Line)
    requires !l.Data? && ExactIn(k, id, l)
    ensures id in k
  {
  }

  lemma {:induction false} DeliveredGrows(h: Hashes, account: string, ls: seq<Line>, n: nat)
    requires n <= |ls|
    ensures Delivered(h, account, ls[..n]) <= Delivered(h, account, ls)
    decreases |ls|
  {
    hide DataId, Live;
    if n < |ls| {
      assert ls[..n] == ls[..|ls| - 1][..n];
      DeliveredGrows(h, account, ls[..|ls| - 1], n);
    } else {
      assert ls[..n] == ls;
    }
  }

  lemma LandsBeside(h: Hashes, account: string, k: Places, ls: seq<Line>, i: nat, id: string, p: Place)
    requires i < |ls| && Lands(h, account, k, ls, i) && id !in k && id !in Delivered(h, account, ls)
    requires p.conv != ConversationId(ls[i].o)
    ensures Lands(h, account, k[id := p], ls, i)
    ensures Aims(ls[i], account) ==>
      ExactIn(PlacesAfter(h, account, k, ls), TargetOf(PlacesAfter(h, account, k, ls), ls[i]), ls[i])
  {
    hide ExactIn, PlacesAfter, Delivered, TargetOf, ConversationId;
    DeliveredGrows(h, account, ls, i);
    PlacesBeside(h, account, k, ls, id, p);
    PlacesBeside(h, account, k, ls[..i], id, p);
    if Aims(ls[i], account) {
      var x :| x in PlacesAfter(h, account, k, ls[..i]) && Finds(h, account, PlacesAfter(h, account, k, ls), ls, i, x);
      ExactUnique(PlacesAfter(h, account, k, ls), x, ls[i]);
      ExactBeside(PlacesAfter(h, account, k, ls), id, p, ls[i], x);
      assert Finds(h, account, PlacesAfter(h, account, k[id := p], ls), ls, i, x);
    }
  }

  /** Rows beside the batch may be anything, their reaction lists in any order. */
  lemma {:induction false} OtherRowsDoNotMatter(h: Hashes, account: string, rows: Table, ls: seq<Line>, m: Message)
    requires Batch(h, account, rows, ls) && Beside(h, account, rows, ls, m)
    ensures Batch(h, account, rows[m.id := m], ls)
  {
    hide Clear, LineFine, PlacesAfter, Delivered, Lands, OnePlace, SourceOf, ConversationId, ExactIn, TargetOf;
    var k, p := PlacesOf(rows), PlaceOf(m);
    var after := PlacesOf(rows[m.id := m]);
    assert after == k[m.id := p];
    PlacesBeside(h, account, k, ls, m.id, p);
    forall i | 0 <= i < |ls|
      ensures Clear(h, account, PlacesAfter(h, account, after, ls), rows[m.id := m], ls[i])
      ensures Lands(h, account, after, ls, i)
    {
      LandsBeside(h, account, k, ls, i, m.id, p);
      ClearBeside(h, account, PlacesAfter(h, account, k, ls), rows, ls[i], m);
    }
    OnePlaceBeside(h, account, k, ls, m.id, p);
  }

  lemma OnePlaceBeside(h: Hashes, account: string, k: Places, ls: seq<Line>, id: string, p: Place)
    requires OnePlace(h, account, k, ls) && id !in Delivered(h, account, ls)
    ensures OnePlace(h, account, k[id := p], ls)
  {
    hide DataId, LinePlace, Ignored, Delivered;
    forall i | 0 <= i < |ls| && Live(ls[i], account) ensures DataId(h, ls[i]) in Delivered(h, account, ls) {
      DeliveredOne(h, account, ls, i);
    }
  }

  lemma DeliveredOne(h: Hashes, account: string, ls: seq<Line>, i: nat)
    requires i < |ls| && Live(ls[i], account)
    ensures DataId(h, ls[i]) in Delivered(h, account, ls)
  {
    hide DataId, Ignored;
    DeliveredGrows(h, account, ls, i + 1);
    assert ls[..i + 1][..i] == ls[..i];
  }
}
