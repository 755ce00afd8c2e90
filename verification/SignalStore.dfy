/** How the Signal bridge applies received messages, edits and reactions to the store. An edit
    whose original is missing can be stored under a placeholder row, which the original absorbs
    and deletes when it arrives. */
module SignalStore {
  import opened Text
  import opened Records
  import opened Ordering
  import opened Upsert
  import opened SignalReactions

  /** A string without surrounding space. */
  type Token = s: string | Trimmed(s) witness ""

  /** What `displayBody` gives: never blank. */
  type Shown = s: string | s != "" && Trimmed(s) witness "x"

  /** The two message id digests over (conversation, sender, time). */
  datatype Hashes = Hashes(message: (string, string, int) -> Token, missingEdit: (string, string, int) -> Token)

  datatype Attachment = Attachment(mime: Token, ref: Token)

  /** An envelope: who sent it, resolved through the contact map, and into which group. */
  datatype Origin = Origin(source: Token, name: string, groupId: Token, groupTitle: Token, ts: int)

  /** A data message; `mentionsMe` and `replyTo` are read off its mentions and quote. */
  datatype Content = Content(ts: int, body: Shown, mentionsMe: bool, replyTo: Token, media: Option<Attachment>)

  datatype Line =
    | Data(o: Origin, c: Content)
    | React(o: Origin, actor: string, target: int, author: Token, emoji: string)
    | Edit(o: Origin, target: int, c: Content)

  datatype State = State(rows: Table, convs: Conversations)

  datatype Outcome = Done | TargetMissing | StoreFailed

  datatype Result = Result(state: State, outcome: Outcome)

  const MISSING_EDIT := "missing-edit:"
  const MATCH_WINDOW := 15000
  const EXACT_LIMIT := 10
  const WINDOW_LIMIT := 50

  function ConversationId(o: Origin): string {
    if o.groupId != "" then "signal-group:" + o.groupId else "signal:" + o.source
  }

  function Label(o: Origin): Token { FirstNonEmpty(o.name, o.source) }

  predicate AddressesMatch(a: string, b: string) {
    TrimSpace(a) != "" && TrimSpace(b) != "" && Fold(TrimSpace(a)) == Fold(TrimSpace(b))
  }

  predicate FromAccount(o: Origin, account: string) {
    o.source != "" && AddressesMatch(o.source, account)
  }

  predicate Addressed(o: Origin) { o.source != "" || o.groupId != "" }

  // ----- Lookups -----

  function InWindow(rows: Table, conv: string, lo: int, hi: int): (S: set<Message>)
    ensures Keyed(S)
    ensures forall m :: m in S <==> m.id in rows && rows[m.id] == m && m.conv == conv && lo <= m.ts <= hi
  {
    set id | id in rows && rows[id].conv == conv && lo <= rows[id].ts <= hi :: rows[id]
  }

  lemma ListedRows(S: set<Message>, n: int)
    requires Keyed(S)
    ensures forall m :: m in Limit(Ascending(S), n) ==> m in S
  {
    hide Ascending, Keyed;
    var s := Ascending(S);
    assert forall m :: m in Limit(s, n) ==> m in s;
  }

  function AtTimestamp(rows: Table, conv: string, ts: int): (r: seq<Message>)
    ensures forall m :: m in r ==> m in InWindow(rows, conv, ts, ts)
  {
    ListedRows(InWindow(rows, conv, ts, ts), EXACT_LIMIT);
    Limit(Ascending(InWindow(rows, conv, ts, ts)), EXACT_LIMIT)
  }

  function NearTimestamp(rows: Table, conv: string, ts: int): (r: seq<Message>)
    ensures forall m :: m in r ==> m in InWindow(rows, conv, ts - MATCH_WINDOW, ts + MATCH_WINDOW)
  {
    ListedRows(InWindow(rows, conv, ts - MATCH_WINDOW, ts + MATCH_WINDOW), WINDOW_LIMIT);
    Limit(Ascending(InWindow(rows, conv, ts - MATCH_WINDOW, ts + MATCH_WINDOW)), WINDOW_LIMIT)
  }

  function Delta(m: Message, ts: int): nat { if m.ts < ts then ts - m.ts else m.ts - ts }

  predicate Eligible(m: Message, author: string) {
    author == "" || AddressesMatch(m.senderNumber, author)
  }

  function Pick(ms: seq<Message>, author: string, ts: int): (r: Option<Message>)
    ensures r.Some? ==> r.value in ms
  {
    if ms == [] then None else
      var best, m := Pick(ms[..|ms| - 1], author, ts), ms[|ms| - 1];
      if Eligible(m, author) && (best.None? || Delta(m, ts) < Delta(best.value, ts)) then Some(m) else best
  }

  function FindTarget(rows: Table, conv: string, ts: int, author: string): (r: Option<Message>)
    ensures r.Some? ==> r.value.id in rows && rows[r.value.id] == r.value
  {
    hide Pick, AtTimestamp, NearTimestamp;
    if ts == 0 then None else
      var exact := Pick(AtTimestamp(rows, conv, ts), author, ts);
      if exact.Some? then exact else Pick(NearTimestamp(rows, conv, ts), author, ts)
  }

  predicate IsPlaceholder(m: Message) { HasPrefix(TrimSpace(m.sourceId), MISSING_EDIT) }

  predicate IsAlias(m: Message, sender: Token, fromMe: bool) {
    IsPlaceholder(m) && m.fromMe == fromMe && (sender != "" ==> AddressesMatch(m.senderNumber, sender))
  }

  function Aliases(ms: seq<Message>, sender: Token, fromMe: bool): seq<Message> {
    if ms == [] then [] else
      Aliases(ms[..|ms| - 1], sender, fromMe) + if IsAlias(ms[|ms| - 1], sender, fromMe) then [ms[|ms| - 1]] else []
  }

  /** The one placeholder of the sender at that time, if it is the only one. */
  function FindAlias(rows: Table, conv: string, ts: int, sender: Token, fromMe: bool): Option<Message> {
    if ts == 0 then None else
      var found := Aliases(AtTimestamp(rows, conv, ts), sender, fromMe);
      if |found| == 1 then Some(found[0]) else None
  }

  // ----- Conversations -----

  function Titled(o: Origin, name: string): string {
    if o.groupId != "" then
      if o.groupTitle != "" then o.groupTitle else if name == "" then "Signal Group" else name
    else if name == "" then o.source else name
  }

  /** The conversation row a data line leaves. */
  function DataConversation(existing: Option<Conversation>, o: Origin, ts: int, isNew: bool): Conversation {
    var base := if existing.None? then Conversation(Label(o), o.groupId != "", [], ts, 1, "signal") else
      existing.value.(lastTS := Max(existing.value.lastTS, ts), isGroup := o.groupId != "", platform := "signal",
                      unread := if isNew then existing.value.unread + 1 else existing.value.unread);
    base.(name := Titled(o, base.name),
          participants := if o.groupId != "" then base.participants else [(Label(o), o.source)])
  }

  /** `ensureSignalConversation` for an edit: no unread is added. */
  function EditConversation(existing: Option<Conversation>, o: Origin): Conversation {
    var base := if existing.None? then Conversation(Label(o), o.groupId != "", [], o.ts, 0, "signal") else
      existing.value.(lastTS := Max(existing.value.lastTS, o.ts), isGroup := o.groupId != "", platform := "signal");
    var name := Titled(o, base.name);
    base.(name := name,
          participants := if o.groupId != "" then base.participants
                          else [(FirstNonEmpty(FirstNonEmpty(name, Label(o)), o.source), o.source)])
  }

  function Existing(convs: Conversations, conv: string): Option<Conversation> {
    if conv in convs then Some(convs[conv]) else None
  }

  // ----- Data messages -----

  function DataTime(l: Line): int
    requires l.Data?
  {
    if l.c.ts == 0 then l.o.ts else l.c.ts
  }

  function DataId(h: Hashes, l: Line): string
    requires l.Data?
  {
    "signal:" + h.message(ConversationId(l.o), l.o.source, DataTime(l))
  }

  function WithMedia(m: Message, c: Content): Message {
    if c.media.Some? then m.(mimeType := c.media.value.mime, mediaId := c.media.value.ref) else m
  }

  /** The row of a data line, before any placeholder is absorbed. */
  function DataRow(h: Hashes, l: Line, convName: string): Message
    requires l.Data?
  {
    var conv, ts := ConversationId(l.o), DataTime(l);
    WithMedia(Message(DataId(h, l), conv, FirstNonEmpty(FirstNonEmpty(Label(l.o), convName), l.o.source), l.o.source,
                      l.c.body, ts, "received", false, l.c.mentionsMe, "", "", "", [], l.c.replyTo, "signal",
                      h.message(conv, l.o.source, ts)), l.c)
  }

  /** `mergeSignalMissingEditPlaceholder`. */
  function Absorbed(m: Message, p: Message): Message {
    m.(body := FirstNonEmpty(p.body, m.body),
       replyTo := FirstNonEmpty(p.replyTo, m.replyTo),
       mentionsMe := m.mentionsMe || p.mentionsMe,
       mediaId := if TrimSpace(m.mediaId) == "" then TrimSpace(p.mediaId) else m.mediaId,
       mimeType := if TrimSpace(m.mimeType) == "" then TrimSpace(p.mimeType) else m.mimeType,
       decryptionKey := if TrimSpace(m.decryptionKey) == "" then TrimSpace(p.decryptionKey) else m.decryptionKey,
       reactions := if m.reactions == [] then p.reactions else m.reactions)
  }

  function AliasFor(rows: Table, l: Line): Option<Message>
    requires l.Data?
  {
    FindAlias(rows, ConversationId(l.o), DataTime(l), l.o.source, false)
  }

  function ToStore(h: Hashes, rows: Table, l: Line, convName: string): Message
    requires l.Data?
  {
    var m, alias := DataRow(h, l, convName), AliasFor(rows, l);
    if alias.Some? then Absorbed(m, alias.value) else m
  }

  function WithoutAlias(rows: Table, l: Line, id: string): Table
    requires l.Data?
  {
    var alias := AliasFor(rows, l);
    if alias.Some? && alias.value.id != id then Deleted(rows, {alias.value.id}) else rows
  }

  /** The rows after a data line is stored, unless the store refuses it. */
  function StoredData(h: Hashes, rows: Table, l: Line, convName: string): Option<Table>
    requires l.Data?
  {
    var m := ToStore(h, rows, l, convName);
    if Accepts(rows, m) then Some(WithoutAlias(UpsertRow(rows, m), l, DataId(h, l))) else None
  }

  predicate Ignored(l: Line, account: string) {
    !Addressed(l.o) || FromAccount(l.o, account)
  }

  function HandledData(h: Hashes, account: string, s: State, l: Line): Result
    requires l.Data?
  {
    if Ignored(l, account) then Result(s, Done) else
      var convo := DataConversation(Existing(s.convs, ConversationId(l.o)), l.o, DataTime(l), DataId(h, l) !in s.rows);
      var convs := s.convs[ConversationId(l.o) := convo];
      var rows := StoredData(h, s.rows, l, convo.name);
      if rows.None? then Result(State(s.rows, convs), StoreFailed) else Result(State(rows.value, convs), Done)
  }

  // ----- Reactions -----

  function HandledReaction(s: State, l: Line): Result
    requires l.React?
  {
    hide FindTarget, Updated, HasChange, ConversationId, Addressed;
    var target := FindTarget(s.rows, ConversationId(l.o), l.target, l.author);
    if !Addressed(l.o) || target.None? || !HasChange(target.value.reactions, l.actor, l.emoji) then Result(s, Done) else
      var m := target.value;
      Result(s.(rows := s.rows[m.id := m.(reactions := Updated(m.reactions, l.actor, l.emoji))]), Done)
  }

  // ----- Edits -----

  function EditedRow(m: Message, c: Content): Message {
    WithMedia(m.(body := c.body, mentionsMe := c.mentionsMe, replyTo := if c.replyTo != ""
      then c.replyTo else m.replyTo), c)
  }

  function AppliedEdit(s: State, conv: string, target: int, author: Token, c: Content): Result {
    if target == 0 then Result(s, Done) else
      var found := FindTarget(s.rows, conv, target, author);
      if found.None? then Result(s, TargetMissing)
      else if !Accepts(s.rows, EditedRow(found.value, c)) then Result(s, StoreFailed)
      else Result(s.(rows := UpsertRow(s.rows, EditedRow(found.value, c))), Done)
  }

  function PlaceholderRow(h: Hashes, o: Origin, ts: int, c: Content): Message {
    var conv := ConversationId(o);
    var sourceId := MISSING_EDIT + h.missingEdit(conv, o.source, ts);
    WithMedia(Message("signal:" + sourceId, conv, Label(o), o.source, c.body, ts, "received", false,
                      c.mentionsMe, "", "", "", [], c.replyTo, "signal", sourceId), c)
  }

  function Materialized(h: Hashes, s: State, o: Origin, ts: int, c: Content): Result {
    var m := PlaceholderRow(h, o, ts, c);
    if !Accepts(s.rows, m) then Result(s, StoreFailed) else Result(s.(rows := UpsertRow(s.rows, m)), Done)
  }

  /** `synthesize` is set when the recovery queue replays the edit. */
  function HandledEdit(h: Hashes, account: string, s: State, l: Line, synthesize: bool): Result
    requires l.Edit?
  {
    if Ignored(l, account) then Result(s, Done) else
      var conv := ConversationId(l.o);
      var ensured := s.(convs := s.convs[conv := EditConversation(Existing(s.convs, conv), l.o)]);
      var r := AppliedEdit(ensured, conv, l.target, l.o.source, l.c);
      if r.outcome == TargetMissing && synthesize then Materialized(h, r.state, l.o, l.target, l.c) else r
  }

  function Handled(h: Hashes, account: string, s: State, l: Line, synthesize: bool): Result {
    match l
    case Data(_, _) => HandledData(h, account, s, l)
    case React(_, _, _, _, _) => HandledReaction(s, l)
    case Edit(_, _, _) => HandledEdit(h, account, s, l, synthesize)
  }

  // ----- The lookups' contracts -----

  /** The pick is the nearest eligible row, the first one among equals, and there is one whenever
      any row is eligible. */
  lemma {:induction false} PickIsNearest(ms: seq<Message>, author: string, ts: int)
    ensures Pick(ms, author, ts).None? <==> forall i :: 0 <= i < |ms| ==> !Eligible(ms[i], author)
    ensures Pick(ms, author, ts).Some? ==>
      exists i :: 0 <= i < |ms| && IsNearest(ms, i, author, ts) && Pick(ms, author, ts) == Some(ms[i])
  {
    hide Eligible;
    if ms != [] {
      var init, m := ms[..|ms| - 1], ms[|ms| - 1];
      PickIsNearest(init, author, ts);
      var best := Pick(init, author, ts);
      if best.Some? {
        var i :| 0 <= i < |init| && IsNearest(init, i, author, ts) && best == Some(init[i]);
        if Eligible(m, author) && Delta(m, ts) < Delta(best.value, ts) {
          assert IsNearest(ms, |ms| - 1, author, ts);
        } else {
          assert IsNearest(ms, i, author, ts) && ms[i] == init[i];
        }
      } else if Eligible(m, author) {
        assert IsNearest(ms, |ms| - 1, author, ts);
      }
    }
  }

  predicate IsNearest(ms: seq<Message>, i: nat, author: string, ts: int)
    requires i < |ms|
  {
    && Eligible(ms[i], author)
    && (forall j :: 0 <= j < |ms| && Eligible(ms[j], author) ==> Delta(ms[i], ts) <= Delta(ms[j], ts))
    && (forall j :: 0 <= j < i && Eligible(ms[j], author) ==> Delta(ms[i], ts) < Delta(ms[j], ts))
  }

  /** When only one row of a listing is eligible, it is picked. */
  lemma {:induction false} PickOnly(ms: seq<Message>, author: string, ts: int, m: Message)
    requires m in ms && Eligible(m, author)
    requires forall x :: x in ms && Eligible(x, author) ==> x == m
    ensures Pick(ms, author, ts) == Some(m)
  {
    hide Eligible, Pick;
    PickIsNearest(ms, author, ts);
    var i :| 0 <= i < |ms| && ms[i] == m;
  }

  lemma PickNone(ms: seq<Message>, author: string, ts: int)
    requires forall x :: x in ms ==> !Eligible(x, author)
    ensures Pick(ms, author, ts) == None
  {
    hide Eligible, Pick;
    PickIsNearest(ms, author, ts);
  }

  /** The only alias in a listing without repetitions. */
  lemma {:induction false} OneAlias(ms: seq<Message>, sender: Token, fromMe: bool, p: Message)
    requires p in ms && IsAlias(p, sender, fromMe)
    requires forall x :: x in ms && IsAlias(x, sender, fromMe) ==> x == p
    requires forall i, j :: 0 <= i < j < |ms| ==> ms[i] != ms[j]
    ensures Aliases(ms, sender, fromMe) == [p]
  {
    hide IsAlias;
    var init, m := ms[..|ms| - 1], ms[|ms| - 1];
    if m == p {
      forall x | x in init ensures !IsAlias(x, sender, fromMe) {
        var i :| 0 <= i < |init| && init[i] == x;
        assert ms[i] != ms[|ms| - 1] && x in ms;
      }
      NoAlias(init, sender, fromMe);
    } else {
      assert p in init;
      OneAlias(init, sender, fromMe, p);
    }
  }

  lemma {:induction false} NoAlias(ms: seq<Message>, sender: Token, fromMe: bool)
    requires forall x :: x in ms ==> !IsAlias(x, sender, fromMe)
    ensures Aliases(ms, sender, fromMe) == []
  {
    hide IsAlias;
    if ms != [] {
      NoAlias(ms[..|ms| - 1], sender, fromMe);
    }
  }

  // ----- The bridge's methods -----

  class Bridge {
    const h: Hashes
    const account: string
    var rows: Table
    var convs: Conversations

    ghost function Now(): State reads this { State(rows, convs) }

    method UpsertMessage(m: Message) returns (ok: bool)
      modifies this`rows
      ensures ok == Accepts(old(rows), m) && rows == UpsertRow(old(rows), m)
    {
      ok := Accepts(rows, m);
      rows := UpsertRow(rows, m);
    }

    method PickReactionTargetMessage(ms: seq<Message>, author: string, ts: int) returns (best: Option<Message>)
      ensures best == Pick(ms, author, ts)
    {
      hide AddressesMatch;
      best := None;
      var bestDelta: int, bestAuthorMatch := -1, false;
      for i := 0 to |ms|
        invariant best == Pick(ms[..i], author, ts)
        invariant best.Some? ==> bestDelta == Delta(best.value, ts) && bestAuthorMatch == (author != "")
      {
        assert ms[..i + 1][..i] == ms[..i];
        var authorMatch := author != "" && AddressesMatch(ms[i].senderNumber, author);
        if author == "" || authorMatch {
          var delta := Delta(ms[i], ts);
          if best.None? || delta < bestDelta || (!bestAuthorMatch && authorMatch) {
            best, bestDelta, bestAuthorMatch := Some(ms[i]), delta, authorMatch;
          }
        }
      }
      assert ms[..|ms|] == ms;
    }

    method FindTimestampTarget(conv: string, ts: int, author: string) returns (target: Option<Message>)
      ensures target == FindTarget(rows, conv, ts, author)
    {
      hide Pick, AtTimestamp, NearTimestamp;
      if ts == 0 {
        return None;
      }
      target := PickReactionTargetMessage(AtTimestamp(rows, conv, ts), author, ts);
      if target.Some? {
        return;
      }
      target := PickReactionTargetMessage(NearTimestamp(rows, conv, ts), author, ts);
    }

    method FindSignalMissingEditAlias(conv: string, ts: int, sender: Token,
          fromMe: bool) returns (alias: Option<Message>)
      ensures alias == FindAlias(rows, conv, ts, sender, fromMe)
    {
      hide IsAlias, AtTimestamp, FindAlias, Aliases;
      AliasIs(rows, conv, ts, sender, fromMe);
      if ts == 0 {
        return None;
      }
      var ms := AtTimestamp(rows, conv, ts);
      alias := None;
      NoneListed(sender, fromMe);
      for i := 0 to |ms|
        invariant Aliases(ms[..i], sender, fromMe) == if alias.Some? then [alias.value] else []
      {
        AliasesNext(ms, i, sender, fromMe);
        if IsAlias(ms[i], sender, fromMe) {
          if alias.Some? {
            AliasesGrow(ms, i + 1, sender, fromMe);
            return None;
          }
          alias := Some(ms[i]);
        }
      }
      assert ms[..|ms|] == ms;
    }

    method StoreDataMessage(l: Line, convName: string) returns (outcome: Outcome)
      requires l.Data?
      modifies this`rows
      ensures var stored := StoredData(h, old(rows), l, convName);
        if stored.Some? then rows == stored.value && outcome == Done else rows == old(rows) && outcome == StoreFailed
    {
      hide FindAlias, Accepts, Absorbed, DataRow, UpsertRow, ConversationId, DataTime, DataId, Deleted;
      var conv, ts := ConversationId(l.o), DataTime(l);
      var m := DataRow(h, l, convName);
      var placeholder := FindSignalMissingEditAlias(conv, ts, l.o.source, false);
      if placeholder.Some? {
        m := Absorbed(m, placeholder.value);
      }
      assert m == ToStore(h, rows, l, convName);
      ToStoreId(h, rows, l, convName);
      var ok := UpsertMessage(m);
      if !ok {
        return StoreFailed;
      }
      placeholder := FindSignalMissingEditAlias(conv, ts, l.o.source, false);
      if placeholder.Some? && placeholder.value.id != m.id {
        rows := Deleted(rows, {placeholder.value.id});
      }
      outcome := Done;
    }

    method HandleDataMessage(l: Line) returns (outcome: Outcome)
      requires l.Data?
      modifies this
      ensures Result(Now(), outcome) == HandledData(h, account, old(Now()), l)
    {
      hide StoredData, DataConversation, FromAccount, Addressed, ConversationId, DataTime, DataId;
      if !Addressed(l.o) || FromAccount(l.o, account) {
        return Done;
      }
      var conv := ConversationId(l.o);
      var convo := DataConversation(if conv in convs
        then Some(convs[conv]) else None, l.o, DataTime(l), DataId(h, l) !in rows);
      convs := convs[conv := convo];
      outcome := StoreDataMessage(l, convo.name);
    }

    method ApplyReaction(l: Line)
      requires l.React?
      modifies this
      ensures Result(Now(), Done) == HandledReaction(old(Now()), l)
    {
      hide FindTarget, Updated, HasChange;
      if !Addressed(l.o) {
        return;
      }
      var target := FindTimestampTarget(ConversationId(l.o), l.target, l.author);
      if target.None? {
        return;
      }
      var next, changed := UpdateStoredReactions(target.value.reactions, l.actor, l.emoji);
      if !changed {
        return;
      }
      rows := rows[target.value.id := target.value.(reactions := next)];
    }

    method ApplySignalEdit(conv: string, target: int, author: Token, c: Content) returns (outcome: Outcome)
      modifies this`rows
      ensures Result(Now(), outcome) == AppliedEdit(old(Now()), conv, target, author, c)
    {
      hide FindTarget, Accepts, UpsertRow, EditedRow;
      if target == 0 {
        return Done;
      }
      var found := FindTimestampTarget(conv, target, author);
      if found.None? {
        return TargetMissing;
      }
      var ok := UpsertMessage(EditedRow(found.value, c));
      outcome := if ok then Done else StoreFailed;
    }

    /** An edit without a target time takes its own, or the clock's. */
    method MaterializeMissingSignalEdit(o: Origin, target: int, c: Content, now: int) returns (outcome: Outcome)
      modifies this`rows
      ensures Result(Now(), outcome) ==
        Materialized(h, old(Now()), o, if target != 0 then target else if c.ts != 0 then c.ts else now, c)
    {
      hide Accepts, UpsertRow, PlaceholderRow;
      var ts := target;
      if ts == 0 {
        ts := c.ts;
      }
      if ts == 0 {
        ts := now;
      }
      var ok := UpsertMessage(PlaceholderRow(h, o, ts, c));
      outcome := if ok then Done else StoreFailed;
    }

    /** A missing target has a time, so the clock is never asked. */
    method HandleEditMessage(l: Line, synthesizeOnMissing: bool, now: int) returns (outcome: Outcome)
      requires l.Edit?
      modifies this
      ensures Result(Now(), outcome) == HandledEdit(h, account, old(Now()), l, synthesizeOnMissing)
    {
      hide FindTarget, Accepts, UpsertRow, EditedRow, Materialized, EditConversation, FromAccount;
      if !Addressed(l.o) || FromAccount(l.o, account) {
        return Done;
      }
      var conv := ConversationId(l.o);
      convs := convs[conv := EditConversation(if conv in convs then Some(convs[conv]) else None, l.o)];
      outcome := ApplySignalEdit(conv, l.target, l.o.source, l.c);
      if outcome == TargetMissing && synthesizeOnMissing {
        outcome := MaterializeMissingSignalEdit(l.o, l.target, l.c, now);
      }
    }
  }

  lemma ToStoreId(h: Hashes, rows: Table, l: Line, convName: string)
    requires l.Data?
    ensures ToStore(h, rows, l, convName).id == DataId(h, l)
  {
    hide FindAlias;
  }

  lemma AliasIs(rows: Table, conv: string, ts: int, sender: Token, fromMe: bool)
    ensures var found := Aliases(AtTimestamp(rows, conv, ts), sender, fromMe);
      FindAlias(rows, conv, ts, sender, fromMe) == if ts == 0 || |found| != 1 then None else Some(found[0])
  {
    hide Aliases, AtTimestamp;
  }

  lemma NoneListed(sender: Token, fromMe: bool)
    ensures Aliases([], sender, fromMe) == []
  {
  }

  lemma AliasesNext(ms: seq<Message>, i: nat, sender: Token, fromMe: bool)
    requires i < |ms|
    ensures Aliases(ms[..i + 1], sender, fromMe)
      == Aliases(ms[..i], sender, fromMe) + if IsAlias(ms[i], sender, fromMe) then [ms[i]] else []
  {
    hide IsAlias;
    assert ms[..i + 1][..i] == ms[..i];
  }

  lemma {:induction false} AliasesGrow(ms: seq<Message>, k: nat, sender: Token, fromMe: bool)
    requires k <= |ms|
    ensures |Aliases(ms[..k], sender, fromMe)| <= |Aliases(ms, sender, fromMe)|
    decreases |ms| - k
  {
    if k == |ms| {
      assert ms[..k] == ms;
    } else {
      assert ms[..k + 1][..k] == ms[..k];
      AliasesGrow(ms, k + 1, sender, fromMe);
    }
  }
}
