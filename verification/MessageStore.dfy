/** The messages table with its search index: the index is a second table of (id, body) rows that
    every write path has to keep in step, or to rebuild. */
module MessageStore {
  import opened Text
  import opened Records
  import opened Ordering
  import opened Upsert
  import Recency

  datatype IndexRow = IndexRow(id: string, body: string)

  type Index = seq<IndexRow>

  datatype DB = DB(rows: Table, convs: Conversations, index: Index)

  // ----- The index -----

  /** The indexed bodies of one id, one per index row. */
  function Bodies(index: Index, id: string): seq<string> {
    if index == [] then [] else
      Bodies(index[..|index| - 1], id) + if index[|index| - 1].id == id then [index[|index| - 1].body] else []
  }

  /** `DELETE FROM messages_fts WHERE message_id IN ...`. */
  function Without(index: Index, gone: set<string>): Index {
    if index == [] then [] else
      Without(index[..|index| - 1], gone) + if index[|index| - 1].id in gone then [] else [index[|index| - 1]]
  }

  function Synced(index: Index, id: string, body: string): Index {
    Without(index, {id}) + [IndexRow(id, body)]
  }

  /** The index rows of the first `n` messages. */
  function Entries(s: seq<Message>, n: nat): (r: Index)
    requires n <= |s|
    ensures |r| == n
  {
    if n == 0 then [] else Entries(s, n - 1) + [IndexRow(s[n - 1].id, s[n - 1].body)]
  }

  function AllRows(rows: Table): (S: set<Message>)
    ensures Keyed(S) && forall m :: m in S <==> m.id in rows && rows[m.id] == m
  {
    set id | id in rows :: rows[id]
  }

  /** The index built from scratch. */
  function Fill(rows: Table): Index {
    var s := Ascending(AllRows(rows));
    Entries(s, |s|)
  }

  /** Every message has exactly one index row, with its body. There may be rows of others. */
  ghost predicate Indexed(rows: Table, index: Index) {
    forall id :: id in rows ==> Bodies(index, id) == [rows[id].body]
  }

  /** The index is exactly the table. */
  ghost predicate Agrees(rows: Table, index: Index) {
    forall id :: Bodies(index, id) == if id in rows then [rows[id].body] else []
  }

  lemma BodiesAppend(index: Index, r: IndexRow, id: string)
    ensures Bodies(index + [r], id) == Bodies(index, id) + if r.id == id then [r.body] else []
  {
    assert (index + [r])[..|index|] == index;
  }

  lemma {:induction false} WithoutBodies(index: Index, gone: set<string>, id: string)
    ensures Bodies(Without(index, gone), id) == if id in gone then [] else Bodies(index, id)
  {
    if index != [] {
      var init, r := index[..|index| - 1], index[|index| - 1];
      WithoutBodies(init, gone, id);
      if r.id in gone {
        assert Without(index, gone) == Without(init, gone);
      } else {
        BodiesAppend(Without(init, gone), r, id);
      }
    }
  }

  lemma SyncedBodies(index: Index, id: string, body: string, x: string)
    ensures Bodies(Synced(index, id, body), x) == if x == id then [body] else Bodies(index, x)
  {
    WithoutBodies(index, {id}, x);
    BodiesAppend(Without(index, {id}), IndexRow(id, body), x);
  }

  lemma {:induction false} EntriesBodies(s: seq<Message>, n: nat, id: string)
    requires n <= |s| && forall i, j :: 0 <= i < j < |s| ==> s[i].id != s[j].id
    ensures (exists i :: 0 <= i < n && s[i].id == id && Bodies(Entries(s, n), id) == [s[i].body])
         || ((forall i :: 0 <= i < n ==> s[i].id != id) && Bodies(Entries(s, n), id) == [])
  {
    if n > 0 {
      EntriesBodies(s, n - 1, id);
      BodiesAppend(Entries(s, n - 1), IndexRow(s[n - 1].id, s[n - 1].body), id);
    }
  }

  lemma FillAgrees(rows: Table)
    ensures Agrees(rows, Fill(rows))
  {
    hide Entries, Bodies, Ascending, Less;
    var s := Ascending(AllRows(rows));
    forall i, j | 0 <= i < j < |s| ensures s[i].id != s[j].id {
      LessIrreflexive(s[i].id);
      assert Before(s[i], s[j]);
      assert s[i] in s && s[j] in s && s[i] in AllRows(rows) && s[j] in AllRows(rows);
      if s[i] == s[j] { BeforeAsym(s[i], s[j]); }
    }
    forall id ensures Bodies(Fill(rows), id) == if id in rows then [rows[id].body] else [] {
      EntriesBodies(s, |s|, id);
      if id in rows {
        assert rows[id] in AllRows(rows);
        var i :| 0 <= i < |s| && s[i] == rows[id];
        forall j | 0 <= j < |s| && s[j].id == id ensures s[j] == rows[id] {
          assert s[j] in s && s[j] in AllRows(rows);
        }
      } else {
        forall i | 0 <= i < |s| ensures s[i].id != id {
          assert s[i] in s && s[i] in AllRows(rows);
        }
      }
    }
  }

  /** A table whose every message is indexed has at least as many index rows as messages, and as
      many only when there are no others: equal counts are proof enough to skip a rebuild. */
  lemma {:induction false} EqualCountsExactly(rows: Table, index: Index)
    requires Indexed(rows, index)
    ensures |index| >= |rows|
    ensures |index| == |rows| <==> Agrees(rows, index)
  {
    if index == [] {
      NothingIndexed(rows);
    } else {
      var init, r := index[..|index| - 1], index[|index| - 1];
      assert index == init + [r];
      if r.id in rows {
        ShrinkBoth(rows, init, r);
        EqualCountsExactly(Deleted(rows, {r.id}), init);
      } else {
        NotIndexedLast(rows, init, r);
        EqualCountsExactly(rows, init);
      }
    }
  }

  lemma NothingIndexed(rows: Table)
    requires Indexed(rows, [])
    ensures rows == map[]
  {
  }

  lemma BodiesAppendAll(init: Index, r: IndexRow)
    ensures forall id :: Bodies(init + [r], id) == Bodies(init, id) + if r.id == id then [r.body] else []
  {
    hide Bodies;
    forall id ensures Bodies(init + [r], id) == Bodies(init, id) + if r.id == id then [r.body] else [] {
      BodiesAppend(init, r, id);
    }
  }

  /** The last index row is the only one of its message. */
  lemma LastIsOnly(rows: Table, init: Index, r: IndexRow)
    requires r.id in rows && Indexed(rows, init + [r])
    ensures Bodies(init, r.id) == [] && r.body == rows[r.id].body
  {
    hide Bodies;
    BodiesAppend(init, r, r.id);
    assert Bodies(init + [r], r.id) == [rows[r.id].body];
    assert |Bodies(init + [r], r.id)| == 1 && Bodies(init + [r], r.id)[|Bodies(init, r.id)|] == r.body;
  }

  lemma {:induction false} ShrinkBoth(rows: Table, init: Index, r: IndexRow)
    requires r.id in rows && Indexed(rows, init + [r])
    ensures Indexed(Deleted(rows, {r.id}), init) && |Deleted(rows, {r.id})| == |rows| - 1
    ensures Agrees(rows, init + [r]) <==> Agrees(Deleted(rows, {r.id}), init)
  {
    hide Bodies;
    var less := Deleted(rows, {r.id});
    BodiesAppendAll(init, r);
    LastIsOnly(rows, init, r);
    assert |less| == |less.Keys| && |rows| == |rows.Keys| && less.Keys == rows.Keys - {r.id};
    AgreesShrinks(rows, less, init, r);
  }

  lemma AgreesShrinks(rows: Table, less: Table, init: Index, r: IndexRow)
    requires r.id in rows && less == Deleted(rows, {r.id}) && Bodies(init, r.id) == [] && r.body == rows[r.id].body
    ensures Agrees(rows, init + [r]) <==> Agrees(less, init)
  {
    hide Bodies, Agrees;
    if Agrees(less, init) { AgreesAfter(rows, less, init, r); }
    if Agrees(rows, init + [r]) { AgreesBefore(rows, less, init, r); }
  }

  lemma AgreesAfter(rows: Table, less: Table, init: Index, r: IndexRow)
    requires r.id in rows && less == Deleted(rows, {r.id}) && r.body == rows[r.id].body && Agrees(less, init)
    ensures Agrees(rows, init + [r])
  {
    hide Bodies;
    forall id ensures Bodies(init + [r], id) == if id in rows then [rows[id].body] else [] {
      BodiesAppend(init, r, id);
    }
  }

  lemma AgreesBefore(rows: Table, less: Table, init: Index, r: IndexRow)
    requires r.id in rows && less == Deleted(rows, {r.id}) && Bodies(init, r.id) == [] && Agrees(rows, init + [r])
    ensures Agrees(less, init)
  {
    hide Bodies;
    forall id ensures Bodies(init, id) == if id in less then [less[id].body] else [] {
      BodiesAppend(init, r, id);
    }
  }

  lemma NotIndexedLast(rows: Table, init: Index, r: IndexRow)
    requires r.id !in rows && Indexed(rows, init + [r])
    ensures Indexed(rows, init) && !Agrees(rows, init + [r])
  {
    BodiesAppend(init, r, r.id);
    forall id | id in rows ensures Bodies(init, id) == [rows[id].body] {
      BodiesAppend(init, r, id);
    }
  }

  // ----- Write paths -----

  function Upserted(db: DB, m: Message): DB {
    if !Accepts(db.rows, m) then db else
      var rows := UpsertRow(db.rows, m);
      db.(rows := rows, index := Synced(db.index, m.id, rows[m.id].body))
  }

  function SetRecency(convs: Conversations, id: string, ts: int): Conversations {
    if id in convs then convs[id := convs[id].(lastTS := ts)] else convs
  }

  /** A sent message sets the recency outright. */
  function Recorded(db: DB, m: Message): DB {
    if !Accepts(db.rows, m) then db else
      Upserted(db, m).(convs := SetRecency(db.convs, m.conv, m.ts))
  }

  function Removed(db: DB, gone: set<string>): DB {
    db.(rows := Deleted(db.rows, gone), index := Without(db.index, gone * db.rows.Keys))
  }

  function Merged(source: Conversation, target: Option<Conversation>): Conversation {
    if target.None? then source else
      var t := target.value;
      t.(name := if t.name == "" then source.name else t.name,
         isGroup := t.isGroup || source.isGroup,
         participants := if t.participants == [] then source.participants else t.participants,
         lastTS := Max(source.lastTS, t.lastTS),
         unread := if source.unread > t.unread then source.unread else t.unread,
         platform := if t.platform == "" then source.platform else t.platform)
  }

  function Rehomed(rows: Table, source: string, target: string): (r: Table)
    ensures r.Keys == rows.Keys && forall id :: id in r ==> r[id].body == rows[id].body
  {
    map id | id in rows :: if rows[id].conv == source then rows[id].(conv := target) else rows[id]
  }

  function ConversationsMerged(db: DB, source: string, target: string): DB {
    if source == "" || target == "" || source == target || source !in db.convs then db else
      var merged := Merged(db.convs[source], if target in db.convs then Some(db.convs[target]) else None);
      db.(rows := Rehomed(db.rows, source, target), convs := db.convs[target := Recency.Stored(merged)] - {source})
  }

  function OfConversation(rows: Table, conv: string): set<string> {
    set id | id in rows && rows[id].conv == conv
  }

  /** Leaves the index rows behind. */
  function ConversationDeleted(db: DB, conv: string): DB {
    if TrimSpace(conv) == "" then db else
      db.(rows := Deleted(db.rows, OfConversation(db.rows, conv)), convs := db.convs - {conv})
  }

  /** The statement takes any reactions, and nothing for a missing row. */
  function ReactionsSet(db: DB, id: string, rs: seq<Reaction>): DB {
    if id in db.rows then db.(rows := db.rows[id := db.rows[id].(reactions := rs)]) else db
  }

  // ----- Legacy repair -----

  const SIGNAL_BLANK_BODY := "[Unsupported Signal message]"

  predicate Bare(m: Message) {
    m.mediaId == "" && m.mimeType == "" && m.reactions == [] && m.replyTo == ""
  }

  predicate IsPlaceholder(m: Message) {
    && Bare(m) && m.sourceId != ""
    && (|| (m.platform == "whatsapp" && (m.body == "[Reaction]" || m.body == "[Unsupported message]"))
        || (m.platform == "signal" && m.body == "[Reaction]"))
  }

  /** SQL's TRIM strips spaces only. */
  predicate IsBlank(m: Message) {
    m.platform == "signal" && Bare(m) && forall i :: 0 <= i < |m.body| ==> m.body[i] == ' '
  }

  function Placeholders(rows: Table): set<string> {
    set id | id in rows && IsPlaceholder(rows[id])
  }

  function Blanks(rows: Table): set<string> {
    set id | id in rows && IsBlank(rows[id])
  }

  /** `LIKE 'OUTGOING%'` ignores ASCII case. */
  predicate IsMisattributed(m: Message, convs: Conversations) {
    && m.conv in convs && convs[m.conv].platform == "sms"
    && (m.platform == "" || m.platform == "sms") && !m.fromMe
    && HasPrefix(Fold(m.status), "outgoing")
  }

  function Attributed(m: Message, self: (string, string)): Message {
    m.(fromMe := true, platform := if m.platform == "" then "sms" else m.platform,
       senderName := Keep(m.senderName, self.0), senderNumber := Keep(m.senderNumber, self.1))
  }

  function Unblanked(m: Message): Message {
    if IsBlank(m) then m.(body := SIGNAL_BLANK_BODY) else m
  }

  function RepairedRows(rows: Table, convs: Conversations, self: (string, string)): (r: Table)
    ensures r.Keys == rows.Keys - Placeholders(rows)
    ensures forall id :: id in r ==> r[id].body == Unblanked(rows[id]).body
  {
    map id | id in rows && !IsPlaceholder(rows[id]) ::
      var m := Unblanked(rows[id]); if IsMisattributed(m, convs) then Attributed(m, self) else m
  }

  function LatestTS(rows: Table, conv: string): int {
    var s := Descending(InConversation(rows, conv));
    if s == [] then 0 else s[0].ts
  }

  function Affected(rows: Table): set<string> {
    set id | id in Placeholders(rows) :: rows[id].conv
  }

  function RecencyReset(convs: Conversations, rows: Table, affected: set<string>): Conversations {
    map c | c in convs :: if c in affected then convs[c].(lastTS := LatestTS(rows, c)) else convs[c]
  }

  /** The repair transaction, without the rebuild that follows it. */
  function RepairCommitted(db: DB, self: (string, string)): DB {
    var rows := RepairedRows(db.rows, db.convs, self);
    db.(rows := rows, convs := RecencyReset(db.convs, rows, Affected(db.rows)))
  }

  predicate NeedsRebuild(rows: Table) {
    Placeholders(rows) != {} || Blanks(rows) != {}
  }

  function Repaired(db: DB, self: (string, string)): DB {
    var after := RepairCommitted(db, self);
    if NeedsRebuild(db.rows) then after.(index := Fill(after.rows)) else after
  }

  /** `rebuildFTS` at start: rebuild only when the counts differ. */
  function Restarted(db: DB): DB {
    if |db.index| == |db.rows| then db else db.(index := Fill(db.rows))
  }

  /** The reset recency is the newest message's time, or zero for an empty conversation. */
  lemma LatestIsNewest(rows: Table, conv: string)
    ensures InConversation(rows, conv) == {} ==> LatestTS(rows, conv) == 0
    ensures InConversation(rows, conv) != {} ==>
      exists m :: m in InConversation(rows, conv) && m.ts == LatestTS(rows, conv)
    ensures forall m :: m in InConversation(rows, conv) ==> m.ts <= LatestTS(rows, conv)
  {
    hide InConversation, Descending, Less;
    var S := InConversation(rows, conv);
    var s := Descending(S);
    if s != [] {
      assert s[0] in s;
    }
    forall m | m in S ensures m.ts <= LatestTS(rows, conv) {
      assert m in s;
      var i :| 0 <= i < |s| && s[i] == m;
    }
    if S != {} {
      var m :| m in S;
      assert m in s;
    }
  }

  lemma RepairedRow(rows: Table, convs: Conversations, self: (string, string), id: string)
    requires id in RepairedRows(rows, convs, self)
    ensures var m := RepairedRows(rows, convs, self)[id];
      !IsPlaceholder(m) && !IsBlank(m) && !IsMisattributed(m, convs)
  {
    hide Fold, HasPrefix;
    var o := rows[id];
    assert SIGNAL_BLANK_BODY[0] == '[';
    assert !IsBlank(Unblanked(o)) && !IsPlaceholder(Unblanked(o));
  }

  /** A repaired store needs no repair: the next start finds no placeholder, no blank body and no
      misattributed row, and changes nothing. */
  lemma RepairSettles(db: DB, self: (string, string), next: (string, string))
    ensures var after := RepairCommitted(db, self);
      !NeedsRebuild(after.rows) && RepairCommitted(after, next) == after
    ensures Repaired(Repaired(db, self), next) == Repaired(db, self)
  {
    hide IsPlaceholder, IsBlank, IsMisattributed, Attributed, LatestTS, Fill;
    var after := RepairCommitted(db, self);
    forall id | id in after.rows
      ensures !IsPlaceholder(after.rows[id]) && !IsBlank(after.rows[id]) &&
        !IsMisattributed(after.rows[id], after.convs)
    {
      RepairedRow(db.rows, db.convs, self, id);
      SameVerdict(after.rows[id], db.convs, after.convs);
    }
    assert Placeholders(after.rows) == {} && Blanks(after.rows) == {};
    assert RepairedRows(after.rows, after.convs, next) == after.rows;
    assert Affected(after.rows) == {};
    assert RecencyReset(after.convs, after.rows, {}) == after.convs;
  }

  /** Attribution looks at platforms only, which a repair leaves alone. */
  lemma SameVerdict(m: Message, convs: Conversations, after: Conversations)
    requires convs.Keys == after.Keys && forall c :: c in convs ==> after[c].platform == convs[c].platform
    ensures IsMisattributed(m, after) == IsMisattributed(m, convs)
  {
  }

  lemma ConversationSize(rows: Table, conv: string)
    ensures |InConversation(rows, conv)| == |OfConversation(rows, conv)|
  {
    var ids := OfConversation(rows, conv);
    ImageSize(rows, ids);
    assert InConversation(rows, conv) == set id | id in ids :: rows[id];
  }

  /** Merging a conversation into another moves its messages and nothing else: the target then has
      its own and the source's, none lost and none twice, and every other conversation its own. */
  lemma {:induction false} MergeMovesRows(db: DB, source: string, target: string)
    requires source != "" && target != "" && source != target && source in db.convs
    ensures var after := ConversationsMerged(db, source, target);
      && after.rows.Keys == db.rows.Keys
      && (forall id :: id in db.rows ==> after.rows[id] == Homed(db.rows[id], source, target))
      && InConversation(after.rows, source) == {}
      && |InConversation(after.rows, target)| == |InConversation(db.rows, target)| + |InConversation(db.rows, source)|
      && forall c :: c != source && c != target ==> InConversation(after.rows, c) == InConversation(db.rows, c)
  {
    hide Merged, InConversation, Rehomed;
    RehomedIs(db.rows, source, target);
    RehomedSize(db.rows, source, target);
    forall c | c != source && c != target
      ensures InConversation(Rehomed(db.rows, source, target), c) == InConversation(db.rows, c)
    {
      RehomedOther(db.rows, source, target, c);
    }
  }

  lemma RehomedIs(rows: Table, source: string, target: string)
    requires source != target
    ensures forall id :: id in rows ==> Rehomed(rows, source, target)[id] == Homed(rows[id], source, target)
    ensures InConversation(Rehomed(rows, source, target), source) == {}
  {
  }

  lemma RehomedIds(rows: Table, source: string, target: string)
    requires source != target
    ensures OfConversation(Rehomed(rows, source, target), target)
      == OfConversation(rows, target) + OfConversation(rows, source)
    ensures OfConversation(rows, target) !! OfConversation(rows, source)
  {
    var after := Rehomed(rows, source, target);
    forall id | id in rows ensures after[id].conv == target <==> rows[id].conv in {source, target} {
    }
  }

  lemma RehomedSize(rows: Table, source: string, target: string)
    requires source != target
    ensures |InConversation(Rehomed(rows, source, target), target)|
      == |InConversation(rows, target)| + |InConversation(rows, source)|
  {
    hide InConversation, OfConversation, Rehomed;
    ConversationSize(rows, source);
    ConversationSize(rows, target);
    ConversationSize(Rehomed(rows, source, target), target);
    RehomedIds(rows, source, target);
  }

  lemma RehomedOther(rows: Table, source: string, target: string, c: string)
    requires c != source && c != target
    ensures InConversation(Rehomed(rows, source, target), c) == InConversation(rows, c)
  {
    var after := Rehomed(rows, source, target);
    forall id | id in rows && rows[id].conv == c ensures after[id] == rows[id] {
    }
  }

  function Homed(m: Message, source: string, target: string): Message {
    if m.conv == source then m.(conv := target) else m
  }

  /** The merged record is as recent and as unread as either, keeps a name and participants if
      there were any, invents nothing, and prefers the target's name; other records stay. */
  lemma MergeLosesNothing(db: DB, source: string, target: string)
    requires source != "" && target != "" && source != target && source in db.convs
    ensures var after := ConversationsMerged(db, source, target).convs; var s := db.convs[source];
      && after.Keys == db.convs.Keys - {source} + {target}
      && (forall c :: c in after && c != target ==> after[c] == db.convs[c])
      && Covers(after[target], s)
      && (target in db.convs ==> Covers(after[target], db.convs[target]) && AtMost(after[target], s, db.convs[target]))
      && (target in db.convs && db.convs[target].name != "" ==> after[target].name == db.convs[target].name)
  {
    hide Rehomed, Merged, Recency.Stored, Covers, AtMost;
    MergedCovers(db.convs[source], if target in db.convs then Some(db.convs[target]) else None);
  }

  lemma MergedCovers(source: Conversation, target: Option<Conversation>)
    ensures var v := Recency.Stored(Merged(source, target));
      && Covers(v, source)
      && (target.Some? ==> Covers(v, target.value) && AtMost(v, source, target.value))
      && (target.Some? && target.value.name != "" ==> v.name == target.value.name)
  {
  }

  predicate Covers(v: Conversation, c: Conversation) {
    && c.lastTS <= v.lastTS && c.unread <= v.unread && (c.isGroup ==> v.isGroup)
    && (c.name != "" ==> v.name != "") && (c.participants != [] ==> v.participants != [])
  }

  predicate AtMost(v: Conversation, a: Conversation, b: Conversation) {
    && (v.lastTS == a.lastTS || v.lastTS == b.lastTS) && (v.unread == a.unread || v.unread == b.unread)
    && (v.name == a.name || v.name == b.name) && (v.participants == a.participants || v.participants == b.participants)
    && (v.isGroup ==> a.isGroup || b.isGroup)
  }

  // ----- Runs -----

  datatype Event =
    | UpsertMessage(m: Message)
    | RecordOutgoing(m: Message)
    | SetReactions(id: string, rs: seq<Reaction>)
    | DeleteMessages(gone: set<string>)
    | MergeConversations(source: string, target: string)
    | DeleteConversation(conv: string)
    | Repair(self: (string, string))
    | Restart

  function Step(db: DB, e: Event): DB {
    match e
    case UpsertMessage(m) => Upserted(db, m)
    case RecordOutgoing(m) => Recorded(db, m)
    case SetReactions(id, rs) => ReactionsSet(db, id, rs)
    case DeleteMessages(gone) => Removed(db, gone)
    case MergeConversations(source, target) => ConversationsMerged(db, source, target)
    case DeleteConversation(conv) => ConversationDeleted(db, conv)
    case Repair(self) => Repaired(db, self)
    case Restart => Restarted(db)
  }

  function Run(db: DB, es: seq<Event>): DB {
    if es == [] then db else Step(Run(db, es[..|es| - 1]), es[|es| - 1])
  }

  lemma UpsertKeepsIndex(db: DB, m: Message)
    requires Indexed(db.rows, db.index)
    ensures Indexed(Upserted(db, m).rows, Upserted(db, m).index)
  {
    hide Synced, Bodies, Accepts, Written;
    var after := Upserted(db, m);
    if Accepts(db.rows, m) {
      forall id | id in after.rows ensures Bodies(after.index, id) == [after.rows[id].body] {
        SyncedBodies(db.index, m.id, after.rows[m.id].body, id);
      }
    }
  }

  lemma RemoveKeepsIndex(db: DB, gone: set<string>)
    requires Indexed(db.rows, db.index)
    ensures Indexed(Removed(db, gone).rows, Removed(db, gone).index)
  {
    hide Without, Bodies;
    forall id | id in Deleted(db.rows, gone) ensures Bodies(Removed(db, gone).index, id) == [db.rows[id].body] {
      WithoutBodies(db.index, gone * db.rows.Keys, id);
    }
  }

  lemma SameBodiesKeepIndex(rows: Table, after: Table, index: Index)
    requires Indexed(rows, index) && after.Keys <= rows.Keys
    requires forall id :: id in after ==> after[id].body == rows[id].body
    ensures Indexed(after, index)
  {
  }

  lemma {:induction false} RepairKeepsIndex(db: DB, self: (string, string))
    requires Indexed(db.rows, db.index)
    ensures Indexed(Repaired(db, self).rows, Repaired(db, self).index)
  {
    hide Bodies, Fill, IsBlank, IsPlaceholder, IsMisattributed, LatestTS;
    var rows := RepairedRows(db.rows, db.convs, self);
    if NeedsRebuild(db.rows) {
      FillAgrees(rows);
    } else {
      forall id | id in rows ensures rows[id].body == db.rows[id].body {
        assert id !in Blanks(db.rows);
      }
      SameBodiesKeepIndex(db.rows, rows, db.index);
    }
  }

  lemma StepKeepsIndex(db: DB, e: Event)
    requires Indexed(db.rows, db.index)
    ensures Indexed(Step(db, e).rows, Step(db, e).index)
  {
    hide Indexed, Upserted, Fill, RepairedRows, Deleted, Without, Rehomed, Accepts;
    match e
    case UpsertMessage(m) => UpsertKeepsIndex(db, m);
    case RecordOutgoing(m) => UpsertKeepsIndex(db, m);
    case SetReactions(id, rs) => SameBodiesKeepIndex(db.rows, ReactionsSet(db, id, rs).rows, db.index);
    case DeleteMessages(gone) => RemoveKeepsIndex(db, gone);
    case MergeConversations(source, target) => SameBodiesKeepIndex(db.rows,
      ConversationsMerged(db, source, target).rows, db.index);
    case DeleteConversation(conv) => SameBodiesKeepIndex(db.rows, ConversationDeleted(db, conv).rows, db.index);
    case Repair(self) => RepairKeepsIndex(db, self);
    case Restart => FillIndexes(db.rows);
  }

  lemma FillIndexes(rows: Table)
    ensures Indexed(rows, Fill(rows))
  {
    FillAgrees(rows);
  }

  /** Main result: over every run, each live message has exactly one index row, holding its merged
      body. */
  lemma {:induction false} RunKeepsIndex(db: DB, es: seq<Event>)
    requires Indexed(db.rows, db.index)
    ensures Indexed(Run(db, es).rows, Run(db, es).index)
  {
    hide Indexed, Step;
    if es != [] {
      RunKeepsIndex(db, es[..|es| - 1]);
      StepKeepsIndex(Run(db, es[..|es| - 1]), es[|es| - 1]);
    }
  }

  /** After a start the index is exactly the table, whether or not it was rebuilt. */
  lemma {:induction false} RestartIsExact(db: DB, es: seq<Event>)
    requires Indexed(db.rows, db.index)
    ensures var s := Restarted(Run(db, es)); Agrees(s.rows, s.index)
  {
    hide Run, Agrees, Indexed, Fill;
    RunKeepsIndex(db, es);
    var s := Run(db, es);
    EqualCountsExactly(s.rows, s.index);
    FillAgrees(s.rows);
  }

  lemma BlankIsRewritten(rows: Table, convs: Conversations, self: (string, string), id: string)
    requires id in Blanks(rows) && id !in Placeholders(rows)
    ensures id in RepairedRows(rows, convs, self) && RepairedRows(rows, convs, self)[id].body != rows[id].body
  {
    hide IsPlaceholder, IsMisattributed, Attributed;
    assert SIGNAL_BLANK_BODY[0] == '[';
    assert Unblanked(rows[id]).body == SIGNAL_BLANK_BODY;
  }

  /** Equal counts after the commit: nothing was deleted, and the index was exact before. */
  lemma {:induction false} EqualAfterRepair(db: DB, self: (string, string))
    requires Indexed(db.rows, db.index) && |db.index| == |RepairedRows(db.rows, db.convs, self)|
    ensures Placeholders(db.rows) == {} && Agrees(db.rows, db.index)
  {
    hide Bodies, Agrees, Indexed;
    var rows := RepairedRows(db.rows, db.convs, self);
    EqualCountsExactly(db.rows, db.index);
    SubsetSize(rows.Keys, db.rows.Keys);
    assert |rows| == |rows.Keys| && |db.rows| == |db.rows.Keys|;
  }

  lemma {:induction false} NoBlanksKeepsAgreement(rows: Table, after: Table, index: Index)
    requires Agrees(rows, index) && Blanks(rows) == {} && after.Keys == rows.Keys
    requires forall id :: id in after ==> after[id].body == Unblanked(rows[id]).body
    ensures Agrees(after, index)
  {
    hide Bodies, IsBlank;
    forall id ensures Bodies(index, id) == if id in after then [after[id].body] else [] {
      assert id !in Blanks(rows);
    }
  }

  lemma RewrittenDisagrees(rows: Table, after: Table, index: Index, id: string)
    requires Agrees(rows, index) && id in rows && id in after && after[id].body != rows[id].body
    ensures !Agrees(after, index) && !Indexed(after, index)
  {
    hide Bodies;
    assert Bodies(index, id) == [rows[id].body];
    assert [rows[id].body][0] != [after[id].body][0];
  }

  /** A process that dies between the repair's commit and its rebuild leaves the old index. The
      next start repairs nothing more, and gets the index right exactly when the counts differ or
      no body was rewritten. */
  lemma {:induction false} RepairCrashExactly(db: DB, self: (string, string))
    requires Indexed(db.rows, db.index)
    ensures var crashed := RepairCommitted(db, self); var next := Restarted(crashed);
      Agrees(next.rows, next.index) <==> |crashed.index| != |crashed.rows| || Blanks(db.rows) == {}
  {
    hide Bodies, Fill, Agrees, Indexed, RepairedRows, RecencyReset, Affected, Blanks, Placeholders;
    var rows := RepairedRows(db.rows, db.convs, self);
    FillAgrees(rows);
    if |db.index| == |rows| {
      EqualAfterRepair(db, self);
      if Blanks(db.rows) == {} {
        NoBlanksKeepsAgreement(db.rows, rows, db.index);
      } else {
        var id :| id in Blanks(db.rows);
        BlankIsRewritten(db.rows, db.convs, self, id);
        RewrittenDisagrees(db.rows, rows, db.index, id);
      }
    }
  }

  /** Such a table exists: one blank Signal message, correctly indexed before. */
  const BlankMessage := Message("s1", "c", "", "", "", 1, "received", false, false, "", "", "", [], "", "signal", "")

  const OneBlank := DB(map["s1" := BlankMessage], map[], [IndexRow("s1", "")])

  lemma StaleIndexHappens()
    ensures Agrees(OneBlank.rows, OneBlank.index)
    ensures var next := Restarted(RepairCommitted(OneBlank, ("", ""))); !Agrees(next.rows, next.index)
  {
    hide RepairCommitted, Restarted, Agrees, Indexed, Blanks;
    OneBlankAgrees();
    IndexedWhenAgrees(OneBlank.rows, OneBlank.index);
    OneBlankCrashed();
    RepairCrashExactly(OneBlank, ("", ""));
  }

  lemma OneBlankCrashed()
    ensures var crashed := RepairCommitted(OneBlank, ("", ""));
      |crashed.rows| == 1 && crashed.index == OneBlank.index && "s1" in Blanks(OneBlank.rows)
  {
    hide Fill, RecencyReset, Affected, IsMisattributed, Attributed;
    var crashed := RepairCommitted(OneBlank, ("", ""));
    assert crashed.rows.Keys == {"s1"} && |crashed.rows| == |crashed.rows.Keys|;
  }

  lemma OneBlankAgrees()
    ensures Agrees(OneBlank.rows, OneBlank.index)
  {
    forall id ensures Bodies(OneBlank.index, id) == if id in OneBlank.rows then [OneBlank.rows[id].body] else [] {
      BodiesAppend([], IndexRow("s1", ""), id);
      assert [] + [IndexRow("s1", "")] == OneBlank.index;
    }
  }

  lemma IndexedWhenAgrees(rows: Table, index: Index)
    requires Agrees(rows, index)
    ensures Indexed(rows, index)
  {
    hide Bodies;
  }

  // ----- Search -----

  datatype Filter = Filter(phone: string, conv: string, since: int, until: int, limit: int)

  const DEFAULT_LIMIT := 20

  /** The default limit, and a window given the wrong way round. */
  function Normalized(f: Filter): (r: Filter)
    ensures r.limit > 0
    ensures r.since > 0 && r.until > 0 ==> r.since <= r.until
  {
    var f := if f.limit <= 0 then f.(limit := DEFAULT_LIMIT) else f;
    if f.since > 0 && f.until > 0 && f.until < f.since then f.(since := f.until, until := f.since) else f
  }

  predicate Passes(m: Message, f: Filter) {
    && (f.phone != "" ==> m.senderNumber == f.phone)
    && (f.conv != "" ==> m.conv == f.conv)
    && (f.since > 0 ==> m.ts >= f.since)
    && (f.until > 0 ==> m.ts <= f.until)
  }

  /** Whether a body matches a query: one predicate for MATCH and LIKE. */
  type Matcher = (string, string) -> bool

  function Hits(rows: Table, matches: Matcher, query: string, f: Filter): (S: set<Message>)
    ensures Keyed(S)
    ensures forall m :: m in S <==> m.id in rows && rows[m.id] == m && matches(m.body, query) && Passes(m, f)
  {
    set id | id in rows && matches(rows[id].body, query) && Passes(rows[id], f) :: rows[id]
  }

  /** The reference: a scan of the table. */
  function BruteForce(rows: Table, matches: Matcher, query: string, filter: Filter): seq<Message> {
    var f := Normalized(filter);
    Limit(Descending(Hits(rows, matches, query, f)), f.limit)
  }

  predicate Joins(rows: Table, r: IndexRow, matches: Matcher, query: string, f: Filter) {
    r.id in rows && matches(r.body, query) && Passes(rows[r.id], f)
  }

  /** The joined rows, one for each matching index row. */
  function Joined(rows: Table, index: Index, matches: Matcher, query: string, f: Filter): (r: seq<Message>) {
    if index == [] then [] else
      var last := index[|index| - 1];
      Joined(rows, index[..|index| - 1], matches, query, f)
        + if Joins(rows, last, matches, query, f) then [rows[last.id]] else []
  }

  /** `ORDER BY timestamp_ms DESC, message_id DESC` by insertion; equal rows may repeat. */
  function Inserted(s: seq<Message>, m: Message): seq<Message> {
    if s == [] || Before(s[0], m) then [m] + s else [s[0]] + Inserted(s[1..], m)
  }

  function Sorted(s: seq<Message>): seq<Message> {
    if s == [] then [] else Inserted(Sorted(s[..|s| - 1]), s[|s| - 1])
  }

  lemma {:induction false} InsertedSorts(s: seq<Message>, m: Message)
    requires Descends(s) && forall x :: x in s ==> x.id != m.id
    ensures Descends(Inserted(s, m))
    ensures forall x :: x in Inserted(s, m) <==> x in s || x == m
  {
    hide Less;
    if s == [] {
    } else if Before(s[0], m) {
      forall x | x in s ensures Before(x, m) {
        if x != s[0] { BeforeTrans(x, s[0], m); }
      }
    } else {
      BeforeTotal(s[0], m);
      assert s == [s[0]] + s[1..];
      InsertedSorts(s[1..], m);
      var rest := Inserted(s[1..], m);
      forall j | 0 <= j < |rest| ensures Before(rest[j], s[0]) {
        assert rest[j] in rest;
      }
    }
  }

  /** At most one index row per message, and none with another body. */
  ghost predicate OneBody(rows: Table, index: Index) {
    forall id :: id in rows ==> Bodies(index, id) == [] || Bodies(index, id) == [rows[id].body]
  }

  ghost predicate SortsHits(s: seq<Message>, rows: Table, index: Index, matches: Matcher, query: string, f: Filter) {
    && Descends(s)
    && forall m :: m in s <==> m in Hits(rows, matches, query, f) && Bodies(index, m.id) != []
  }

  lemma OneBodyBefore(rows: Table, init: Index, r: IndexRow)
    requires OneBody(rows, init + [r])
    ensures OneBody(rows, init)
    ensures r.id in rows ==> Bodies(init, r.id) == [] && r.body == rows[r.id].body
  {
    hide Bodies;
    forall id | id in rows ensures Bodies(init, id) == [] || Bodies(init, id) == [rows[id].body] {
      BodiesAppend(init, r, id);
    }
    if r.id in rows {
      BodiesAppend(init, r, r.id);
      assert |Bodies(init + [r], r.id)| == 1 && Bodies(init + [r], r.id)[0] == r.body;
    }
  }

  lemma JoinStep(s: seq<Message>, rows: Table, init: Index, r: IndexRow, matches: Matcher, query: string, f: Filter)
    requires OneBody(rows, init + [r]) && SortsHits(s, rows, init, matches, query, f)
    ensures SortsHits(if Joins(rows, r, matches, query, f)
      then Inserted(s, rows[r.id]) else s, rows, init + [r], matches, query, f)
  {
    hide Bodies, Passes, Inserted, Descends, OneBody;
    OneBodyBefore(rows, init, r);
    forall m | m in Hits(rows, matches, query, f)
      ensures Bodies(init + [r], m.id) == Bodies(init, m.id) + if r.id == m.id then [r.body] else []
    {
      BodiesAppend(init, r, m.id);
    }
    if Joins(rows, r, matches, query, f) {
      InsertedSorts(s, rows[r.id]);
    }
  }

  /** One index row per message makes the join free of repetitions. */
  lemma {:induction false} JoinedFaithful(rows: Table, index: Index, matches: Matcher, query: string, f: Filter)
    requires OneBody(rows, index)
    ensures SortsHits(Sorted(Joined(rows, index, matches, query, f)), rows, index, matches, query, f)
  {
    hide OneBody, SortsHits, Joins, Hits, Passes, Sorted, Inserted;
    if index == [] {
      NothingJoined(rows, matches, query, f);
    } else {
      var init, r := index[..|index| - 1], index[|index| - 1];
      assert index == init + [r];
      OneBodyBefore(rows, init, r);
      JoinedFaithful(rows, init, matches, query, f);
      var before := Joined(rows, init, matches, query, f);
      JoinStep(Sorted(before), rows, init, r, matches, query, f);
      if Joins(rows, r, matches, query, f) {
        JoinsHasRow(rows, r, matches, query, f);
        SortedAppends(before, rows[r.id]);
      } else {
        assert before + [] == before;
      }
    }
  }

  lemma JoinsHasRow(rows: Table, r: IndexRow, matches: Matcher, query: string, f: Filter)
    ensures Joins(rows, r, matches, query, f) ==> r.id in rows
  {
  }

  lemma NothingJoined(rows: Table, matches: Matcher, query: string, f: Filter)
    ensures SortsHits(Sorted([]), rows, [], matches, query, f)
  {
    SortedEmpty();
  }

  lemma SortedEmpty()
    ensures Sorted([]) == [] && Descends([])
  {
  }

  lemma SortedAppends(s: seq<Message>, m: Message)
    ensures Sorted(s + [m]) == Inserted(Sorted(s), m)
  {
    assert (s + [m])[..|s|] == s;
  }

  function SearchedFTS(db: DB, matches: Matcher, query: string, f: Filter): seq<Message> {
    Limit(Sorted(Joined(db.rows, db.index, matches, query, f)), f.limit)
  }

  /** The joined search is the scan. */
  lemma JoinIsScan(db: DB, matches: Matcher, query: string, f: Filter)
    requires Indexed(db.rows, db.index)
    ensures SearchedFTS(db, matches, query, f) == Limit(Descending(Hits(db.rows, matches, query, f)), f.limit)
  {
    hide Bodies, Sorted, Joined, Descends, Hits, Passes;
    JoinedFaithful(db.rows, db.index, matches, query, f);
    var s := Sorted(Joined(db.rows, db.index, matches, query, f));
    var S := Hits(db.rows, matches, query, f);
    forall m ensures m in s <==> m in S {
      if m in S { assert Bodies(db.index, m.id) == [m.body]; }
    }
    DescendingIs(S, s);
  }

  class Store {
    var db: DB

    method SyncMessageSearchIndex(id: string, body: string)
      modifies this
      ensures db == old(db).(index := Synced(old(db).index, id, body))
    {
      db := db.(index := Without(db.index, {id}));
      db := db.(index := db.index + [IndexRow(id, body)]);
    }

    method UpsertMessage(m: Message) returns (ok: bool)
      modifies this
      ensures db == Step(old(db), Event.UpsertMessage(m)) && ok == Accepts(old(db).rows, m)
    {
      hide Accepts, Written;
      if !Accepts(db.rows, m) {
        return false;
      }
      db := db.(rows := UpsertRow(db.rows, m));
      SyncMessageSearchIndex(m.id, db.rows[m.id].body);
      ok := true;
    }

    method RecordOutgoingMessage(m: Message) returns (ok: bool)
      modifies this
      ensures db == Step(old(db), RecordOutgoing(m)) && ok == Accepts(old(db).rows, m)
    {
      hide Accepts, Written;
      ok := UpsertMessage(m);
      if ok {
        db := db.(convs := SetRecency(db.convs, m.conv, m.ts));
      }
    }

    method DeleteMessages(gone: set<string>)
      modifies this
      ensures db == Step(old(db), Event.DeleteMessages(gone))
    {
      db := db.(index := Without(db.index, gone * db.rows.Keys));
      db := db.(rows := Deleted(db.rows, gone));
    }

    method MergeConversationIDs(source: string, target: string)
      modifies this
      ensures db == Step(old(db), MergeConversations(source, target))
    {
      if source == "" || target == "" || source == target {
        return;
      }
      if source !in db.convs {
        return;
      }
      var merged := Merged(db.convs[source], if target in db.convs then Some(db.convs[target]) else None);
      db := db.(rows := Rehomed(db.rows, source, target));
      db := db.(convs := db.convs[target := Recency.Stored(merged)]);
      db := db.(convs := db.convs - {source});
    }

    method DeleteConversation(conv: string)
      modifies this
      ensures db == Step(old(db), Event.DeleteConversation(conv))
    {
      if TrimSpace(conv) == "" {
        return;
      }
      db := db.(rows := Deleted(db.rows, OfConversation(db.rows, conv)));
      db := db.(convs := db.convs - {conv});
    }

    method ForceRebuildFTS()
      modifies this
      ensures db == old(db).(index := Fill(old(db).rows))
      ensures Agrees(db.rows, db.index)
    {
      hide Ascending, Agrees;
      FillAgrees(db.rows);
      db := db.(index := []);
      var s := Ascending(AllRows(db.rows));
      for i := 0 to |s|
        invariant db == old(db).(index := Entries(s, i))
      {
        db := db.(index := db.index + [IndexRow(s[i].id, s[i].body)]);
      }
    }

    method RebuildFTS()
      modifies this
      ensures db == Step(old(db), Restart)
    {
      hide Fill;
      if |db.index| != |db.rows| {
        ForceRebuildFTS();
      }
    }

    method ResetRecency(affected: set<string>)
      modifies this
      ensures db == old(db).(convs := RecencyReset(old(db).convs, old(db).rows, affected))
    {
      hide LatestTS;
      var todo := affected;
      assert RecencyReset(db.convs, db.rows, {}) == db.convs;
      while todo != {}
        invariant todo <= affected
        invariant db == old(db).(convs := RecencyReset(old(db).convs, old(db).rows, affected - todo))
        decreases |todo|
      {
        var c :| c in todo;
        ResetOne(old(db).convs, db.rows, affected - todo, c);
        assert affected - todo + {c} == affected - (todo - {c});
        todo := todo - {c};
        db := db.(convs := SetRecency(db.convs, c, LatestTS(db.rows, c)));
      }
      assert affected - todo == affected;
    }

    /** `self` is the most common outgoing SMS sender, as the database counted it. */
    method RepairLegacyArtifacts(self: (string, string)) returns (deleted: nat, fixed: nat)
      modifies this
      ensures db == Step(old(db), Repair(self))
      ensures deleted == |Placeholders(old(db).rows)| && fixed == |Blanks(old(db).rows)|
    {
      hide Fill, RecencyReset, Placeholders, Blanks, RepairedRows, Affected;
      var affected := Affected(db.rows);
      deleted := |Placeholders(db.rows)|;
      fixed := |Blanks(db.rows)|;
      db := db.(rows := RepairedRows(db.rows, db.convs, self));
      ResetRecency(affected);
      if deleted > 0 || fixed > 0 {
        ForceRebuildFTS();
      }
    }

    method SearchMessagesFTS(matches: Matcher, query: string, f: Filter) returns (found: seq<Message>)
      ensures found == SearchedFTS(db, matches, query, f)
    {
      hide Inserted, Joins, Limit;
      found := [];
      for i := 0 to |db.index|
        invariant found == Sorted(Joined(db.rows, db.index[..i], matches, query, f))
      {
        var init, r := db.index[..i], db.index[i];
        assert db.index[..i + 1] == init + [r];
        JoinedAppends(db.rows, init, r, matches, query, f);
        JoinsHasRow(db.rows, r, matches, query, f);
        if Joins(db.rows, r, matches, query, f) {
          SortedAppends(Joined(db.rows, init, matches, query, f), db.rows[r.id]);
          found := Inserted(found, db.rows[r.id]);
        }
      }
      assert db.index[..|db.index|] == db.index;
      found := Limit(found, f.limit);
    }

    /** Main result: in every state the runs above can reach, the search is the brute-force scan by
        MATCH where the index finds anything, and by LIKE where it finds nothing, is disabled or
        fails (`ftsOk` is false). */
    method SearchMessagesFiltered(matching: Matcher, like: Matcher, query: string, filter: Filter,
          ftsOk: bool) returns (found: seq<Message>)
      requires ftsOk ==> Indexed(db.rows, db.index)
      ensures ftsOk && BruteForce(db.rows, matching, query, filter) != [] ==>
        found == BruteForce(db.rows, matching, query, filter)
      ensures !ftsOk || BruteForce(db.rows, matching, query, filter) == [] ==>
        found == BruteForce(db.rows, like, query, filter)
    {
      hide SearchedFTS, Indexed, Descending, Hits, Limit;
      var f := filter;
      if f.limit <= 0 {
        f := f.(limit := DEFAULT_LIMIT);
      }
      if f.since > 0 && f.until > 0 && f.until < f.since {
        f := f.(since := f.until, until := f.since);
      }
      if ftsOk {
        JoinIsScan(db, matching, query, f);
        found := SearchMessagesFTS(matching, query, f);
        if |found| > 0 {
          return;
        }
      }
      found := Limit(Descending(Hits(db.rows, like, query, f)), f.limit);
    }
  }

  lemma ResetOne(convs: Conversations, rows: Table, reset: set<string>, c: string)
    ensures SetRecency(RecencyReset(convs, rows, reset), c, LatestTS(rows, c)) == RecencyReset(convs, rows, reset + {c})
  {
    hide LatestTS;
  }

  lemma JoinedAppends(rows: Table, init: Index, r: IndexRow, matches: Matcher, query: string, f: Filter)
    ensures Joins(rows, r, matches, query, f) ==>
      r.id in rows &&
        Joined(rows, init + [r], matches, query, f) == Joined(rows, init, matches, query, f) + [rows[r.id]]
    ensures !Joins(rows, r, matches, query, f) ==>
      Joined(rows, init + [r], matches, query, f) == Joined(rows, init, matches, query, f)
  {
    assert (init + [r])[..|init|] == init;
  }

  /** Main result: after any run, the joined search is the brute-force scan of the table. */
  lemma {:induction false} SearchAfterAnyRun(db: DB, es: seq<Event>, matches: Matcher, query: string, filter: Filter)
    requires Indexed(db.rows, db.index)
    ensures var s := Run(db, es);
      SearchedFTS(s, matches, query, Normalized(filter)) == BruteForce(s.rows, matches, query, filter)
  {
    hide Run, Indexed, SearchedFTS, Normalized, Hits, Descending, Limit;
    RunKeepsIndex(db, es);
    JoinIsScan(Run(db, es), matches, query, Normalized(filter));
  }
}
