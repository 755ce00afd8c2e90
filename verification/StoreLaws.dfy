/** What each write to the store leaves, column by column, and what a search finds: stated over the
    stored columns alone. */
module StoreLaws {
  import opened Text
  import opened Records
  import opened Ordering
  import opened Upsert
  import opened MessageStore
  import Recency

  // ----- The legacy repair -----

  /** The three kinds of rows the repair deletes. */
  predicate IsLegacy(m: Message) {
    && m.mediaId == "" && m.mimeType == "" && m.reactions == [] && m.replyTo == "" && m.sourceId != ""
    && (|| (m.platform == "whatsapp" && m.body in {"[Reaction]", "[Unsupported message]"})
        || (m.platform == "signal" && m.body == "[Reaction]"))
  }

  /** A Signal row of spaces alone. */
  predicate SaysNothing(m: Message) {
    && m.platform == "signal" && m.mediaId == "" && m.mimeType == "" && m.reactions == [] && m.replyTo == ""
    && forall i :: 0 <= i < |m.body| ==> m.body[i] == ' '
  }

  predicate IsLetter(c: char, upper: char) { c == upper || c as int == upper as int + 32 }

  predicate BeginsOutgoing(status: string) {
    |status| >= 8 && forall k :: 0 <= k < 8 ==> IsLetter(status[k], "OUTGOING"[k])
  }

  /** An SMS row that a status calls outgoing, and that is not marked as one's own. */
  predicate IsUnclaimed(m: Message, convs: Conversations) {
    && m.conv in convs && convs[m.conv].platform == "sms" && m.platform in {"", "sms"} && !m.fromMe
    && BeginsOutgoing(m.status)
  }

  lemma {:induction false} OutgoingIs(status: string)
    ensures HasPrefix(Fold(status), "outgoing") <==> BeginsOutgoing(status)
  {
    var u, w := "OUTGOING", "outgoing";
    if |status| >= 8 {
      forall k | 0 <= k < 8 ensures Fold(status)[k] == w[k] <==> IsLetter(status[k], u[k]) {
        assert u[k] as int + 32 == w[k] as int && 'A' <= u[k] <= 'Z';
      }
      assert forall k :: 0 <= k < 8 ==> Fold(status)[..8][k] == Fold(status)[k];
    }
  }

  lemma LegacyIs(m: Message, convs: Conversations)
    ensures IsPlaceholder(m) <==> IsLegacy(m)
    ensures IsBlank(m) <==> SaysNothing(m)
    ensures IsMisattributed(m, convs) <==> IsUnclaimed(m, convs)
  {
    hide Fold, HasPrefix, BeginsOutgoing;
    OutgoingIs(m.status);
  }

  /** Main result: the repair deletes exactly the legacy rows. Every other row keeps all its columns,
      but for the body of a Signal row that says nothing, and for the sender, platform and direction
      of an unclaimed outgoing row. */
  lemma {:induction false} RepairRows(db: DB, self: (string, string), id: string)
    ensures var t := Step(db, Repair(self)).rows;
      && (id in t <==> id in db.rows && !IsLegacy(db.rows[id]))
      && (id in t ==>
            var m := db.rows[id]; var mine := IsUnclaimed(m, db.convs);
            t[id] == m.(body := if SaysNothing(m) then "[Unsupported Signal message]" else m.body,
                        fromMe := m.fromMe || mine,
                        platform := if mine then "sms" else m.platform,
                        senderName := if mine && m.senderName == "" then self.0 else m.senderName,
                        senderNumber := if mine && m.senderNumber == "" then self.1 else m.senderNumber))
  {
    hide IsPlaceholder, IsBlank, IsMisattributed, IsLegacy, SaysNothing, IsUnclaimed, Fill, RecencyReset, NeedsRebuild;
    if id in db.rows {
      var m := db.rows[id];
      LegacyIs(m, db.convs);
      LegacyIs(m.(body := SIGNAL_BLANK_BODY), db.convs);
      UnclaimedPlatform(m, db.convs);
    }
  }

  lemma UnclaimedPlatform(m: Message, convs: Conversations)
    ensures IsUnclaimed(m, convs) ==> m.platform in {"", "sms"} && !m.fromMe && !SaysNothing(m)
    ensures IsUnclaimed(m.(body := SIGNAL_BLANK_BODY), convs) <==> IsUnclaimed(m, convs)
  {
    hide BeginsOutgoing;
  }

  predicate HasRows(rows: Table, c: string) {
    exists id :: id in rows && rows[id].conv == c
  }

  predicate HasRowAt(rows: Table, c: string, t: int) {
    exists id :: id in rows && rows[id].conv == c && rows[id].ts == t
  }

  /** The newest time of a conversation's rows, or zero. */
  predicate IsNewestTime(rows: Table, c: string, t: int) {
    && (forall id :: id in rows && rows[id].conv == c ==> rows[id].ts <= t)
    && (if HasRows(rows, c) then HasRowAt(rows, c, t) else t == 0)
  }

  lemma {:induction false} LatestIs(rows: Table, c: string)
    ensures IsNewestTime(rows, c, LatestTS(rows, c))
  {
    hide LatestTS, HasRowAt;
    LatestIsNewest(rows, c);
    var S := InConversation(rows, c);
    assert forall id :: id in rows && rows[id].conv == c ==> rows[id] in S;
    if S != {} {
      var m :| m in S && m.ts == LatestTS(rows, c);
      RowAt(rows, c, m);
    }
  }

  lemma RowAt(rows: Table, c: string, m: Message)
    requires m in InConversation(rows, c)
    ensures HasRowAt(rows, c, m.ts)
  {
    assert rows[m.id] == m;
  }

  /** The conversation lost a row. */
  predicate Lost(db: DB, c: string) {
    exists id :: id in db.rows && IsLegacy(db.rows[id]) && db.rows[id].conv == c
  }

  lemma {:induction false} AffectedIs(db: DB, c: string)
    ensures c in Affected(db.rows) <==> Lost(db, c)
  {
    hide IsPlaceholder, IsLegacy;
    forall id | id in db.rows ensures IsPlaceholder(db.rows[id]) <==> IsLegacy(db.rows[id]) {
      LegacyIs(db.rows[id], db.convs);
    }
    if id :| id in db.rows && IsLegacy(db.rows[id]) && db.rows[id].conv == c {
      assert id in Placeholders(db.rows);
    }
  }

  /** A conversation that lost a row ends with its newest remaining time; all others, and all other
      columns, stay. */
  lemma {:induction false} RepairConversations(db: DB, self: (string, string), c: string)
    ensures var t := Step(db, Repair(self));
      && (c in t.convs <==> c in db.convs)
      && (c in t.convs ==>
            && t.convs[c] == db.convs[c].(lastTS := t.convs[c].lastTS)
            && (Lost(db, c) ==> IsNewestTime(t.rows, c, t.convs[c].lastTS))
            && (!Lost(db, c) ==> t.convs[c].lastTS == db.convs[c].lastTS))
  {
    hide Affected, Lost, LatestTS, RepairedRows, Fill, NeedsRebuild, IsNewestTime;
    LatestIs(RepairedRows(db.rows, db.convs, self), c);
    AffectedIs(db, c);
  }

  /** The repair's two counts. */
  lemma {:induction false} RepairCounts(db: DB)
    ensures Placeholders(db.rows) == set id | id in db.rows && IsLegacy(db.rows[id])
    ensures Blanks(db.rows) == set id | id in db.rows && SaysNothing(db.rows[id])
  {
    hide IsPlaceholder, IsBlank, IsLegacy, SaysNothing;
    forall id | id in db.rows
      ensures IsPlaceholder(db.rows[id]) <==> IsLegacy(db.rows[id])
      ensures IsBlank(db.rows[id]) <==> SaysNothing(db.rows[id])
    {
      LegacyIs(db.rows[id], db.convs);
    }
  }

  /** A repair that deletes or rewrites a row rebuilds the index, and any other leaves it. */
  lemma {:induction false} RepairIndexes(db: DB, self: (string, string))
    ensures (exists id :: id in db.rows && (IsLegacy(db.rows[id]) || SaysNothing(db.rows[id]))) ==>
      Agrees(Step(db, Repair(self)).rows, Step(db, Repair(self)).index)
    ensures (forall id :: id in db.rows ==> !IsLegacy(db.rows[id]) && !SaysNothing(db.rows[id])) ==>
      Step(db, Repair(self)).index == db.index
  {
    hide Placeholders, Blanks, IsLegacy, SaysNothing, RepairedRows, RecencyReset, Fill, Agrees;
    RepairCounts(db);
    FillAgrees(RepairedRows(db.rows, db.convs, self));
    if id :| id in db.rows && (IsLegacy(db.rows[id]) || SaysNothing(db.rows[id])) {
      assert id in Placeholders(db.rows) || id in Blanks(db.rows);
    }
  }

  // ----- Writes -----

  /** A sent message that is accepted sets its conversation's recency outright, forward or back. */
  lemma {:induction false} RecordColumns(db: DB, m: Message, c: string)
    ensures var t := Step(db, RecordOutgoing(m)); var u := Step(db, Event.UpsertMessage(m));
      && t.rows == u.rows && t.index == u.index && u.convs == db.convs
      && (c in t.convs <==> c in db.convs)
      && (c in t.convs ==>
            t.convs[c] == if c == m.conv && Accepts(db.rows, m) then db.convs[c].(lastTS := m.ts) else db.convs[c])
  {
    hide Accepts, Synced, UpsertRow;
  }

  /** An accepted message is written as an upsert and indexed with its body; a refused one changes
      nothing. */
  lemma {:induction false} UpsertIndexes(db: DB, m: Message, x: string)
    ensures var t := Step(db, Event.UpsertMessage(m));
      if Accepts(db.rows, m) then
        && t.rows == UpsertRow(db.rows, m) && m.id in t.rows
        && Bodies(t.index, x) == if x == m.id then [t.rows[m.id].body] else Bodies(db.index, x)
      else t == db
  {
    hide Accepts, Bodies, UpsertRow, Synced;
    if Accepts(db.rows, m) {
      UpsertedRow(db.rows, m);
      SyncedBodies(db.index, m.id, UpsertRow(db.rows, m)[m.id].body, x);
    }
  }

  lemma UpsertedRow(rows: Table, m: Message)
    requires Accepts(rows, m)
    ensures m.id in UpsertRow(rows, m)
  {
    hide Accepts;
  }

  /** Deleted messages are gone with their index rows; nothing else is. */
  lemma {:induction false} DeleteColumns(db: DB, gone: set<string>, x: string)
    ensures var t := Step(db, Event.DeleteMessages(gone));
      && (x in t.rows <==> x in db.rows && x !in gone) && (x in t.rows ==> t.rows[x] == db.rows[x]) &&
        t.convs == db.convs
      && Bodies(t.index, x) == if x in gone && x in db.rows then [] else Bodies(db.index, x)
  {
    hide Bodies, Without;
    WithoutBodies(db.index, gone * db.rows.Keys, x);
  }

  /** A deleted conversation is gone with its messages, and their index rows stay. A blank id deletes
      nothing. */
  lemma {:induction false} DeleteConversationColumns(db: DB, conv: string, x: string)
    ensures var t := Step(db, Event.DeleteConversation(conv)); var blank := TrimSpace(conv) == "";
      && (x in t.rows <==> x in db.rows && (blank || db.rows[x].conv != conv))
      && (x in t.rows ==> t.rows[x] == db.rows[x])
      && (x in t.convs <==> x in db.convs && (blank || x != conv))
      && (x in t.convs ==> t.convs[x] == db.convs[x])
      && t.index == db.index
  {
    hide TrimSpace;
  }

  /** Reactions are set on the message, if there is one, and nothing else changes. */
  lemma SetReactionsColumns(db: DB, id: string, rs: seq<Reaction>, x: string)
    ensures var t := Step(db, SetReactions(id, rs));
      && t.convs == db.convs && t.index == db.index && (x in t.rows <==> x in db.rows)
      && (x in t.rows ==> t.rows[x] == if x == id then db.rows[x].(reactions := rs) else db.rows[x])
  {
  }

  /** A merge of a conversation with itself, of an unnamed or of a missing one does nothing. Otherwise
      each column of the merged record is the target's unless it is empty, and the flag, recency and
      unread count are the greater of both. */
  lemma {:induction false} MergeColumns(db: DB, source: string, target: string)
    ensures var t := Step(db, MergeConversations(source, target));
      if source == "" || target == "" || source == target || source !in db.convs then t == db else
        var s := db.convs[source];
        && target in t.convs && t.index == db.index
        && (if target !in db.convs
          then t.convs[target] == s.(platform := if s.platform == "" then "sms" else s.platform)
            else
              var o, v := db.convs[target], t.convs[target];
              && v.name == (if o.name == "" then s.name else o.name)
              && v.isGroup == (o.isGroup || s.isGroup)
              && v.participants == (if o.participants == [] then s.participants else o.participants)
              && v.lastTS == (if s.lastTS > o.lastTS then s.lastTS else o.lastTS)
              && v.unread == (if s.unread > o.unread then s.unread else o.unread)
              && v.platform == if o.platform != "" then o.platform else if s.platform != "" then s.platform else "sms")
  {
    hide Rehomed;
  }

  // ----- Search -----

  /** The message is found: its text matches, and it is of the sender, the conversation and the
      window that are given. A window the wrong way round is turned. */
  predicate IsHit(m: Message, matches: Matcher, query: string, f: Filter) {
    var turned := f.since > 0 && f.until > 0 && f.until < f.since;
    var lo, hi := if turned then f.until else f.since, if turned then f.since else f.until;
    && matches(m.body, query)
    && (f.phone == "" || m.senderNumber == f.phone) && (f.conv == "" || m.conv == f.conv)
    && (lo <= 0 || lo <= m.ts) && (hi <= 0 || m.ts <= hi)
  }

  /** The hits that come before it: newer, or as new with a greater id. */
  function Newer(rows: Table, matches: Matcher, query: string, f: Filter, m: Message): set<string> {
    set id | id in rows && IsHit(rows[id], matches, query, f)
      && (rows[id].ts > m.ts || (rows[id].ts == m.ts && Less(m.id, id)))
  }

  lemma HitIs(m: Message, matches: Matcher, query: string, f: Filter)
    ensures matches(m.body, query) && Passes(m, Normalized(f)) <==> IsHit(m, matches, query, f)
  {
  }

  /** Main result: the search finds exactly the hits that fewer than the limit, twenty by default,
      come before, newest first. */
  lemma {:induction false} SearchExactly(rows: Table, matches: Matcher, query: string, f: Filter, m: Message)
    ensures var found := BruteForce(rows, matches, query, f); var limit := if f.limit > 0 then f.limit else 20;
      && (m in found <==>
            m.id in rows && rows[m.id] == m && IsHit(m, matches, query, f) &&
              |Newer(rows, matches, query, f, m)| < limit)
      && forall i, j :: 0 <= i < j < |found| ==>
           found[j].ts < found[i].ts || (found[j].ts == found[i].ts && Less(found[j].id, found[i].id))
  {
    hide Normalized, Passes, IsHit, Descending, Limit, Less, Keyed;
    var n := Normalized(f);
    var S := Hits(rows, matches, query, n);
    forall x: Message ensures matches(x.body, query) && Passes(x, n) <==> IsHit(x, matches, query, f) {
      HitIs(x, matches, query, f);
    }
    assert n.limit == if f.limit > 0 then f.limit else 20 by { NormalLimit(f); }
    PrefixDescends(S, n.limit);
    if m in S {
      FirstDescending(S, m, n.limit);
      NewerAre(rows, matches, query, f, S, m);
    }
    assert forall x :: x in Limit(Descending(S), n.limit) ==> x in Descending(S);
  }

  lemma NormalLimit(f: Filter)
    ensures Normalized(f).limit == if f.limit > 0 then f.limit else 20
  {
  }

  lemma PrefixDescends(S: set<Message>, n: int)
    requires Keyed(S)
    ensures Descends(Limit(Descending(S), n)) && forall x :: x in Limit(Descending(S), n) ==> x in S
  {
    hide Descending, Keyed, Before;
    assert forall x :: x in Limit(Descending(S), n) ==> x in Descending(S);
  }

  lemma {:induction false} NewerAre(rows: Table, matches: Matcher, query: string, f: Filter, S: set<Message>,
    m: Message)
    requires forall x :: x in S <==> x.id in rows && rows[x.id] == x && IsHit(x, matches, query, f)
    ensures |Followers(S, m)| == |Newer(rows, matches, query, f, m)|
  {
    hide IsHit, Less;
    var ids := Newer(rows, matches, query, f, m);
    ImageSize(rows, ids);
    var image := set id | id in ids :: rows[id];
    forall x ensures x in Followers(S, m) <==> x in image {
      if x in Followers(S, m) {
        assert x.id in ids && rows[x.id] == x;
      }
    }
    assert Followers(S, m) == image;
  }
}
