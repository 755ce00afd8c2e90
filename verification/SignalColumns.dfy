/** What a received line leaves in the store, column by column, read off the line and the stored
    columns alone. */
module SignalColumns {
  import opened Text
  import opened Records
  import opened Ordering
  import opened Upsert
  import opened SignalReactions
  import opened SignalStore
  import opened SignalEdits
  import opened SignalBatch
  import opened SignalReplay
  import opened SignalCrashes

  // ----- Who and where -----

  predicate SameLetter(a: char, b: char) {
    a == b || ('A' <= a <= 'Z' && b as int == a as int + 32) || ('A' <= b <= 'Z' && a as int == b as int + 32)
  }

  /** Two addresses match when they are the same but for case and surrounding space, and not blank. */
  lemma {:induction false} AddressesMatchExactly(a: string, b: string)
    ensures var x, y := TrimSpace(a), TrimSpace(b);
      AddressesMatch(a, b) <==> x != "" && |x| == |y| && forall i :: 0 <= i < |x| ==> SameLetter(x[i], y[i])
  {
    hide TrimSpace;
    var x, y := TrimSpace(a), TrimSpace(b);
    if |x| == |y| {
      FoldsAlike(x, y);
    }
  }

  lemma {:induction false} FoldsAlike(x: string, y: string)
    requires |x| == |y|
    ensures Fold(x) == Fold(y) <==> forall i :: 0 <= i < |x| ==> SameLetter(x[i], y[i])
  {
    forall i | 0 <= i < |x| ensures FoldChar(x[i]) == FoldChar(y[i]) <==> SameLetter(x[i], y[i]) {
      FoldsLetter(x[i], y[i]);
    }
    assert forall i :: 0 <= i < |x| ==> Fold(x)[i] == FoldChar(x[i]) && Fold(y)[i] == FoldChar(y[i]);
  }

  lemma FoldsLetter(a: char, b: char)
    ensures FoldChar(a) == FoldChar(b) <==> SameLetter(a, b)
  {
  }

  /** The line names someone or a group, and is not the account's own. */
  predicate IsFor(o: Origin, account: string) {
    (o.source != "" || o.groupId != "") && !(o.source != "" && AddressesMatch(o.source, account))
  }

  function Home(o: Origin): string {
    if o.groupId != "" then "signal-group:" + o.groupId else "signal:" + o.source
  }

  function SentAt(l: Line): int
    requires l.Data?
  {
    if l.c.ts != 0 then l.c.ts else l.o.ts
  }

  function Digest(h: Hashes, l: Line): string
    requires l.Data?
  {
    h.message(Home(l.o), l.o.source, SentAt(l))
  }

  /** `v`, or what the column had. */
  function Column(v: string, stored: string): string { if v == "" then stored else v }

  function FirstOf(a: string, b: string): string { if TrimSpace(a) != "" then TrimSpace(a) else TrimSpace(b) }

  // ----- A data message -----

  /** The columns of a stored message: `o` is the row it had, or blank, `p` the placeholder it
      absorbed. */
  predicate HasColumns(r: Message, l: Line, convName: string, o: Message, p: Option<Message>)
    requires l.Data?
  {
    var ref, mime := if l.c.media.Some? then l.c.media.value.ref else "", if l.c.media.Some?
      then l.c.media.value.mime else "";
    && r.conv == Home(l.o) && r.status == "received" && !r.fromMe && r.platform == "signal"
    && r.senderNumber == Column(l.o.source, o.senderNumber)
    && r.senderName == Column(FirstOf(FirstOf(l.o.name, l.o.source), convName), o.senderName)
    && r.ts == (if SentAt(l) > 0 then SentAt(l) else o.ts)
    && r.body == (if p.Some? && TrimSpace(p.value.body) != "" then TrimSpace(p.value.body) else l.c.body)
    && r.mentionsMe == (l.c.mentionsMe || (p.Some? && p.value.mentionsMe))
    && r.replyTo == Column(if p.Some? then FirstOf(p.value.replyTo, l.c.replyTo) else l.c.replyTo, o.replyTo)
    && r.mediaId == Column(if p.Some? then FirstOf(ref, p.value.mediaId) else ref, o.mediaId)
    && r.mimeType == Column(if p.Some? then FirstOf(mime, p.value.mimeType) else mime, o.mimeType)
    && r.decryptionKey == Column(if p.Some? then TrimSpace(p.value.decryptionKey) else "", o.decryptionKey)
    && r.reactions == if p.Some? && p.value.reactions != [] then p.value.reactions else o.reactions
  }

  /** The placeholder columns a message looks for. */
  predicate IsPending(p: Message, l: Line)
    requires l.Data?
  {
    && p.conv == Home(l.o) && p.ts == SentAt(l) && !p.fromMe && HasPrefix(TrimSpace(p.sourceId), "missing-edit:")
    && (l.o.source != "" ==> AddressesMatch(p.senderNumber, l.o.source))
  }

  lemma LineTerms(h: Hashes, l: Line, account: string)
    requires l.Data?
    ensures ConversationId(l.o) == Home(l.o) && DataTime(l) == SentAt(l) && DataId(h, l) == "signal:" + Digest(h, l)
    ensures Ignored(l, account) <==> !IsFor(l.o, account)
  {
    hide AddressesMatch;
  }

  lemma PlaceTerms(l: Line)
    requires l.Data?
    ensures ConversationId(l.o) == Home(l.o) && DataTime(l) == SentAt(l)
  {
  }

  lemma AliasIsPending(rows: Table, l: Line)
    requires l.Data?
    ensures var p := AliasFor(rows, l);
      p.Some? ==> (IsPending(p.value, l) && p.value.id in rows && rows[p.value.id] == p.value)
  {
    hide IsAlias, TrimSpace, AddressesMatch, DataTime, ConversationId, Home, SentAt, Aliases, AtTimestamp, InWindow;
    PlaceTerms(l);
    var ms := AtTimestamp(rows, ConversationId(l.o), DataTime(l));
    AliasesAre(ms, l.o.source, false);
    AliasTerms(l.o.source);
    ListedAt(rows, ConversationId(l.o), DataTime(l));
  }

  lemma ListedAt(rows: Table, conv: string, ts: int)
    ensures forall m :: m in AtTimestamp(rows, conv, ts) ==>
      m.id in rows && rows[m.id] == m && m.conv == conv && m.ts == ts
  {
    hide AtTimestamp;
  }

  lemma AliasTerms(sender: Token)
    ensures forall m :: IsAlias(m, sender, false) ==>
      !m.fromMe && HasPrefix(TrimSpace(m.sourceId), "missing-edit:") &&
        (sender != "" ==> AddressesMatch(m.senderNumber, sender))
  {
    hide TrimSpace, AddressesMatch;
  }

  lemma {:induction false} AliasesAre(ms: seq<Message>, sender: Token, fromMe: bool)
    ensures forall m :: m in Aliases(ms, sender, fromMe) ==> m in ms && IsAlias(m, sender, fromMe)
  {
    hide IsAlias;
    if ms != [] {
      AliasesAre(ms[..|ms| - 1], sender, fromMe);
    }
  }

  lemma RowColumns(h: Hashes, l: Line, convName: string)
    requires l.Data?
    ensures var r := DataRow(h, l, convName);
      && r.conv == Home(l.o) && r.status == "received" && !r.fromMe && r.platform == "signal" &&
        r.sourceId == Digest(h, l)
      && r.senderNumber == l.o.source && r.ts == SentAt(l) && r.body == l.c.body && r.mentionsMe == l.c.mentionsMe
      && r.senderName == FirstOf(FirstOf(l.o.name, l.o.source), convName)
      && r.replyTo == l.c.replyTo && r.decryptionKey == "" && r.reactions == []
      && r.mediaId == (if l.c.media.Some? then l.c.media.value.ref else "")
      && r.mimeType == (if l.c.media.Some? then l.c.media.value.mime else "")
  {
    hide TrimSpace;
    assert TrimSpace(l.o.source) == l.o.source;
    assert TrimSpace(TrimSpace(l.o.name)) == TrimSpace(l.o.name);
  }

  lemma AbsorbedColumns(m: Message, p: Message)
    ensures var r := Absorbed(m, p);
      && r.body == FirstOf(p.body, m.body) && r.replyTo == FirstOf(p.replyTo, m.replyTo)
      && r.mentionsMe == (m.mentionsMe || p.mentionsMe)
      && r.mediaId == (if TrimSpace(m.mediaId) == "" then TrimSpace(p.mediaId) else m.mediaId)
      && r.mimeType == (if TrimSpace(m.mimeType) == "" then TrimSpace(p.mimeType) else m.mimeType)
      && r.decryptionKey == (if TrimSpace(m.decryptionKey) == "" then TrimSpace(p.decryptionKey) else m.decryptionKey)
      && r.reactions == (if m.reactions == [] then p.reactions else m.reactions)
      && r == m.(body := r.body, replyTo := r.replyTo, mentionsMe := r.mentionsMe, mediaId := r.mediaId,
                 mimeType := r.mimeType, decryptionKey := r.decryptionKey, reactions := r.reactions)
  {
    hide TrimSpace;
  }

  lemma AbsorbedHas(m: Message, l: Line, convName: string, p: Message)
    requires l.Data? && HasColumns(m, l, convName, BlankRow(m.id, m.ts), None) && m.decryptionKey == "" &&
      m.reactions == []
    ensures HasColumns(Absorbed(m, p), l, convName, BlankRow(m.id, m.ts), Some(p))
    ensures var r := Absorbed(m, p); r.id == m.id && r.ts == m.ts && r.sourceId == m.sourceId && r.body != ""
  {
    hide TrimSpace, Absorbed, Home, SentAt;
    AbsorbedColumns(m, p);
    assert TrimSpace("") == "" && TrimSpace(l.c.body) == l.c.body && TrimSpace(l.c.replyTo) == l.c.replyTo;
    MediaTrimmed(l.c);
  }

  lemma MediaTrimmed(c: Content)
    ensures c.media.Some? ==> TrimSpace(c.media.value.ref) == c.media.value.ref
    ensures c.media.Some? ==> TrimSpace(c.media.value.mime) == c.media.value.mime
  {
    hide TrimSpace;
  }

  /** What the message brings, the placeholder's columns absorbed. */
  lemma {:induction false} BroughtColumns(h: Hashes, rows: Table, l: Line, convName: string)
    requires l.Data?
    ensures var m := ToStore(h, rows, l, convName);
      && HasColumns(m, l, convName, BlankRow(m.id, m.ts), AliasFor(rows, l)) && m.sourceId == Digest(h, l)
      && m.ts == SentAt(l) && m.id == DataId(h, l) && m.body != ""
  {
    hide TrimSpace, AliasFor, DataRow, Absorbed, DataId, DataTime, Digest, SentAt, Home;
    RowColumns(h, l, convName);
    RowId(h, l, convName);
    if AliasFor(rows, l).Some? {
      AbsorbedHas(DataRow(h, l, convName), l, convName, AliasFor(rows, l).value);
    }
  }

  lemma WrittenColumns(rows: Table, m: Message)
    requires m.platform == "signal" && m.body != ""
    ensures var r := Written(rows, m);
      if m.id !in rows then r == m else
        var o := rows[m.id];
        && r.conv == m.conv && r.status == m.status && r.fromMe == m.fromMe && r.platform == "signal"
        && r.mentionsMe == m.mentionsMe && r.body == m.body && r.ts == (if m.ts > 0 then m.ts else o.ts)
        && r.senderNumber == Column(m.senderNumber, o.senderNumber) &&
          r.senderName == Column(m.senderName, o.senderName)
        && r.replyTo == Column(m.replyTo, o.replyTo) && r.mediaId == Column(m.mediaId, o.mediaId)
        && r.mimeType == Column(m.mimeType, o.mimeType) && r.decryptionKey == Column(m.decryptionKey, o.decryptionKey)
        && r.sourceId == Column(m.sourceId, o.sourceId)
        && r.reactions == if m.reactions != [] then m.reactions else o.reactions
  {
    hide TrimSpace;
    assert TrimSpace("signal") == "signal";
  }

  lemma {:induction false} StoredColumns(h: Hashes, rows: Table, l: Line, convName: string, o: Message)
    requires l.Data? && (DataId(h, l) in rows ==> o == rows[DataId(h, l)])
    requires DataId(h, l) !in rows ==> o == BlankRow(DataId(h, l), SentAt(l))
    ensures var r := Written(rows, ToStore(h, rows, l, convName));
      HasColumns(r, l, convName, o, AliasFor(rows, l)) && r.sourceId == Column(Digest(h, l), o.sourceId)
  {
    hide TrimSpace, AliasFor, ToStore, DataId, Digest, SentAt, Home, Written;
    BroughtColumns(h, rows, l, convName);
    WrittenColumns(rows, ToStore(h, rows, l, convName));
  }

  /** Main result: a data message that is handled has its own row, with the columns of the line, of
      the placeholder it absorbed and, where both are empty, of the row it had; no other row changes,
      and none goes but a placeholder of the message. */
  lemma {:induction false} DataColumns(h: Hashes, account: string, s: State, l: Line)
    requires l.Data? && IsFor(l.o, account) && HandledData(h, account, s, l).outcome == Done
    ensures var t, id := HandledData(h, account, s, l).state, "signal:" + Digest(h, l);
      && id in t.rows && Home(l.o) in t.convs
      && HasColumns(t.rows[id], l, t.convs[Home(l.o)].name,
           if id in s.rows then s.rows[id] else BlankRow(id, SentAt(l)), AliasFor(s.rows, l))
      && t.rows[id].sourceId == Column(Digest(h, l), if id in s.rows then s.rows[id].sourceId else "")
      && (forall x :: x in t.rows && x != id ==> x in s.rows && t.rows[x] == s.rows[x])
      && (forall x :: x in s.rows && x !in t.rows ==> x != id && IsPending(s.rows[x], l))
  {
    hide HasColumns, AliasFor, DataRow, Absorbed, TrimSpace, DataConversation, IsPending, Home, Digest, SentAt, DataId,
      Accepts, Written, AddressesMatch, DataTime, ConversationId, IsFor, Ignored;
    LineTerms(h, l, account);
    var id := DataId(h, l);
    var convo := DataConversation(Existing(s.convs, ConversationId(l.o)), l.o, DataTime(l), id !in s.rows);
    var m := ToStore(h, s.rows, l, convo.name);
    ToStoreId(h, s.rows, l, convo.name);
    StoredColumns(h, s.rows, l, convo.name, if id in s.rows then s.rows[id] else BlankRow(id, SentAt(l)));
    AliasIsPending(UpsertRow(s.rows, m), l);
  }

  lemma NotFor(h: Hashes, account: string, s: State, l: Line, synthesize: bool)
    requires !IsFor(l.o, account) && !l.React?
    ensures Handled(h, account, s, l, synthesize) == Result(s, Done)
  {
    hide AddressesMatch;
  }

  // ----- The conversation -----

  /** A group takes the line's title, or keeps its name; a person's conversation keeps its name, or
      takes the address. */
  function NameLeft(o: Origin, existing: Option<Conversation>): string {
    var name := if existing.Some? then existing.value.name else FirstOf(o.name, o.source);
    if o.groupId != "" && o.groupTitle != "" then o.groupTitle
    else if name != "" then name
    else if o.groupId != "" then "Signal Group" else o.source
  }

  /** Main result: the conversation a data message leaves. */
  lemma DataConversationColumns(h: Hashes, account: string, s: State, l: Line)
    requires l.Data? && IsFor(l.o, account)
    ensures var t, c := HandledData(h, account, s, l).state, Home(l.o); var was := Existing(s.convs, c);
      && c in t.convs && (forall x :: x != c ==> Existing(t.convs, x) == Existing(s.convs, x))
      && t.convs[c].name == NameLeft(l.o, was) && t.convs[c].isGroup == (l.o.groupId != "")
      && t.convs[c].platform == "signal"
      && t.convs[c].lastTS == (if was.Some? && was.value.lastTS > SentAt(l) then was.value.lastTS else SentAt(l))
      && t.convs[c].unread ==
           (if was.None? then 1 else if "signal:" + Digest(h, l) in s.rows
             then was.value.unread else was.value.unread + 1)
      && t.convs[c].participants ==
           if l.o.groupId == "" then [(FirstOf(l.o.name, l.o.source), l.o.source)]
           else if was.Some? then was.value.participants else []
  {
    hide StoredData, TrimSpace, AddressesMatch, Home, Digest, SentAt, DataId, ConversationId, IsFor, Ignored, DataTime;
    LineTerms(h, l, account);
  }

  predicate EditLeft(v: Conversation, o: Origin, was: Option<Conversation>) {
    && v.name == NameLeft(o, was) && v.isGroup == (o.groupId != "") && v.platform == "signal"
    && v.lastTS == (if was.Some? && was.value.lastTS > o.ts then was.value.lastTS else o.ts)
    && v.unread == (if was.None? then 0 else was.value.unread)
    && v.participants ==
       if o.groupId == "" then [(FirstOf(FirstOf(v.name, FirstOf(o.name, o.source)), o.source), o.source)]
       else if was.Some? then was.value.participants else []
  }

  lemma EditLeftIs(o: Origin, was: Option<Conversation>)
    ensures EditLeft(EditConversation(was, o), o, was)
  {
    hide TrimSpace;
    assert TrimSpace(FirstOf(o.name, o.source)) == FirstOf(o.name, o.source);
    var name := EditConversation(was, o).name;
    assert TrimSpace(FirstOf(name, FirstOf(o.name, o.source))) == FirstOf(name, FirstOf(o.name, o.source));
  }

  /** The conversation an edit leaves: as recent as the envelope, with no more unread. */
  lemma EditConversationColumns(h: Hashes, account: string, s: State, l: Line, synthesize: bool)
    requires l.Edit? && IsFor(l.o, account)
    ensures var t, c := HandledEdit(h, account, s, l, synthesize).state, Home(l.o);
      && c in t.convs && (forall x :: x != c ==> Existing(t.convs, x) == Existing(s.convs, x))
      && EditLeft(t.convs[c], l.o, Existing(s.convs, c))
  {
    hide TrimSpace, AddressesMatch, FindTarget, Accepts, UpsertRow, EditedRow, EditConversation, EditLeft;
    EditLeftIs(l.o, Existing(s.convs, Home(l.o)));
  }

  // ----- An edit -----

  /** What an edit changes of the row it finds. */
  lemma {:induction false} EditColumns(h: Hashes, account: string, s: State, l: Line, synthesize: bool)
    requires l.Edit? && IsFor(l.o, account) && HandledEdit(h, account, s, l, synthesize).outcome == Done
    requires FindTarget(s.rows, Home(l.o), l.target, l.o.source).Some?
    ensures var t, m := HandledEdit(h, account, s, l, synthesize).state.rows,
      FindTarget(s.rows, Home(l.o), l.target, l.o.source).value;
      && t.Keys == s.rows.Keys && m.id in t && (forall x :: x in t && x != m.id ==> t[x] == s.rows[x])
      && t[m.id].body == l.c.body && t[m.id].mentionsMe == l.c.mentionsMe
      && t[m.id].replyTo == Column(l.c.replyTo, m.replyTo)
      && t[m.id].mediaId == Column(if l.c.media.Some? then l.c.media.value.ref else "", m.mediaId)
      && t[m.id].mimeType == Column(if l.c.media.Some? then l.c.media.value.mime else "", m.mimeType)
      && t[m.id] == m.(body := t[m.id].body, mentionsMe := t[m.id].mentionsMe, replyTo := t[m.id].replyTo,
           mediaId := t[m.id].mediaId, mimeType := t[m.id].mimeType,
           platform := if TrimSpace(m.platform) == "" then "sms" else m.platform)
  {
    hide TrimSpace, AddressesMatch, FindTarget, Accepts, EditConversation, Home;
    HomeIs(l.o);
    var m := FindTarget(s.rows, Home(l.o), l.target, l.o.source).value;
    EditWritten(s.rows, m, l.c);
    FoundNonzero(s.rows, Home(l.o), l.target, l.o.source);
  }

  lemma HomeIs(o: Origin)
    ensures ConversationId(o) == Home(o)
  {
  }

  lemma FoundNonzero(rows: Table, conv: string, ts: int, author: string)
    ensures FindTarget(rows, conv, ts, author).Some? ==> ts != 0
  {
    hide Pick, AtTimestamp, NearTimestamp;
  }

  lemma EditWritten(rows: Table, m: Message, c: Content)
    requires m.id in rows && rows[m.id] == m
    ensures var r := Written(rows, EditedRow(m, c));
      && r.id == m.id && r.body == c.body && r.mentionsMe == c.mentionsMe && r.replyTo == Column(c.replyTo, m.replyTo)
      && r.mediaId == Column(if c.media.Some? then c.media.value.ref else "", m.mediaId)
      && r.mimeType == Column(if c.media.Some? then c.media.value.mime else "", m.mimeType)
      && r == m.(body := r.body, mentionsMe := r.mentionsMe, replyTo := r.replyTo, mediaId := r.mediaId,
           mimeType := r.mimeType, platform := if TrimSpace(m.platform) == "" then "sms" else m.platform)
  {
    hide TrimSpace;
  }

  /** An edit without its message: refused live, and in a replay stored under its own row. */
  lemma {:induction false} MissingEditColumns(h: Hashes, account: string, s: State, l: Line, synthesize: bool)
    requires l.Edit? && IsFor(l.o, account) && l.target != 0
    requires FindTarget(s.rows, Home(l.o), l.target, l.o.source).None?
    ensures var r, id := HandledEdit(h, account, s, l, synthesize), "signal:missing-edit:"
      + h.missingEdit(Home(l.o), l.o.source, l.target);
      && (!synthesize ==> r.outcome == TargetMissing && r.state.rows == s.rows)
      && (synthesize && r.outcome == Done && id !in s.rows ==>
            && r.state.rows.Keys == s.rows.Keys + {id} && (forall x :: x in s.rows ==> r.state.rows[x] == s.rows[x])
            && var p := r.state.rows[id];
               && p.conv == Home(l.o) && p.body == l.c.body && p.ts == l.target && p.status == "received" && !p.fromMe
               && p.senderNumber == l.o.source && p.senderName == FirstOf(l.o.name, l.o.source)
               && p.mentionsMe == l.c.mentionsMe && p.replyTo == l.c.replyTo && p.platform == "signal"
               && p.mediaId == (if l.c.media.Some? then l.c.media.value.ref else "")
               && p.mimeType == (if l.c.media.Some? then l.c.media.value.mime else "")
               && p.reactions == [] && p.sourceId == "missing-edit:" + h.missingEdit(Home(l.o), l.o.source, l.target))
  {
    hide TrimSpace, AddressesMatch, FindTarget, Accepts, EditConversation, EditedRow, Home, PlaceholderRow;
    HomeIs(l.o);
    PlaceholderIs(h, l.o, l.target, l.c);
    assert TrimSpace("signal") == "signal";
  }

  lemma PlaceholderIs(h: Hashes, o: Origin, ts: int, c: Content)
    ensures var p, digest := PlaceholderRow(h, o, ts, c), h.missingEdit(Home(o), o.source, ts);
      && p.id == "signal:missing-edit:" + digest && p.sourceId == "missing-edit:" + digest
      && p.conv == Home(o) && p.body == c.body && p.ts == ts && p.status == "received" && !p.fromMe
      && p.senderNumber == o.source && p.senderName == FirstOf(o.name, o.source)
      && p.mentionsMe == c.mentionsMe && p.replyTo == c.replyTo && p.platform == "signal"
      && p.mediaId == (if c.media.Some? then c.media.value.ref else "")
      && p.mimeType == (if c.media.Some? then c.media.value.mime else "") && p.reactions == []
  {
    hide TrimSpace;
    assert "signal:" + "missing-edit:" + h.missingEdit(Home(o), o.source, ts)
      == "signal:missing-edit:" + h.missingEdit(Home(o), o.source, ts);
  }

  lemma TargetlessEdit(h: Hashes, account: string, s: State, l: Line, synthesize: bool)
    requires l.Edit? && l.target == 0
    ensures var r := HandledEdit(h, account, s, l, synthesize); r.outcome == Done && r.state.rows == s.rows
  {
    hide AddressesMatch, EditConversation;
  }

  // ----- Refusals -----

  lemma SignalPlatform(m: Message)
    requires m.platform == "signal"
    ensures StoredPlatform(m) == "signal"
  {
    assert !White("signal"[0]);
  }

  /** A data message is refused exactly when its digest stands as the source id of another Signal row;
      the rows then stay as they were. */
  lemma {:induction false} DataRefusedExactly(h: Hashes, account: string, s: State, l: Line)
    requires l.Data? && IsFor(l.o, account)
    ensures var id, source := "signal:" + Digest(h, l), Digest(h, l); var r := HandledData(h, account, s, l);
      if Taken(s.rows, id, "signal", if source == "" && id in s.rows then s.rows[id].sourceId else source)
      then r.outcome == StoreFailed && r.state.rows == s.rows else r.outcome == Done
  {
    hide AliasFor, DataRow, Absorbed, TrimSpace, DataConversation, Home, Digest, SentAt, DataId, HasColumns,
      Accepts, Written, AddressesMatch, DataTime, ConversationId, IsFor, Ignored, Taken, StoredPlatform, ToStore;
    LineTerms(h, l, account);
    var convo := DataConversation(Existing(s.convs, ConversationId(l.o)), l.o, DataTime(l), DataId(h, l) !in s.rows);
    var m := ToStore(h, s.rows, l, convo.name);
    BroughtColumns(h, s.rows, l, convo.name);
    BroughtPlatform(m, l, convo.name, AliasFor(s.rows, l));
    AcceptsExactly(s.rows, m);
    SignalPlatform(m);
  }

  lemma BroughtPlatform(m: Message, l: Line, convName: string, p: Option<Message>)
    requires l.Data? && HasColumns(m, l, convName, BlankRow(m.id, m.ts), p)
    ensures m.platform == "signal"
  {
  }

  /** An edit is refused only when the row it would leave clashes with another by source id: the row of
      its message, or in a replay without one its own. */
  lemma {:induction false} EditRefusedExactly(h: Hashes, account: string, s: State, l: Line, synthesize: bool)
    requires l.Edit? && IsFor(l.o, account) && l.target != 0
    ensures var r, found := HandledEdit(h, account, s, l, synthesize),
      FindTarget(s.rows, Home(l.o), l.target, l.o.source);
      && (r.outcome != Done ==> r.state.rows == s.rows)
      && (found.Some? ==>
            var m := found.value;
            r.outcome == if Taken(s.rows, m.id, StoredPlatform(m), m.sourceId) then StoreFailed else Done)
      && (found.None? && !synthesize ==> r.outcome == TargetMissing)
      && (found.None? && synthesize ==>
            var source := "missing-edit:" + h.missingEdit(Home(l.o), l.o.source, l.target);
            r.outcome == if Taken(s.rows, "signal:" + source, "signal", source) then StoreFailed else Done)
  {
    hide AddressesMatch, FindTarget, EditConversation, Home, Taken, StoredPlatform, AppliedEdit, Materialized, IsFor,
      Ignored;
    HomeIs(l.o);
    ForTerms(l, account);
    var ensured := s.(convs := s.convs[Home(l.o) := EditConversation(Existing(s.convs, Home(l.o)), l.o)]);
    AppliedOutcome(ensured, Home(l.o), l.target, l.o.source, l.c);
    MaterializedOutcome(h, ensured, l.o, l.target, l.c);
  }

  lemma {:induction false} AppliedOutcome(s: State, conv: string, target: int, author: Token, c: Content)
    requires target != 0
    ensures var r, found := AppliedEdit(s, conv, target, author, c), FindTarget(s.rows, conv, target, author);
      && (r.outcome != Done ==> r.state.rows == s.rows)
      && (found.None? ==> r == Result(s, TargetMissing))
      && (found.Some? ==>
            r.outcome == if Taken(s.rows, found.value.id, StoredPlatform(found.value), found.value.sourceId)
                         then StoreFailed else Done)
  {
    hide FindTarget, Accepts, EditedRow, Taken, StoredPlatform, StoredSource, Written, UpsertRow;
    var found := FindTarget(s.rows, conv, target, author);
    if found.Some? {
      AcceptsExactly(s.rows, EditedRow(found.value, c));
      EditedKeeps(s.rows, found.value, c);
    }
  }

  lemma {:induction false} MaterializedOutcome(h: Hashes, s: State, o: Origin, ts: int, c: Content)
    ensures var r, source := Materialized(h, s, o, ts, c), "missing-edit:" + h.missingEdit(Home(o), o.source, ts);
      && r.outcome == (if Taken(s.rows, "signal:" + source, "signal", source) then StoreFailed else Done)
      && (r.outcome != Done ==> r.state == s)
  {
    hide *;
    var p := PlaceholderRow(h, o, ts, c);
    PlaceholderPlace(h, o, ts, c);
    RefusedPlaceholder(s.rows, p);
    MaterializedIs(h, s, o, ts, c);
  }

  lemma MaterializedIs(h: Hashes, s: State, o: Origin, ts: int, c: Content)
    ensures var r, p := Materialized(h, s, o, ts, c), PlaceholderRow(h, o, ts, c);
      r.outcome == (if Accepts(s.rows, p) then Done else StoreFailed) && (r.outcome != Done ==> r.state == s)
  {
    hide Accepts, PlaceholderRow, UpsertRow;
  }

  lemma RefusedPlaceholder(rows: Table, p: Message)
    requires p.sourceId != "" && p.platform == "signal"
    ensures Accepts(rows, p) <==> !Taken(rows, p.id, "signal", p.sourceId)
  {
    hide Accepts, Taken, StoredPlatform, Written;
    SignalPlatform(p);
    AcceptsExactly(rows, p);
  }

  lemma PlaceholderPlace(h: Hashes, o: Origin, ts: int, c: Content)
    ensures var p, source := PlaceholderRow(h, o, ts, c), "missing-edit:" + h.missingEdit(Home(o), o.source, ts);
      p.id == "signal:" + source && p.sourceId == source && source != "" && p.platform == "signal"
  {
    hide TrimSpace;
    HomeIs(o);
  }

  lemma EditedKeeps(rows: Table, m: Message, c: Content)
    requires m.id in rows && rows[m.id] == m
    ensures EditedRow(m, c).id == m.id && StoredPlatform(EditedRow(m, c)) == StoredPlatform(m)
    ensures StoredSource(rows, EditedRow(m, c)) == m.sourceId
  {
    hide TrimSpace;
  }

  // ----- A reaction -----

  /** A reaction changes the list of the message it finds, and nothing else. */
  lemma {:induction false} ReactionColumns(s: State, l: Line)
    requires l.React?
    ensures var r, found := HandledReaction(s, l), FindTarget(s.rows, Home(l.o), l.target, l.author);
      && r.outcome == Done && r.state.convs == s.convs && r.state.rows.Keys == s.rows.Keys
      && ((l.o.source == "" && l.o.groupId == "") || found.None? ==> r.state == s)
      && ((l.o.source != "" || l.o.groupId != "") && found.Some? ==>
            && found.value.id in s.rows
            && r.state.rows[found.value.id]
              == found.value.(reactions := Updated(found.value.reactions, l.actor, l.emoji))
            && (forall x :: x in s.rows && x != found.value.id ==> r.state.rows[x] == s.rows[x]))
  {
    hide FindTarget, Updated, HasChange;
    var found := FindTarget(s.rows, Home(l.o), l.target, l.author);
    if found.Some? {
      NoChangeNoUpdate(found.value.reactions, l);
    }
  }

  // ----- The lookup -----

  /** What is found is of the conversation and the author, and within fifteen seconds. */
  lemma {:induction false} FoundQualifies(rows: Table, conv: string, ts: int, author: string)
    ensures var found := FindTarget(rows, conv, ts, author);
      found.Some? ==>
        && ts != 0 && found.value.conv == conv && ts - 15000 <= found.value.ts <= ts + 15000
        && (author == "" || AddressesMatch(found.value.senderNumber, author))
  {
    hide AddressesMatch, Pick, AtTimestamp, NearTimestamp;
    if ts != 0 {
      PickedIsEligible(AtTimestamp(rows, conv, ts), author, ts);
      PickedIsEligible(NearTimestamp(rows, conv, ts), author, ts);
    }
  }

  lemma {:induction false} PickedIsEligible(ms: seq<Message>, author: string, ts: int)
    ensures var p := Pick(ms, author, ts);
      p.Some? ==> p.value in ms && (author == "" || AddressesMatch(p.value.senderNumber, author))
  {
    hide AddressesMatch;
    if ms != [] {
      PickedIsEligible(ms[..|ms| - 1], author, ts);
    }
  }

  // ----- A whole batch -----

  /** The line delivers the message or edits it. */
  ghost predicate Says(h: Hashes, account: string, k: Places, l: Line, id: string) {
    || (l.Data? && IsFor(l.o, account) && "signal:" + Digest(h, l) == id)
    || (l.Edit? && IsFor(l.o, account) && TargetOf(k, l) == id)
  }

  lemma StoredSays(h: Hashes, rows: Table, l: Line, name: string, id: string)
    requires l.Data?
    ensures var t := Stored(rows, DataRow(h, l, name));
      && ("signal:" + Digest(h, l) == id ==> id in t && t[id].body == l.c.body && t[id].mentionsMe == l.c.mentionsMe)
      && ("signal:" + Digest(h, l) != id && id in rows ==> id in t && t[id] == rows[id])
  {
    hide DataRow, Home, Digest, SentAt, DataId;
    LineTerms(h, l, "");
    RowColumns(h, l, name);
    RowId(h, l, name);
  }

  lemma ReworkedSays(rows: Table, id: string, l: Line, x: string)
    requires l.Edit?
    ensures var t := Reworked(rows, id, l);
      && (x == id && id in rows ==> t[x].body == l.c.body && t[x].mentionsMe == l.c.mentionsMe)
      && (x != id && x in rows ==> t[x] == rows[x])
  {
  }

  lemma ReactedSays(rows: Table, id: string, l: Line, x: string)
    requires l.React?
    ensures x in rows ==>
      Reacted(rows, id, l)[x].body == rows[x].body && Reacted(rows, id, l)[x].mentionsMe == rows[x].mentionsMe
  {
    hide Updated;
  }

  lemma ForTerms(l: Line, account: string)
    ensures Ignored(l, account) <==> !IsFor(l.o, account)
  {
    hide AddressesMatch;
  }

  /** The line's effect on one message's text and mention. */
  ghost predicate EffectTells(h: Hashes, account: string, k: Places, s: State, l: Line, id: string) {
    var t := Effect(h, account, k, s, l).rows;
    && (Says(h, account, k, l, id) ==>
          !l.React? && id in t && t[id].body == l.c.body && t[id].mentionsMe == l.c.mentionsMe)
    && (!Says(h, account, k, l, id) && id in s.rows ==>
          id in t && t[id].body == s.rows[id].body && t[id].mentionsMe == s.rows[id].mentionsMe)
  }

  lemma {:induction false} DataTells(h: Hashes, account: string, k: Places, s: State, l: Line, id: string)
    requires l.Data?
    ensures EffectTells(h, account, k, s, l, id)
  {
    hide DataRow, DataConversation, TargetOf, Ignored, IsFor, Home, Digest, SentAt, DataId, Stored, ConversationId,
      DataTime;
    ForTerms(l, account);
    var convo := DataConversation(Existing(s.convs, ConversationId(l.o)), l.o, DataTime(l), DataId(h, l) !in s.rows);
    StoredSays(h, s.rows, l, convo.name, id);
  }

  lemma {:induction false} EditTells(h: Hashes, account: string, k: Places, s: State, l: Line, id: string)
    requires l.Edit? && (Edits(l, account) && TargetOf(k, l) == id ==> id in s.rows)
    ensures EffectTells(h, account, k, s, l, id)
  {
    hide EditConversation, TargetOf, Ignored, IsFor, Reworked, ConversationId;
    ForTerms(l, account);
    ReworkedSays(s.rows, TargetOf(k, l), l, id);
  }

  lemma {:induction false} ReactTells(h: Hashes, account: string, k: Places, s: State, l: Line, id: string)
    requires l.React?
    ensures EffectTells(h, account, k, s, l, id)
  {
    hide TargetOf, Ignored, IsFor, Reacted;
    ReactedSays(s.rows, TargetOf(k, l), l, id);
  }

  lemma {:induction false} EffectSays(h: Hashes, account: string, k: Places, s: State, l: Line, id: string)
    requires Edits(l, account) && TargetOf(k, l) == id ==> id in s.rows
    ensures EffectTells(h, account, k, s, l, id)
  {
    hide EffectTells, TargetOf, Ignored;
    match l
    case Data(_, _) => DataTells(h, account, k, s, l, id);
    case Edit(_, _, _) => EditTells(h, account, k, s, l, id);
    case React(_, _, _, _, _) => ReactTells(h, account, k, s, l, id);
  }

  lemma {:induction false} EffectsSay(h: Hashes, account: string, k: Places, s: State, ls: seq<Line>, j: nat,
    id: string)
    requires AllInOrder(h, account, k, s.rows.Keys, ls) && j < |ls| && Says(h, account, k, ls[j], id)
    requires forall i :: j < i < |ls| ==> !Says(h, account, k, ls[i], id)
    ensures var t := Effects(h, account, k, s, ls);
      && !ls[j].React? && id in t.rows && t.rows[id].body == ls[j].c.body && t.rows[id].mentionsMe == ls[j].c.mentionsMe
  {
    hide Effect, Says, AllInOrder, TargetOf, Meets, LineFine, Ignored;
    var init, l := ls[..|ls| - 1], ls[|ls| - 1];
    OrderBefore(h, account, k, s, ls);
    EffectSays(h, account, k, Effects(h, account, k, s, init), l, id);
    if j < |init| {
      EffectsSay(h, account, k, s, init, j, id);
    }
  }

  /** Main result: after a batch each delivered message has the body and the mention of its last
      delivery or edit. */
  lemma {:induction false} BatchSays(h: Hashes, account: string, s: State, ls: seq<Line>, j: nat, id: string)
    requires Batch(h, account, s.rows, ls) && j < |ls|
    requires Says(h, account, EndPlaces(h, account, s.rows, ls), ls[j], id)
    requires forall i :: j < i < |ls| ==> !Says(h, account, EndPlaces(h, account, s.rows, ls), ls[i], id)
    ensures var t := Run(h, account, s, ls);
      && !ls[j].React? && id in t.rows && t.rows[id].body == ls[j].c.body && t.rows[id].mentionsMe == ls[j].c.mentionsMe
  {
    hide Batch, Effects, Run, Says, EndPlaces, AllInOrder;
    PassFirst(h, account, s, ls, |ls|);
    assert ls[..|ls|] == ls;
    ReadyTargets(h, account, EndPlaces(h, account, s.rows, ls), s, ls);
    EffectsSay(h, account, EndPlaces(h, account, s.rows, ls), s, ls, j, id);
  }
}
