/** `UpsertMessage`: the field-wise merge on a repeated message id, under the unique
    (source_platform, source_id) index. */
module Upsert {
  import opened Text
  import opened Records

  function Keep(next: string, prev: string): string {
    if next != "" then next else prev
  }

  /** The ON CONFLICT clause. Content columns keep the stored value when the incoming one is
      empty; conversation, status, flags and platform are taken from the incoming row. */
  function Merge(o: Message, m: Message): Message
  {
    m.(senderName := Keep(m.senderName, o.senderName),
       senderNumber := Keep(m.senderNumber, o.senderNumber),
       body := Keep(m.body, o.body),
       ts := if m.ts > 0 then m.ts else o.ts,
       mediaId := Keep(m.mediaId, o.mediaId),
       mimeType := Keep(m.mimeType, o.mimeType),
       decryptionKey := Keep(m.decryptionKey, o.decryptionKey),
       reactions := if m.reactions != [] then m.reactions else o.reactions,
       replyTo := Keep(m.replyTo, o.replyTo),
       sourceId := Keep(m.sourceId, o.sourceId))
  }

  function WithPlatform(m: Message): Message {
    if TrimSpace(m.platform) == "" then m.(platform := "sms") else m
  }

  /** The row the statement would leave under the message's id. */
  function Written(rows: Table, m: Message): (r: Message)
    ensures r.id == m.id
  {
    var m := WithPlatform(m);
    if m.id in rows then Merge(rows[m.id], m) else m
  }

  /** The partial unique index on (source_platform, source_id). */
  predicate Clashes(rows: Table, r: Message) {
    r.sourceId != "" &&
    exists id :: id in rows && id != r.id && rows[id].platform == r.platform && rows[id].sourceId == r.sourceId
  }

  predicate Accepts(rows: Table, m: Message) {
    !Clashes(rows, Written(rows, m))
  }

  /** One transaction: rolled back as a whole when the unique index refuses the row. */
  function UpsertRow(rows: Table, m: Message): (r: Table)
    ensures !Accepts(rows, m) ==> r == rows
    ensures Accepts(rows, m) ==> r.Keys == rows.Keys + {m.id}
    ensures forall id :: id in rows && id != m.id ==> id in r && r[id] == rows[id]
  {
    if Accepts(rows, m) then rows[m.id := Written(rows, m)] else rows
  }

  function UpsertAll(rows: Table, ds: seq<Message>): Table {
    if ds == [] then rows else UpsertRow(UpsertAll(rows, ds[..|ds| - 1]), ds[|ds| - 1])
  }

  /** The deliveries that found the unique index free. */
  function AcceptedOf(rows: Table, ds: seq<Message>): seq<Message> {
    if ds == [] then [] else
      var before, m := AcceptedOf(rows, ds[..|ds| - 1]), ds[|ds| - 1];
      if Accepts(UpsertAll(rows, ds[..|ds| - 1]), m) then before + [m] else before
  }

  /** The deliveries of one message id, in order. */
  function For(ds: seq<Message>, id: string): (r: seq<Message>)
    ensures forall i :: 0 <= i < |r| ==> r[i].id == id
  {
    if ds == [] then []
    else For(ds[..|ds| - 1], id) + if ds[|ds| - 1].id == id then [ds[|ds| - 1]] else []
  }

  /** The reference: `v` is the last value in `xs` that is set, or `start` when none is. */
  ghost predicate LastSet<T(!new)>(xs: seq<T>, isSet: T -> bool, start: T, v: T) {
    || (&& v == start && forall i :: 0 <= i < |xs| ==> !isSet(xs[i]))
    || exists i :: 0 <= i < |xs| && isSet(xs[i]) && v == xs[i] && forall j :: i < j < |xs| ==> !isSet(xs[j])
  }

  lemma LastSetExtends<T(!new)>(xs: seq<T>, isSet: T -> bool, start: T, v: T, x: T)
    requires LastSet(xs, isSet, start, v)
    ensures LastSet(xs + [x], isSet, start, if isSet(x) then x else v)
  {
    var ys := xs + [x];
    if isSet(x) {
      assert ys[|xs|] == x;
    } else if exists i :: 0 <= i < |xs| && isSet(xs[i]) && v == xs[i] && forall j :: i < j < |xs| ==> !isSet(xs[j]) {
      var i :| 0 <= i < |xs| && isSet(xs[i]) && v == xs[i] && forall j :: i < j < |xs| ==> !isSet(xs[j]);
      assert ys[i] == v;
    }
  }

  /** The text columns a status-only delivery leaves empty. */
  datatype TextColumn =
    SenderName | SenderNumber | Body | MediaId | MimeType | DecryptionKey | ReplyTo | SourceId

  function TextOf(m: Message, c: TextColumn): string {
    match c
    case SenderName => m.senderName
    case SenderNumber => m.senderNumber
    case Body => m.body
    case MediaId => m.mediaId
    case MimeType => m.mimeType
    case DecryptionKey => m.decryptionKey
    case ReplyTo => m.replyTo
    case SourceId => m.sourceId
  }

  function Texts(ds: seq<Message>, c: TextColumn): (r: seq<string>)
    ensures |r| == |ds|
  {
    seq(|ds|, i requires 0 <= i < |ds| => TextOf(ds[i], c))
  }

  function Times(ds: seq<Message>): (r: seq<int>)
    ensures |r| == |ds|
  {
    seq(|ds|, i requires 0 <= i < |ds| => ds[i].ts)
  }

  function ReactionLists(ds: seq<Message>): (r: seq<seq<Reaction>>)
    ensures |r| == |ds|
  {
    seq(|ds|, i requires 0 <= i < |ds| => ds[i].reactions)
  }

  const NonEmpty: string -> bool := s => s != ""

  const NonEmptyList: seq<Reaction> -> bool := s => s != []

  const Positive: int -> bool := t => t > 0

  ghost predicate TextIsLast(o: Message, ds: seq<Message>, r: Message, c: TextColumn) {
    LastSet(Texts(ds, c), NonEmpty, TextOf(o, c), TextOf(r, c))
  }

  predicate SameVolatile(a: Message, b: Message) {
    && a.conv == b.conv && a.status == b.status && a.fromMe == b.fromMe
    && a.mentionsMe == b.mentionsMe && a.platform == b.platform
  }

  /** Each content column holds the last non-empty value delivered for the id (starting from
      the old row `o`, when there was one), the time the last positive one, and the volatile
      columns hold the last delivery. */
  ghost predicate RowIsLastValues(o: Message, ds: seq<Message>, r: Message)
  {
    && (forall c :: TextIsLast(o, ds, r, c))
    && LastSet(ReactionLists(ds), NonEmptyList, o.reactions, r.reactions)
    && LastSet(Times(ds), Positive, o.ts, r.ts)
    && SameVolatile(r, if ds == [] then o else WithPlatform(ds[|ds| - 1]))
  }

  lemma TextAppends(o: Message, ds: seq<Message>, r: Message, m: Message, c: TextColumn)
    requires TextIsLast(o, ds, r, c)
    ensures TextIsLast(o, ds + [m], Merge(r, WithPlatform(m)), c)
  {
    LastSetExtends(Texts(ds, c), NonEmpty, TextOf(o, c), TextOf(r, c), TextOf(m, c));
    assert Texts(ds + [m], c) == Texts(ds, c) + [TextOf(m, c)];
  }

  lemma MergeAppends(o: Message, ds: seq<Message>, r: Message, m: Message)
    requires RowIsLastValues(o, ds, r)
    ensures RowIsLastValues(o, ds + [m], Merge(r, WithPlatform(m)))
  {
    var r' := Merge(r, WithPlatform(m));
    forall c ensures TextIsLast(o, ds + [m], r', c) {
      TextAppends(o, ds, r, m, c);
    }
    LastSetExtends(ReactionLists(ds), NonEmptyList, o.reactions, r.reactions, m.reactions);
    assert ReactionLists(ds + [m]) == ReactionLists(ds) + [m.reactions];
    LastSetExtends(Times(ds), Positive, o.ts, r.ts, m.ts);
    assert Times(ds + [m]) == Times(ds) + [m.ts];
  }

  /** An insert takes the time as it comes, so a new row starts from its first delivery's. */
  function BlankRow(id: string, ts: int): Message {
    Message(id, "", "", "", "", ts, "", false, false, "", "", "", [], "", "", "")
  }

  function StartRow(rows: Table, id: string, own: seq<Message>): Message {
    if id in rows then rows[id] else BlankRow(id, if own == [] then 0 else own[0].ts)
  }

  lemma InsertIsLastValues(m: Message)
    ensures RowIsLastValues(BlankRow(m.id, m.ts), [m], WithPlatform(m))
  {
    var o := BlankRow(m.id, m.ts);
    assert RowIsLastValues(o, [], o);
    MergeAppends(o, [], o, m);
    assert [] + [m] == [m];
    assert Merge(o, WithPlatform(m)) == WithPlatform(m);
  }

  ghost predicate HoldsLastValues(rows: Table, own: seq<Message>, id: string, after: Table) {
    && (id in after <==> id in rows || own != [])
    && (id in after ==> RowIsLastValues(StartRow(rows, id, own), own, after[id]))
  }

  lemma OwnDelivery(rows: Table, own: seq<Message>, before: Table, m: Message)
    requires HoldsLastValues(rows, own, m.id, before) && Accepts(before, m)
    ensures HoldsLastValues(rows, own + [m], m.id, UpsertRow(before, m))
  {
    assert m.id in UpsertRow(before, m);
    if m.id in before {
      MergeAppends(StartRow(rows, m.id, own), own, before[m.id], m);
    } else {
      InsertIsLastValues(m);
      assert own + [m] == [m];
    }
  }

  /** Main result: after any interleaving of deliveries, to any ids, each row holds exactly what the
      unique index last let in for it, column by column. */
  lemma {:induction false} UpsertKeepsLastValues(rows: Table, ds: seq<Message>, id: string)
    ensures HoldsLastValues(rows, For(AcceptedOf(rows, ds), id), id, UpsertAll(rows, ds))
  {
    hide HoldsLastValues, Accepts;
    if ds == [] {
      NothingDelivered(rows, id);
    } else {
      var init, m := ds[..|ds| - 1], ds[|ds| - 1];
      UpsertKeepsLastValues(rows, init, id);
      if Accepts(UpsertAll(rows, init), m) {
        ForAppends(AcceptedOf(rows, init), m, id);
        if m.id == id {
          OwnDelivery(rows, For(AcceptedOf(rows, init), id), UpsertAll(rows, init), m);
        } else {
          OtherDelivery(rows, For(AcceptedOf(rows, init), id), id, UpsertAll(rows, init), m);
        }
      }
    }
  }

  lemma NothingDelivered(rows: Table, id: string)
    ensures HoldsLastValues(rows, [], id, rows)
  {
    assert id in rows ==> RowIsLastValues(rows[id], [], rows[id]);
  }

  lemma ForAppends(ds: seq<Message>, m: Message, id: string)
    ensures For(ds + [m], id) == if m.id == id then For(ds, id) + [m] else For(ds, id)
  {
    assert (ds + [m])[..|ds|] == ds;
  }

  lemma OtherDelivery(rows: Table, own: seq<Message>, id: string, before: Table, m: Message)
    requires HoldsLastValues(rows, own, id, before) && m.id != id
    ensures HoldsLastValues(rows, own, id, UpsertRow(before, m))
  {
    hide RowIsLastValues, Accepts;
  }

  /** Merging is a right-regular band: a delivery that was since overwritten adds nothing. */
  lemma MergeBand(o: Message, a: Message, b: Message)
    ensures Merge(Merge(Merge(o, a), b), a) == Merge(Merge(o, b), a)
    ensures Merge(Merge(o, a), b) == Merge(o, Merge(a, b))
    ensures Merge(Merge(o, a), a) == Merge(o, a)
  {
  }

  lemma UpsertIdempotent(rows: Table, m: Message)
    ensures UpsertRow(UpsertRow(rows, m), m) == UpsertRow(rows, m)
  {
    var once := UpsertRow(rows, m);
    if Accepts(rows, m) {
      WrittenTwice(rows, m);
      assert once[m.id := once[m.id]] == once;
    }
  }

  lemma WrittenTwice(rows: Table, m: Message)
    requires Accepts(rows, m)
    ensures Written(UpsertRow(rows, m), m) == Written(rows, m)
  {
    if m.id in rows {
      MergeBand(rows[m.id], WithPlatform(m), WithPlatform(m));
    }
  }

  /** The unique index holds over every run. */
  predicate SourcesUnique(rows: Table) {
    forall a, b :: a in rows && b in rows && a != b && rows[a].sourceId != "" ==>
      rows[a].platform != rows[b].platform || rows[a].sourceId != rows[b].sourceId
  }

  lemma {:induction false} UpsertAllKeepsSourcesUnique(rows: Table, ds: seq<Message>)
    requires SourcesUnique(rows)
    ensures SourcesUnique(UpsertAll(rows, ds))
  {
    if ds != [] {
      UpsertAllKeepsSourcesUnique(rows, ds[..|ds| - 1]);
    }
  }

  /** The platform and source id the statement would store for `m`: blank platform text means SMS,
      and an empty source id leaves the stored one. */
  function StoredPlatform(m: Message): string {
    if forall i :: 0 <= i < |m.platform| ==> White(m.platform[i]) then "sms" else m.platform
  }

  function StoredSource(rows: Table, m: Message): string {
    if m.sourceId == "" && m.id in rows then rows[m.id].sourceId else m.sourceId
  }

  /** Another row holds this platform and source id already. */
  predicate Taken(rows: Table, id: string, platform: string, source: string) {
    source != "" && exists other ::
      other in rows && other != id && rows[other].platform == platform && rows[other].sourceId == source
  }

  lemma AcceptsExactly(rows: Table, m: Message)
    ensures Accepts(rows, m) <==> !Taken(rows, m.id, StoredPlatform(m), StoredSource(rows, m))
    ensures Written(rows, m).platform == StoredPlatform(m) && Written(rows, m).sourceId == StoredSource(rows, m)
  {
    hide White, TrimSpace;
    TrimSpaceExactly(m.platform);
    assert Taken(rows, m.id, StoredPlatform(m), StoredSource(rows, m)) <==> Clashes(rows, Written(rows, m));
  }

  /** Main result: a delivery is refused exactly when its platform and source id stand under another
      id; it then changes nothing, and otherwise they stand under its own. */
  lemma RefusedExactly(rows: Table, m: Message)
    ensures var after := UpsertRow(rows, m);
      if Taken(rows, m.id, StoredPlatform(m), StoredSource(rows, m)) then after == rows
      else m.id in after && after[m.id].platform == StoredPlatform(m) && after[m.id].sourceId == StoredSource(rows, m)
  {
    hide Accepts, Taken, Written, StoredPlatform, StoredSource;
    AcceptsExactly(rows, m);
  }
}
