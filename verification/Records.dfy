/** The records of the local store: messages with their reaction lists, and conversations. */
module Records {
  import opened Text

  /** One entry of a message's reactions JSON. The empty list stands for the empty column. */
  datatype Reaction = Reaction(emoji: string, count: int, actors: seq<string>)

  datatype Message = Message(
    id: string,
    conv: string,
    senderName: string,
    senderNumber: string,
    body: string,
    ts: int,
    status: string,
    fromMe: bool,
    mentionsMe: bool,
    mediaId: string,
    mimeType: string,
    decryptionKey: string,
    reactions: seq<Reaction>,
    replyTo: string,
    platform: string,
    sourceId: string)

  datatype Conversation = Conversation(
    name: string,
    isGroup: bool,
    participants: seq<(string, string)>,
    lastTS: int,
    unread: nat,
    platform: string)

  /** The messages table: rows under their primary key. */
  type Table = m: map<string, Message> | forall id :: id in m ==> m[id].id == id witness map[]

  type Conversations = map<string, Conversation>

  datatype Option<T> = None | Some(value: T)

  function Max(a: int, b: int): int { if a > b then a else b }

  /** A message carries content when its body, media or reactions are non-blank. */
  predicate HasContent(m: Message) {
    TrimSpace(m.body) != "" || TrimSpace(m.mediaId) != "" || m.reactions != []
  }

  function Deleted(rows: Table, gone: set<string>): (r: Table)
    ensures r.Keys == rows.Keys - gone
    ensures forall id :: id in r ==> r[id] == rows[id]
  {
    map id | id in rows && id !in gone :: rows[id]
  }

  lemma {:induction false} SubsetSize<T>(a: set<T>, b: set<T>)
    requires a <= b
    ensures |a| <= |b| && (|a| == |b| ==> a == b)
  {
    if x :| x in a {
      SubsetSize(a - {x}, b - {x});
    }
  }
}
