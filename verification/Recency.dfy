/** Conversation recency and unread state under platform snapshots and incoming messages. */
module Recency {
  import opened Text
  import opened Records

  /** A platform snapshot: recency never moves back, and it sets unread on a read conversation
      only when it is newer than what is stored. */
  function Guarded(existing: Conversation, c: Conversation): Conversation {
    c.(lastTS := Max(c.lastTS, existing.lastTS),
       unread := if c.unread > 0 && existing.unread == 0 && c.lastTS <= existing.lastTS then 0 else c.unread)
  }

  function Stored(c: Conversation): Conversation {
    if c.platform == "" then c.(platform := "sms") else c
  }

  datatype Event =
    | Snapshot(id: string, c: Conversation)
    | Bump(id: string, ts: int)
    | Arrived(m: Message)
    | MarkRead(id: string)

  function Raised(convs: Conversations, id: string, ts: int): Conversations {
    if id in convs then convs[id := convs[id].(lastTS := Max(convs[id].lastTS, ts))] else convs
  }

  function Step(convs: Conversations, e: Event): Conversations {
    match e
    case Snapshot(id, c) => convs[id := Stored(if id in convs then Guarded(convs[id], c) else c)]
    case Bump(id, ts) => Raised(convs, id, ts)
    case Arrived(m) => if HasContent(m) then Raised(convs, m.conv, m.ts) else convs
    case MarkRead(id) => if id in convs then convs[id := convs[id].(unread := 0)] else convs
  }

  function Run(convs: Conversations, es: seq<Event>): Conversations {
    if es == [] then convs else Step(Run(convs, es[..|es| - 1]), es[|es| - 1])
  }

  class ConversationTable {
    var convs: Conversations

    method UpsertConversation(id: string, c: Conversation)
      modifies this
      ensures convs == old(convs)[id := Stored(c)]
    {
      var row := c;
      if row.platform == "" {
        row := row.(platform := "sms");
      }
      convs := convs[id := row];
    }

    method ApplyConversationSnapshot(id: string, snapshot: Conversation)
      modifies this
      ensures convs == Step(old(convs), Snapshot(id, snapshot))
    {
      var c := snapshot;
      if id in convs {
        var existing := convs[id];
        if snapshot.lastTS < existing.lastTS {
          c := c.(lastTS := existing.lastTS);
        }
        if c.unread > 0 && existing.unread == 0 && snapshot.lastTS <= existing.lastTS {
          c := c.(unread := 0);
        }
      }
      UpsertConversation(id, c);
    }

    method BumpConversationTimestamp(id: string, ts: int)
      modifies this
      ensures convs == Step(old(convs), Bump(id, ts))
    {
      if id in convs && convs[id].lastTS < ts {
        convs := convs[id := convs[id].(lastTS := ts)];
      }
      assert id in convs ==> old(convs)[id := convs[id]] == convs;
    }

    method AdvanceConversationRecency(m: Message)
      modifies this
      ensures convs == Step(old(convs), Arrived(m))
    {
      if HasContent(m) {
        BumpConversationTimestamp(m.conv, m.ts);
      }
    }

    method MarkConversationRead(id: string)
      modifies this
      ensures convs == Step(old(convs), MarkRead(id))
    {
      if id in convs {
        convs := convs[id := convs[id].(unread := 0)];
      }
    }
  }

  /** The time an event claims for a conversation. */
  function Claims(e: Event, id: string): Option<int> {
    match e
    case Snapshot(i, c) => if i == id then Some(c.lastTS) else None
    case Bump(i, ts) => if i == id then Some(ts) else None
    case Arrived(m) => if m.conv == id && HasContent(m) then Some(m.ts) else None
    case MarkRead(_) => None
  }

  /** `t` is the greatest of the start value and every time the events claim. */
  ghost predicate IsLatest(t: int, start: int, es: seq<Event>, id: string) {
    && start <= t
    && (forall i :: 0 <= i < |es| && Claims(es[i], id).Some? ==> Claims(es[i], id).value <= t)
    && (t == start || exists i :: 0 <= i < |es| && Claims(es[i], id) == Some(t))
  }

  /** Main result: recency ends at the maximum, whatever the order of the events. */
  lemma {:induction false} RecencyIsMaximum(convs: Conversations, es: seq<Event>, id: string)
    requires id in convs
    ensures id in Run(convs, es)
    ensures IsLatest(Run(convs, es)[id].lastTS, convs[id].lastTS, es, id)
  {
    hide HasContent;
    if es != [] {
      var init, e := es[..|es| - 1], es[|es| - 1];
      RecencyIsMaximum(convs, init, id);
      var t := Run(convs, init)[id].lastTS;
      if t != convs[id].lastTS {
        var i :| 0 <= i < |init| && Claims(init[i], id) == Some(t);
        assert es[i] == init[i];
      }
      assert Claims(es[|es| - 1], id) == Claims(e, id);
    }
  }

  lemma OrderDoesNotMatter(convs: Conversations, es: seq<Event>, fs: seq<Event>, id: string)
    requires id in convs && multiset(es) == multiset(fs)
    ensures id in Run(convs, es) && id in Run(convs, fs)
    ensures Run(convs, es)[id].lastTS == Run(convs, fs)[id].lastTS
  {
    hide Claims, Run;
    RecencyIsMaximum(convs, es, id);
    RecencyIsMaximum(convs, fs, id);
    LatestAtMost(Run(convs, es)[id].lastTS, Run(convs, fs)[id].lastTS, convs[id].lastTS, es, fs, id);
    LatestAtMost(Run(convs, fs)[id].lastTS, Run(convs, es)[id].lastTS, convs[id].lastTS, fs, es, id);
  }

  lemma LatestAtMost(t: int, u: int, start: int, es: seq<Event>, fs: seq<Event>, id: string)
    requires IsLatest(t, start, es, id) && IsLatest(u, start, fs, id) && multiset(es) == multiset(fs)
    ensures t <= u
  {
    hide Claims;
    if t != start {
      var i :| 0 <= i < |es| && Claims(es[i], id) == Some(t);
      SameEvents(es, fs);
      assert es[i] in es;
      var j :| 0 <= j < |fs| && fs[j] == es[i];
    }
  }

  lemma SameEvents(es: seq<Event>, fs: seq<Event>)
    requires multiset(es) == multiset(fs)
    ensures forall e :: e in es ==> e in fs
  {
    forall e | e in es ensures e in fs {
      assert e in multiset(es);
    }
  }

  /** A snapshot for the conversation that is newer than its recency was before the run. */
  predicate HasNewerSnapshot(start: int, es: seq<Event>, id: string) {
    exists i :: 0 <= i < |es| && es[i].Snapshot? && es[i].id == id && es[i].c.unread > 0 && es[i].c.lastTS > start
  }

  /** Main result: a conversation that was read stays read under any run without a snapshot
      newer than its stored recency, however much older snapshots claim it is unread. */
  lemma {:induction false} ReadStaysRead(convs: Conversations, es: seq<Event>, id: string)
    requires id in convs && convs[id].unread == 0 && !HasNewerSnapshot(convs[id].lastTS, es, id)
    ensures id in Run(convs, es) && Run(convs, es)[id].unread == 0
  {
    hide HasContent;
    if es != [] {
      var init := es[..|es| - 1];
      assert forall i :: 0 <= i < |init| ==> es[i] == init[i];
      ReadStaysRead(convs, init, id);
      RecencyIsMaximum(convs, init, id);
    }
  }

  /** Text with something other than white space in it. */
  predicate Visible(s: string) {
    exists i :: 0 <= i < |s| && !White(s[i])
  }

  /** What one event does, column by column. A snapshot brings its own columns; only its unread
      count gives way, on a read conversation that is not older, and its time to a later one. */
  ghost predicate SnapshotLands(before: Conversations, id: string, c: Conversation, after: Conversations) {
    && after.Keys == before.Keys + {id}
    && (forall i :: i in before && i != id ==> after[i] == before[i])
    && after[id].name == c.name && after[id].isGroup == c.isGroup && after[id].participants == c.participants
    && after[id].platform == (if c.platform == "" then "sms" else c.platform)
    && after[id].lastTS == (if id in before && before[id].lastTS > c.lastTS then before[id].lastTS else c.lastTS)
    && after[id].unread
      == (if id in before && before[id].unread == 0 && c.lastTS <= before[id].lastTS then 0 else c.unread)
  }

  /** The time of one conversation moves up to `t`, and nothing else changes. */
  ghost predicate MovesUp(before: Conversations, id: string, t: int, after: Conversations) {
    && after.Keys == before.Keys
    && (forall i :: i in before && i != id ==> after[i] == before[i])
    && (id in before ==>
          after[id].lastTS == (if t > before[id].lastTS then t else before[id].lastTS)
          && after[id] == before[id].(lastTS := after[id].lastTS))
  }

  /** Main result: the effect of every event, over the columns. A message moves its conversation
      exactly when it has visible text, media or a reaction. */
  lemma EventColumns(convs: Conversations, e: Event)
    ensures e.Snapshot? ==> SnapshotLands(convs, e.id, e.c, Step(convs, e))
    ensures e.Bump? ==> MovesUp(convs, e.id, e.ts, Step(convs, e))
    ensures e.Arrived? && (Visible(e.m.body) || Visible(e.m.mediaId) || e.m.reactions != []) ==>
      MovesUp(convs, e.m.conv, e.m.ts, Step(convs, e))
    ensures e.Arrived? && !(Visible(e.m.body) || Visible(e.m.mediaId) || e.m.reactions != []) ==>
      Step(convs, e) == convs
    ensures e.MarkRead? && e.id in convs ==> Step(convs, e) == convs[e.id := convs[e.id].(unread := 0)]
    ensures e.MarkRead? && e.id !in convs ==> Step(convs, e) == convs
  {
    hide White, TrimSpace;
    if e.Arrived? {
      TrimSpaceExactly(e.m.body);
      TrimSpaceExactly(e.m.mediaId);
    }
  }

  /** The last snapshot of the conversation. */
  ghost predicate LastSnapshot(es: seq<Event>, id: string, k: nat) {
    && k < |es| && es[k].Snapshot? && es[k].id == id
    && forall j :: k < j < |es| ==> !(es[j].Snapshot? && es[j].id == id)
  }

  predicate SameFace(a: Conversation, b: Conversation) {
    && a.name == b.name && a.isGroup == b.isGroup && a.participants == b.participants
    && a.platform == if b.platform == "" then "sms" else b.platform
  }

  lemma FaceStays(convs: Conversations, e: Event, id: string)
    requires !(e.Snapshot? && e.id == id)
    ensures id in Step(convs, e) <==> id in convs
    ensures id in convs ==> Step(convs, e)[id].(lastTS := 0, unread := 0) == convs[id].(lastTS := 0, unread := 0)
  {
    hide HasContent;
  }

  /** After any run a conversation shows the name, members and platform of its last snapshot, and
      one without a snapshot keeps its own; messages never create or rename one. */
  lemma {:induction false} LastSnapshotStands(convs: Conversations, es: seq<Event>, id: string)
    ensures forall k: nat :: LastSnapshot(es, id, k) ==> id in Run(convs, es) && SameFace(Run(convs, es)[id], es[k].c)
    ensures (forall k: nat :: !LastSnapshot(es, id, k)) ==> (id in Run(convs, es) <==> id in convs)
    ensures (forall k: nat :: !LastSnapshot(es, id, k)) && id in convs ==>
      Run(convs, es)[id].(lastTS := 0, unread := 0) == convs[id].(lastTS := 0, unread := 0)
  {
    hide Step;
    if es != [] {
      var n := |es| - 1;
      var init, e := es[..n], es[n];
      LastSnapshotStands(convs, init, id);
      if e.Snapshot? && e.id == id {
        EventColumns(Run(convs, init), e);
        assert LastSnapshot(es, id, n);
      } else {
        FaceStays(Run(convs, init), e, id);
        forall k: nat ensures LastSnapshot(es, id, k) <==> LastSnapshot(init, id, k) {
          assert forall j :: k < j < n ==> es[j] == init[j];
        }
      }
    }
  }
}
