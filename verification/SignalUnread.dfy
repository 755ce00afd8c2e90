/** Unread counts of a batch: how many of the messages it delivers were not stored before. */
module SignalUnread {
  import opened Records
  import opened SignalStore
  import opened SignalBatch
  import opened SignalReplay

  /** The ids the lines deliver to a conversation. */
  function DeliveredTo(h: Hashes, account: string, ls: seq<Line>, c: string): set<string> {
    if ls == [] then {} else
      DeliveredTo(h, account, ls[..|ls| - 1], c)
        + if DeliversTo(ls[|ls| - 1], account, c) then {DataId(h, ls[|ls| - 1])} else {}
  }

  /** A conversation that its first line creates starts with one unread, even when the message of
      that line is stored already. */
  function StartUnread(h: Hashes, account: string, s: State, ls: seq<Line>, c: string): nat {
    if c in s.convs then s.convs[c].unread
    else if ls == [] then 0
    else if DeliveredTo(h, account, ls[..|ls| - 1], c) != {} then StartUnread(h, account, s, ls[..|ls| - 1], c)
    else if DeliversTo(ls[|ls| - 1], account, c) && DataId(h, ls[|ls| - 1]) in s.rows then 1
    else 0
  }

  /** The conversation is there when it was or the lines deliver to it, and unread rose by the number
      of delivered messages that were not stored at the start. */
  predicate Tallies(before: Conversations, after: Conversations, c: string, start: nat, delivered: set<string>,
      stored: set<string>) {
    && (c in after <==> c in before || delivered != {})
    && (c in after ==> after[c].unread == start + |delivered - stored|)
  }

  predicate CountsUnread(h: Hashes, account: string, s: State, ls: seq<Line>, c: string, t: State) {
    Tallies(s.convs, t.convs, c, StartUnread(h, account, s, ls, c), DeliveredTo(h, account, ls, c), s.rows.Keys)
  }

  /** An id delivered at all is delivered to its one conversation. */
  lemma {:induction false} DeliveredOnlyTo(h: Hashes, account: string, ls: seq<Line>, l: Line)
    requires Live(l, account) && DataId(h, l) in Delivered(h, account, ls)
    requires forall i :: 0 <= i < |ls| && Live(ls[i], account) && DataId(h, ls[i]) == DataId(h, l) ==>
      LinePlace(ls[i]) == LinePlace(l)
    ensures DataId(h, l) in DeliveredTo(h, account, ls, ConversationId(l.o))
  {
    hide Ignored, DataId, DataTime, ConversationId;
    var init, last := ls[..|ls| - 1], ls[|ls| - 1];
    if !(Live(last, account) && DataId(h, last) == DataId(h, l)) {
      assert forall i :: 0 <= i < |init| ==> init[i] == ls[i];
      DeliveredOnlyTo(h, account, init, l);
    }
  }

  lemma NewOnlyOnce(h: Hashes, account: string, k: Places, ls: seq<Line>, c: string)
    requires ls != [] && OnePlace(h, account, k, ls) && DeliversTo(ls[|ls| - 1], account, c)
    ensures var init, l := ls[..|ls| - 1], ls[|ls| - 1];
      DataId(h, l) in Delivered(h, account, init) ==> DataId(h, l) in DeliveredTo(h, account, init, c)
  {
    hide Ignored, DataId, DataTime, ConversationId, LinePlace;
    var init, l := ls[..|ls| - 1], ls[|ls| - 1];
    if DataId(h, l) in Delivered(h, account, init) {
      assert forall i :: 0 <= i < |init| ==> init[i] == ls[i];
      DeliveredOnlyTo(h, account, init, l);
    }
  }

  lemma {:induction false} DeliveredToIsDelivered(h: Hashes, account: string, ls: seq<Line>, c: string)
    ensures DeliveredTo(h, account, ls, c) <= Delivered(h, account, ls)
  {
    hide Ignored, DataId, ConversationId;
    if ls != [] {
      DeliveredToIsDelivered(h, account, ls[..|ls| - 1], c);
    }
  }

  lemma DeliveredNext(h: Hashes, account: string, ls: seq<Line>, l: Line, c: string)
    ensures DeliversTo(l, account, c) ==>
      DeliveredTo(h, account, ls + [l], c) == DeliveredTo(h, account, ls, c) + {DataId(h, l)}
    ensures !DeliversTo(l, account, c) ==> DeliveredTo(h, account, ls + [l], c) == DeliveredTo(h, account, ls, c)
  {
    hide DataId, Ignored, ConversationId;
    assert (ls + [l])[..|ls|] == ls;
    assert DeliveredTo(h, account, ls, c) + {} == DeliveredTo(h, account, ls, c);
  }

  lemma StartNext(h: Hashes, account: string, s: State, ls: seq<Line>, l: Line, c: string)
    ensures StartUnread(h, account, s, ls + [l], c) ==
      if c in s.convs || DeliveredTo(h, account, ls, c) != {} then StartUnread(h, account, s, ls, c)
      else if DeliversTo(l, account, c) && DataId(h, l) in s.rows then 1 else 0
  {
    hide DataId, Belongs, DeliveredTo;
    assert (ls + [l])[..|ls|] == ls;
  }

  lemma {:induction false} NothingStarted(h: Hashes, account: string, s: State, ls: seq<Line>, c: string)
    requires c !in s.convs && DeliveredTo(h, account, ls, c) == {}
    ensures StartUnread(h, account, s, ls, c) == 0
  {
    hide DataId, Ignored, ConversationId;
    if ls != [] {
      assert !DeliversTo(ls[|ls| - 1], account, c) by {
        DeliveredNext(h, account, ls[..|ls| - 1], ls[|ls| - 1], c);
        assert ls == ls[..|ls| - 1] + [ls[|ls| - 1]];
      }
    }
  }

  /** What one line does to the count of its conversation. */
  lemma UnreadStep(h: Hashes, account: string, k: Places, s: State, l: Line, c: string)
    requires DeliversTo(l, account, c)
    ensures var t := Effect(h, account, k, s, l);
      && c in t.convs
      && t.convs[c].unread == if c !in s.convs then 1 else s.convs[c].unread + if DataId(h, l) in s.rows then 0 else 1
  {
    hide Effect, Ignored, DataId, DataTime, ConversationId, Titled, Label;
    OwnConversation(h, account, k, s, l, c);
  }

  lemma ExistingKept(a: Conversations, b: Conversations, c: string)
    requires Existing(a, c) == Existing(b, c)
    ensures c in a <==> c in b
    ensures c in a ==> b[c] == a[c]
  {
  }

  /** One more delivered id, new or known. */
  lemma TallyOne(before: Conversations, mid: Conversations, after: Conversations, c: string, start: nat,
        delivered: set<string>, stored: set<string>, now: set<string>, id: string)
    requires Tallies(before, mid, c, start, delivered, stored)
    requires stored <= now && delivered <= now && (id in now ==> id in delivered || id in stored) && c in after
    requires after[c].unread == if c !in mid then 1 else mid[c].unread + if id in now then 0 else 1
    ensures Tallies(before, after, c,
      if c in before || delivered != {} then start else if id in stored then 1 else 0, delivered + {id}, stored)
  {
    var prev, next := delivered - stored, delivered + {id} - stored;
    assert next == if id in now then prev else prev + {id};
    assert id in delivered + {id};
  }

  lemma {:induction false} UnreadOwn(h: Hashes, account: string, k: Places, s: State, mid: State, ls: seq<Line>,
        l: Line, c: string)
    requires CountsUnread(h, account, s, ls, c, mid)
    requires mid.rows.Keys == s.rows.Keys + Delivered(h, account, ls) && DeliversTo(l, account, c)
    requires DataId(h, l) in Delivered(h, account, ls) ==> DataId(h, l) in DeliveredTo(h, account, ls, c)
    ensures CountsUnread(h, account, s, ls + [l], c, Effect(h, account, k, mid, l))
  {
    hide Effect, Ignored, DataId, ConversationId, Delivered, DeliveredTo, StartUnread, Tallies;
    DeliveredNext(h, account, ls, l, c);
    StartNext(h, account, s, ls, l, c);
    UnreadStep(h, account, k, mid, l, c);
    DeliveredToIsDelivered(h, account, ls, c);
    TallyOne(s.convs, mid.convs, Effect(h, account, k, mid, l).convs, c, StartUnread(h, account, s, ls, c),
      DeliveredTo(h, account, ls, c), s.rows.Keys, mid.rows.Keys, DataId(h, l));
  }

  lemma {:induction false} UnreadOther(h: Hashes, account: string, k: Places, s: State, mid: State, ls: seq<Line>,
        l: Line, c: string)
    requires CountsUnread(h, account, s, ls, c, mid) && !DeliversTo(l, account, c)
    requires Belongs(l, account, c) ==> DeliveredTo(h, account, ls, c) != {}
    ensures CountsUnread(h, account, s, ls + [l], c, Effect(h, account, k, mid, l))
  {
    hide Effect, Ignored, ConversationId, DataId, DeliveredTo, StartUnread, Existing, Titled, Label;
    DeliveredNext(h, account, ls, l, c);
    StartNext(h, account, s, ls, l, c);
    if Belongs(l, account, c) {
      OwnConversation(h, account, k, mid, l, c);
      EditUnread(mid.convs, Effect(h, account, k, mid, l).convs, l, c);
    } else {
      OtherConversation(h, account, k, mid, l, c);
      ExistingKept(mid.convs, Effect(h, account, k, mid, l).convs, c);
    }
    if c !in s.convs && DeliveredTo(h, account, ls, c) == {} {
      NothingStarted(h, account, s, ls, c);
    }
  }

  lemma EditUnread(a: Conversations, b: Conversations, l: Line, c: string)
    requires c in a && Existing(b, c) == Some(EditConversation(Existing(a, c), l.o))
    ensures c in b && b[c].unread == a[c].unread
  {
    hide Titled, Label;
  }

  /** An edit comes to a conversation that the lines before it deliver to. */
  predicate EditsFollow(h: Hashes, account: string, ls: seq<Line>) {
    forall i :: 0 <= i < |ls| && Edits(ls[i], account) ==>
      DeliveredTo(h, account, ls[..i], ConversationId(ls[i].o)) != {}
  }

  lemma {:induction false} DeliversIn(h: Hashes, account: string, ls: seq<Line>, j: nat, c: string)
    requires j < |ls| && DeliversTo(ls[j], account, c)
    ensures DataId(h, ls[j]) in DeliveredTo(h, account, ls, c)
  {
    hide DataId, Ignored, ConversationId;
    if j < |ls| - 1 {
      DeliversIn(h, account, ls[..|ls| - 1], j, c);
    }
  }

  lemma {:induction false} OrderFollows(h: Hashes, account: string, k: Places, keys: set<string>, ls: seq<Line>)
    requires AllInOrder(h, account, k, keys, ls)
    ensures EditsFollow(h, account, ls)
  {
    hide DataId, Ignored, ConversationId, LineFine, TargetOf, Delivered, DeliveredTo, AddressesMatch, CrowdBefore,
      DataTime;
    forall i | 0 <= i < |ls| && Edits(ls[i], account)
      ensures DeliveredTo(h, account, ls[..i], ConversationId(ls[i].o)) != {}
    {
      assert InOrder(h, account, k, keys, ls, i);
      var j := DeliveredBy(h, account, ls[..i], TargetOf(k, ls[i]));
      assert InOrder(h, account, k, keys, ls, j);
      DeliversIn(h, account, ls[..i], j, ConversationId(ls[i].o));
    }
  }

  /** Main result: unread rises by the number of distinct messages that are new to the store, however
      often the lines repeat them; a conversation the lines create counts from its first message. */
  lemma {:induction false} UnreadCountsNewMessages(h: Hashes, account: string, k: Places, s: State, ls: seq<Line>,
      c: string)
    requires OnePlace(h, account, PlacesOf(s.rows), ls) && EditsFollow(h, account, ls)
    ensures CountsUnread(h, account, s, ls, c, Effects(h, account, k, s, ls))
  {
    hide Effect, Ignored, DataId, ConversationId, OnePlace, PlacesOf, Delivered, DeliveredTo, CountsUnread;
    if ls == [] {
      NothingDelivered(h, account, s, c);
    } else {
      var init, l := ls[..|ls| - 1], ls[|ls| - 1];
      OnePlaceBefore(h, account, PlacesOf(s.rows), ls);
      assert forall i :: 0 <= i < |init| ==> init[i] == ls[i] && init[..i] == ls[..i];
      UnreadCountsNewMessages(h, account, k, s, init, c);
      EffectsKeys(h, account, k, s, init);
      assert ls == init + [l];
      if DeliversTo(l, account, c) {
        NewOnlyOnce(h, account, PlacesOf(s.rows), ls, c);
        UnreadOwn(h, account, k, s, Effects(h, account, k, s, init), init, l, c);
      } else {
        UnreadOther(h, account, k, s, Effects(h, account, k, s, init), init, l, c);
      }
    }
  }

  lemma NothingDelivered(h: Hashes, account: string, s: State, c: string)
    ensures CountsUnread(h, account, s, [], c, s)
  {
    assert {} - s.rows.Keys == {};
  }
}
