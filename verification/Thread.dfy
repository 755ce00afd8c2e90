/** `gmessages thread`: the newest messages of a conversation inside a time window, printed
    oldest first. The rows are fetched newest first, filtered in place, then reversed in place. */
module Thread {
  import opened Text
  import opened Records
  import opened Ordering
  import opened Paging

  /** Zero bounds mean no bound. */
  datatype ThreadOptions = ThreadOptions(sinceMS: int, untilMS: int, limit: int)

  predicate InWindow(m: Message, opts: ThreadOptions) {
    && (opts.sinceMS > 0 ==> m.ts >= opts.sinceMS)
    && (opts.untilMS > 0 ==> m.ts <= opts.untilMS)
  }

  function WindowRows(rows: Table, conv: string, opts: ThreadOptions): (r: set<Message>)
    ensures Keyed(r)
  {
    set m | m in InConversation(rows, conv) && InWindow(m, opts)
  }

  /** The last `limit` elements (all of them when the limit is negative). */
  function Newest(A: seq<Message>, limit: int): (r: seq<Message>)
    ensures |r| == if 0 <= limit < |A| then limit else |A|
  {
    if 0 <= limit < |A| then A[|A| - limit..] else A
  }

  /** The messages at or after the since bound, in order. */
  function Kept(s: seq<Message>, since: int): seq<Message> {
    if s == [] then []
    else Kept(s[..|s| - 1], since) + if s[|s| - 1].ts >= since then [s[|s| - 1]] else []
  }

  predicate SplitsAt(s: seq<Message>, k: nat, since: int)
    requires k <= |s|
  {
    && (forall i :: 0 <= i < k ==> s[i].ts >= since)
    && (forall i :: k <= i < |s| ==> s[i].ts < since)
  }

  lemma SplitUnique(s: seq<Message>, j: nat, k: nat, since: int)
    requires j <= |s| && k <= |s| && SplitsAt(s, j, since) && SplitsAt(s, k, since)
    ensures j == k
  {
    var atJ := if j < |s| then s[j].ts else since;
    var atK := if k < |s| then s[k].ts else since;
  }

  predicate NewestFirst(s: seq<Message>) {
    forall i, j :: 0 <= i < j < |s| ==> s[j].ts <= s[i].ts
  }

  lemma DescendingIsNewestFirst(s: seq<Message>)
    requires Descends(s)
    ensures NewestFirst(s)
  {
    hide Less;
  }

  /** On a newest-first list the filter keeps a prefix. */
  lemma {:induction false} KeptIsPrefix(s: seq<Message>, since: int)
    requires NewestFirst(s)
    ensures Kept(s, since) <= s && SplitsAt(s, |Kept(s, since)|, since)
  {
    if s != [] {
      var init, last := s[..|s| - 1], s[|s| - 1];
      KeptIsPrefix(init, since);
      if last.ts >= since {
        SplitUnique(init, |Kept(init, since)|, |init|, since);
      }
    }
  }

  lemma {:induction false} KeptMembers(s: seq<Message>, since: int, m: Message)
    ensures m in Kept(s, since) <==> m in s && m.ts >= since
  {
    if s != [] {
      KeptMembers(s[..|s| - 1], since, m);
      assert s == s[..|s| - 1] + [s[|s| - 1]];
    }
  }

  /** Filtering a descending list commutes with taking its newest rows. */
  lemma FilterCommutesWithLimit(s: seq<Message>, since: int, limit: int)
    requires Descends(s)
    ensures Kept(Limit(s, limit), since) == Limit(Kept(s, since), limit)
  {
    hide Before;
    var t := Limit(s, limit);
    DescendingIsNewestFirst(s);
    KeptIsPrefix(s, since);
    KeptIsPrefix(t, since);
    var k := |Kept(s, since)|;
    SplitUnique(t, |Kept(t, since)|, if k < |t| then k else |t|, since);
  }

  lemma KeptOfWindow(rows: Table, conv: string, opts: ThreadOptions)
    requires opts.sinceMS > 0
    ensures Kept(Descending(WindowRows(rows, conv, opts.(sinceMS := 0))), opts.sinceMS)
         == Descending(WindowRows(rows, conv, opts))
  {
    hide Before, Descending, Kept, Descends, Limit;
    var D := Descending(WindowRows(rows, conv, opts.(sinceMS := 0)));
    var K := Kept(D, opts.sinceMS);
    forall m ensures m in K <==> m in WindowRows(rows, conv, opts) {
      KeptMembers(D, opts.sinceMS, m);
    }
    DescendingIsNewestFirst(D);
    KeptIsPrefix(D, opts.sinceMS);
    assert K == D[..|K|];
    PrefixDescends(D, |K|);
    DescendingIs(WindowRows(rows, conv, opts), K);
  }

  lemma PrefixDescends(s: seq<Message>, k: nat)
    requires Descends(s) && k <= |s|
    ensures Descends(s[..k])
  {
  }

  lemma {:induction false} ReversedPrefixIsNewest(S: set<Message>, limit: int)
    requires Keyed(S)
    ensures Reversed(Limit(Descending(S), limit)) == Newest(Ascending(S), limit)
  {
    hide Before, Ascends, Descends, Lists, Ascending;
  }

  /** The rows the source fetches before filtering. */
  function Fetched(rows: Table, conv: string, opts: ThreadOptions): seq<Message> {
    if opts.untilMS > 0
    then GetMessagesByConversationBefore(rows, conv, opts.untilMS + 1, "", opts.limit)
    else GetMessagesByConversation(rows, conv, opts.limit)
  }

  lemma {:induction false} FetchedIsWindow(rows: Table, conv: string, opts: ThreadOptions)
    ensures Fetched(rows, conv, opts) == Limit(Descending(WindowRows(rows, conv, opts.(sinceMS := 0))), opts.limit)
  {
    hide Descending;
    var S := InConversation(rows, conv);
    if opts.untilMS > 0 {
      assert EarlierThan(S, opts.untilMS + 1, "") == WindowRows(rows, conv, opts.(sinceMS := 0));
    } else {
      assert S == WindowRows(rows, conv, opts.(sinceMS := 0));
    }
  }

  /** Main result: filtering the fetched rows and reversing them gives exactly the newest
      `limit` rows of the window, oldest first. */
  lemma {:induction false} ThreadIsNewestOfWindow(rows: Table, conv: string, opts: ThreadOptions)
    ensures var kept := if opts.sinceMS > 0
      then Kept(Fetched(rows, conv, opts), opts.sinceMS) else Fetched(rows, conv, opts);
      Reversed(kept) == Newest(Ascending(WindowRows(rows, conv, opts)), opts.limit)
  {
    hide Before, Kept, Limit, Descends, Ascends, Lists, Descending, Ascending, Fetched, Reversed, Newest;
    FetchedIsWindow(rows, conv, opts);
    var D := Descending(WindowRows(rows, conv, opts.(sinceMS := 0)));
    if opts.sinceMS > 0 {
      FilterCommutesWithLimit(D, opts.sinceMS, opts.limit);
      KeptOfWindow(rows, conv, opts);
    } else {
      assert WindowRows(rows, conv, opts.(sinceMS := 0)) == WindowRows(rows, conv, opts);
    }
    ReversedPrefixIsNewest(WindowRows(rows, conv, opts), opts.limit);
  }

  /** The conversation's messages newer than `m` and within the upper bound. */
  function NewerIds(rows: Table, conv: string, opts: ThreadOptions, m: Message): set<string> {
    set id | id in rows && rows[id].conv == conv && (opts.untilMS > 0 ==> rows[id].ts <= opts.untilMS)
             && (rows[id].ts > m.ts || (rows[id].ts == m.ts && Less(m.id, id)))
  }

  /** `m` belongs on the printed thread: a message of the conversation, inside the bounds, with
      fewer than `limit` newer ones. */
  predicate OnThread(rows: Table, conv: string, opts: ThreadOptions, m: Message) {
    && m.id in rows && rows[m.id] == m && m.conv == conv
    && (opts.sinceMS > 0 ==> m.ts >= opts.sinceMS) && (opts.untilMS > 0 ==> m.ts <= opts.untilMS)
    && (opts.limit >= 0 ==> |NewerIds(rows, conv, opts, m)| < opts.limit)
  }

  lemma {:induction false} FollowersAreNewer(rows: Table, conv: string, opts: ThreadOptions, m: Message)
    requires m in WindowRows(rows, conv, opts)
    ensures |Followers(WindowRows(rows, conv, opts), m)| == |NewerIds(rows, conv, opts, m)|
  {
    hide Less;
    var ids := NewerIds(rows, conv, opts, m);
    ImageSize(rows, ids);
    var image := set id | id in ids :: rows[id];
    forall x ensures x in image <==> x in Followers(WindowRows(rows, conv, opts), m) {
      if x in Followers(WindowRows(rows, conv, opts), m) {
        assert x.id in ids;
      }
    }
    assert image == Followers(WindowRows(rows, conv, opts), m);
  }

  /** Main result: the thread holds exactly the messages that belong on it, oldest first. */
  lemma {:induction false} ThreadExactly(rows: Table, conv: string, opts: ThreadOptions)
    ensures var r := Newest(Ascending(WindowRows(rows, conv, opts)), opts.limit);
      && (forall m :: m in r <==> OnThread(rows, conv, opts, m))
      && forall i, j :: 0 <= i < j < |r| ==> r[i].ts < r[j].ts || (r[i].ts == r[j].ts && Less(r[i].id, r[j].id))
  {
    hide Less, Descending, Ascending, NewerIds, Followers, Limit, Reversed;
    var S := WindowRows(rows, conv, opts);
    var D := Limit(Descending(S), opts.limit);
    ReversedPrefixIsNewest(S, opts.limit);
    assert Descends(D);
    ReversedLists(D, set m | m in D);
    forall m ensures m in D <==> OnThread(rows, conv, opts, m) {
      if m in S {
        FollowersAreNewer(rows, conv, opts, m);
        if opts.limit >= 0 { FirstDescending(S, m, opts.limit); }
      }
      assert m in D ==> m in S;
    }
    assert Lists(Reversed(D), set m | m in D);
  }

  /** `kept := msgs[:0]`, then append: compacts the slice in its own backing array. */
  method FilterSince(msgs: array<Message>, since: int) returns (n: nat)
    modifies msgs
    ensures n <= msgs.Length && msgs[..n] == Kept(old(msgs[..]), since)
  {
    n := 0;
    var i := 0;
    while i < msgs.Length
      invariant n <= i <= msgs.Length
      invariant msgs[..n] == Kept(old(msgs[..])[..i], since)
      invariant forall k :: i <= k < msgs.Length ==> msgs[k] == old(msgs[k])
    {
      ghost var was := old(msgs[..]);
      assert was[..i + 1][..i] == was[..i];
      if msgs[i].ts >= since {
        msgs[n] := msgs[i];
        n := n + 1;
      }
      i := i + 1;
    }
    assert old(msgs[..])[..i] == old(msgs[..]);
  }

  /** Flips the first `n` elements in place. */
  method ReverseMessages(msgs: array<Message>, n: nat)
    requires n <= msgs.Length
    modifies msgs
    ensures msgs[..n] == Reversed(old(msgs[..n]))
    ensures msgs[n..] == old(msgs[n..])
  {
    var i, j := 0, n - 1;
    while i < j
      invariant 0 <= i <= n && i + j == n - 1
      invariant forall k :: 0 <= k < i || j < k < n ==> msgs[k] == old(msgs[n - 1 - k])
      invariant forall k :: i <= k <= j || n <= k < msgs.Length ==> msgs[k] == old(msgs[k])
    {
      msgs[i], msgs[j] := msgs[j], msgs[i];
      i, j := i + 1, j - 1;
    }
    ReversedIs(old(msgs[..n]), msgs[..n]);
  }

  method LoadConversationMessages(rows: Table, conv: string, opts: ThreadOptions)
    returns (msgs: array<Message>, n: nat)
    ensures fresh(msgs) && n <= msgs.Length
    ensures msgs[..n] == Newest(Ascending(WindowRows(rows, conv, opts)), opts.limit)
  {
    hide *;
    var fetched := Fetched(rows, conv, opts);
    msgs := new Message[|fetched|](i requires 0 <= i < |fetched| => fetched[i]);
    assert msgs[..] == fetched;
    n := msgs.Length;
    if opts.sinceMS > 0 {
      n := FilterSince(msgs, opts.sinceMS);
    } else {
      assert msgs[..n] == fetched;
    }
    ThreadIsNewestOfWindow(rows, conv, opts);
    ReverseMessages(msgs, n);
  }
}
