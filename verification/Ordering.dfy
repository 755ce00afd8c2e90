/** `ORDER BY timestamp_ms, message_id` with `LIMIT`, over a set of rows. */
module Ordering {
  import opened Text
  import opened Records

  /** The (timestamp, id) order. */
  predicate Before(a: Message, b: Message) {
    a.ts < b.ts || (a.ts == b.ts && Less(a.id, b.id))
  }

  lemma BeforeTrans(a: Message, b: Message, c: Message)
    requires Before(a, b) && Before(b, c)
    ensures Before(a, c)
  {
    if a.ts == b.ts == c.ts {
      LessTrans(a.id, b.id, c.id);
    }
  }

  lemma BeforeAsym(a: Message, b: Message)
    requires Before(a, b)
    ensures !Before(b, a) && a != b
  {
    if a.ts == b.ts {
      LessAsym(a.id, b.id);
    }
  }

  lemma BeforeTotal(a: Message, b: Message)
    ensures a.id == b.id || Before(a, b) || Before(b, a)
  {
    LessTotal(a.id, b.id);
  }

  /** Rows of one table: the id is a key. */
  predicate Keyed(S: set<Message>) {
    forall a, b :: a in S && b in S && a.id == b.id ==> a == b
  }

  ghost predicate Ascends(s: seq<Message>) {
    forall i, j :: 0 <= i < j < |s| ==> Before(s[i], s[j])
  }

  ghost predicate Descends(s: seq<Message>) {
    forall i, j :: 0 <= i < j < |s| ==> Before(s[j], s[i])
  }

  /** `s` lists exactly the rows of `S`. */
  ghost predicate Lists(s: seq<Message>, S: set<Message>) {
    forall m :: m in s <==> m in S
  }

  predicate IsLeast(m: Message, S: set<Message>) {
    m in S && forall x :: x in S && x != m ==> Before(m, x)
  }

  lemma {:induction false} LeastExists(S: set<Message>)
    requires S != {} && Keyed(S)
    ensures exists m :: IsLeast(m, S)
  {
    var x :| x in S;
    if S == {x} {
      assert IsLeast(x, S);
    } else {
      LeastExists(S - {x});
      var y :| IsLeast(y, S - {x});
      BeforeTotal(x, y);
      if Before(x, y) {
        forall z | z in S && z != x ensures Before(x, z) {
          if z != y { BeforeTrans(x, y, z); }
        }
        assert IsLeast(x, S);
      } else {
        assert IsLeast(y, S);
      }
    }
  }

  lemma LeastUnique(S: set<Message>)
    ensures forall a, b :: IsLeast(a, S) && IsLeast(b, S) ==> a == b
  {
    forall a, b | IsLeast(a, S) && IsLeast(b, S) ensures a == b {
      if a != b { BeforeAsym(a, b); }
    }
  }

  function Least(S: set<Message>): (m: Message)
    requires S != {} && Keyed(S)
    ensures IsLeast(m, S)
  {
    LeastExists(S);
    LeastUnique(S);
    var m :| IsLeast(m, S); m
  }

  /** The rows in ascending (timestamp, id) order. */
  function Ascending(S: set<Message>): (r: seq<Message>)
    requires Keyed(S)
    ensures |r| == |S| && Lists(r, S) && Ascends(r)
    decreases |S|
  {
    if S == {} then [] else
      var m := Least(S);
      [m] + Ascending(S - {m})
  }

  function Reversed(s: seq<Message>): (r: seq<Message>)
    ensures |r| == |s|
  {
    seq(|s|, i requires 0 <= i < |s| => s[|s| - 1 - i])
  }

  lemma ReversedIs(s: seq<Message>, r: seq<Message>)
    requires |r| == |s| && forall i :: 0 <= i < |s| ==> r[i] == s[|s| - 1 - i]
    ensures r == Reversed(s)
  {
  }

  lemma ReversedLists(s: seq<Message>, S: set<Message>)
    ensures Lists(s, S) ==> Lists(Reversed(s), S)
    ensures Ascends(s) ==> Descends(Reversed(s))
    ensures Descends(s) ==> Ascends(Reversed(s))
    ensures Reversed(Reversed(s)) == s
  {
    hide Before;
    var r := Reversed(s);
    forall m ensures m in s <==> m in r {
      if m in s {
        var i :| 0 <= i < |s| && s[i] == m;
        assert r[|s| - 1 - i] == m;
      }
    }
  }

  function Descending(S: set<Message>): (r: seq<Message>)
    requires Keyed(S)
    ensures |r| == |S| && Lists(r, S) && Descends(r)
  {
    ReversedLists(Ascending(S), S);
    Reversed(Ascending(S))
  }

  /** LIMIT: a negative limit is no limit. */
  function Limit(s: seq<Message>, n: int): (r: seq<Message>)
    ensures r <= s
    ensures n < 0 || |s| <= n ==> r == s
    ensures 0 <= n < |s| ==> |r| == n
  {
    if 0 <= n < |s| then s[..n] else s
  }

  lemma TailLists(s: seq<Message>, S: set<Message>)
    requires Ascends(s) && s != [] && Lists(s, S)
    ensures Lists(s[1..], S - {s[0]}) && Ascends(s[1..])
  {
    hide Less;
    forall x | x in s[1..] ensures x != s[0] {
      BeforeAsym(s[0], x);
    }
    assert forall x :: x in s ==> x == s[0] || x in s[1..];
  }

  /** A sorted listing of a set of rows is unique. */
  lemma {:induction false} AscendsUnique(s: seq<Message>, t: seq<Message>, S: set<Message>)
    requires Ascends(s) && Ascends(t) && Lists(s, S) && Lists(t, S)
    ensures s == t
  {
    hide Less;
    assert forall i :: 0 <= i < |s| ==> s[i] in S;
    assert forall i :: 0 <= i < |t| ==> t[i] in S;
    if s != [] && t != [] {
      if s[0] != t[0] {
        assert t[0] in s && s[0] in t;
        BeforeAsym(s[0], t[0]);
      }
      TailLists(s, S);
      TailLists(t, S);
      AscendsUnique(s[1..], t[1..], S - {s[0]});
      assert s == [s[0]] + s[1..] && t == [t[0]] + t[1..];
    }
  }

  lemma AscendingIs(S: set<Message>, s: seq<Message>)
    requires Keyed(S) && Ascends(s) && Lists(s, S)
    ensures Ascending(S) == s
  {
    hide Ascends, Lists, Ascending;
    AscendsUnique(Ascending(S), s, S);
  }

  lemma DescendingIs(S: set<Message>, s: seq<Message>)
    requires Keyed(S) && Descends(s) && Lists(s, S)
    ensures Descending(S) == s
  {
    hide Ascends, Descends, Lists, Ascending, Reversed;
    ReversedLists(s, S);
    AscendsUnique(Ascending(S), Reversed(s), S);
  }

  /** `SELECT ... WHERE conversation_id = ?`. */
  function InConversation(rows: Table, conv: string): (S: set<Message>)
    ensures Keyed(S)
    ensures forall m :: m in S <==> m.id in rows && rows[m.id] == m && m.conv == conv
  {
    set id | id in rows && rows[id].conv == conv :: rows[id]
  }

  function Predecessors(S: set<Message>, m: Message): set<Message> {
    set x | x in S && Before(x, m)
  }

  function Listed(s: seq<Message>, n: nat): (S: set<Message>)
    requires n <= |s|
    ensures forall m :: m in S <==> exists i :: 0 <= i < n && s[i] == m
  {
    set i | 0 <= i < n :: s[i]
  }

  lemma ListedNext(s: seq<Message>, n: nat)
    requires n < |s| && Ascends(s)
    ensures Listed(s, n + 1) == Listed(s, n) + {s[n]} && s[n] !in Listed(s, n)
  {
    hide Before;
    forall i | 0 <= i < n ensures s[i] != s[n] {
      BeforeAsym(s[i], s[n]);
    }
  }

  lemma {:induction false} ListedSize(s: seq<Message>, n: nat)
    requires n <= |s| && Ascends(s)
    ensures |Listed(s, n)| == n
  {
    hide Ascends, Listed;
    if n == 0 {
      ListedNone(s);
    } else {
      ListedSize(s, n - 1);
      ListedNext(s, n - 1);
    }
  }

  lemma ListedNone(s: seq<Message>)
    ensures Listed(s, 0) == {}
  {
  }

  /** A row is within the first `n` of a listing exactly when fewer than `n` rows precede it. */
  lemma {:induction false} FirstExactly(S: set<Message>, m: Message, n: nat)
    requires Keyed(S) && m in S
    ensures m in Limit(Ascending(S), n) <==> |Predecessors(S, m)| < n
  {
    hide Less, Ascending, Keyed;
    var s := Ascending(S);
    assert m in s;
    var i :| 0 <= i < |s| && s[i] == m;
    forall x ensures x in Predecessors(S, m) <==> x in Listed(s, i) {
      if x in S {
        var j :| 0 <= j < |s| && s[j] == x;
        if j > i { BeforeAsym(m, x); }
        if j == i { BeforeAsymSelf(m); }
      }
    }
    assert Predecessors(S, m) == Listed(s, i);
    ListedSize(s, i);
    forall j | 0 <= j < |s| && s[j] == m ensures j == i {
      if j < i { BeforeAsym(s[j], s[i]); } else if i < j { BeforeAsym(s[i], s[j]); }
    }
  }

  lemma BeforeAsymSelf(m: Message)
    ensures !Before(m, m)
  {
    LessIrreflexive(m.id);
  }

  /** As many rows as ids. */
  lemma {:induction false} ImageSize(rows: Table, ids: set<string>)
    requires ids <= rows.Keys
    ensures |set id | id in ids :: rows[id]| == |ids|
  {
    if ids == {} {
      assert (set id | id in ids :: rows[id]) == {};
    } else {
      var x :| x in ids;
      ImageSize(rows, ids - {x});
      var less := set id | id in ids - {x} :: rows[id];
      assert rows[x] !in less;
      assert (set id | id in ids :: rows[id]) == less + {rows[x]};
    }
  }

  function Followers(S: set<Message>, m: Message): set<Message> {
    set x | x in S && Before(m, x)
  }

  lemma DescendsNext(s: seq<Message>, n: nat)
    requires n < |s| && Descends(s)
    ensures Listed(s, n + 1) == Listed(s, n) + {s[n]} && s[n] !in Listed(s, n)
  {
    hide Before;
    forall i | 0 <= i < n ensures s[i] != s[n] {
      BeforeAsym(s[n], s[i]);
    }
  }

  lemma {:induction false} DescendingSize(s: seq<Message>, n: nat)
    requires n <= |s| && Descends(s)
    ensures |Listed(s, n)| == n
  {
    hide Descends, Listed;
    if n == 0 {
      ListedNone(s);
    } else {
      DescendingSize(s, n - 1);
      DescendsNext(s, n - 1);
    }
  }

  /** A row is within the first `n` of a listing newest first exactly when fewer than `n` rows are
      newer. */
  lemma {:induction false} FirstDescending(S: set<Message>, m: Message, n: nat)
    requires Keyed(S) && m in S
    ensures m in Limit(Descending(S), n) <==> |Followers(S, m)| < n
  {
    hide Less, Descending, Keyed;
    var s := Descending(S);
    assert m in s;
    var i :| 0 <= i < |s| && s[i] == m;
    forall x ensures x in Followers(S, m) <==> x in Listed(s, i) {
      if x in S {
        var j :| 0 <= j < |s| && s[j] == x;
        if j > i { BeforeAsym(x, m); }
        if j == i { BeforeAsymSelf(m); }
      }
    }
    assert Followers(S, m) == Listed(s, i);
    DescendingSize(s, i);
    forall j | 0 <= j < |s| && s[j] == m ensures j == i {
      if j < i { BeforeAsym(s[i], s[j]); } else if i < j { BeforeAsym(s[j], s[i]); }
    }
  }
}
