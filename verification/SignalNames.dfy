/** Sender names: a message of an unnamed sender is stored under its conversation's name, which the
    lines of a batch can change. */
module SignalNames {
  import opened Text
  import opened Records
  import opened Upsert
  import opened SignalReactions
  import opened SignalStore
  import opened SignalBatch
  import opened SignalReplay

  function SenderOf(rows: Table, id: string): string {
    if id in rows then rows[id].senderName else ""
  }

  function NameIn(convs: Conversations, c: string): Option<string> {
    if c in convs then Some(convs[c].name) else None
  }

  /** What the lines leave of a conversation's name. */
  function NameRun(account: string, start: Option<string>, ls: seq<Line>, c: string): Option<string> {
    if ls == [] then start else
      var l, name := ls[|ls| - 1], NameRun(account, start, ls[..|ls| - 1], c);
      if Belongs(l, account, c) then Some(Titled(l.o, if name.None? then Label(l.o) else name.value)) else name
  }

  /** The name under which the last of the lines stores its message. */
  function Given(account: string, start: Option<string>, ls: seq<Line>, c: string): string
    requires ls != [] && ls[|ls| - 1].Data?
  {
    var name := NameRun(account, start, ls, c);
    NameOf(ls[|ls| - 1], if name.None? then "" else name.value)
  }

  predicate Delivers(h: Hashes, account: string, l: Line, c: string, id: string) {
    DeliversTo(l, account, c) && DataId(h, l) == id
  }

  /** The last name, not empty, that the lines give the message. */
  function Named(h: Hashes, account: string, start: Option<string>, ls: seq<Line>, c: string, id: string): string {
    if ls == [] then "" else
      var before := Named(h, account, start, ls[..|ls| - 1], c, id);
      if Delivers(h, account, ls[|ls| - 1], c, id) then Keep(Given(account, start, ls, c), before) else before
  }

  /** The message's sender name after the lines. */
  function SenderRun(h: Hashes, account: string, s: State, ls: seq<Line>, c: string, id: string): string {
    Keep(Named(h, account, NameIn(s.convs, c), ls, c, id), SenderOf(s.rows, id))
  }

  /** The last line that delivers the id, or -1. */
  function LastIndex(h: Hashes, account: string, ls: seq<Line>, id: string): (j: int)
    ensures -1 <= j < |ls|
    ensures j >= 0 ==> Live(ls[j], account) && DataId(h, ls[j]) == id
  {
    if ls == [] then -1
    else if Live(ls[|ls| - 1], account) && DataId(h, ls[|ls| - 1]) == id then |ls| - 1
    else LastIndex(h, account, ls[..|ls| - 1], id)
  }

  /** All deliveries of the id are to the one conversation. */
  predicate OnlyIn(h: Hashes, account: string, ls: seq<Line>, c: string, id: string) {
    forall i :: 0 <= i < |ls| && Live(ls[i], account) && DataId(h, ls[i]) == id ==> DeliversTo(ls[i], account, c)
  }

  // ----- The store follows -----

  lemma {:induction false} EffectsName(h: Hashes, account: string, k: Places, s: State, ls: seq<Line>, c: string)
    ensures NameIn(Effects(h, account, k, s, ls).convs, c) == NameRun(account, NameIn(s.convs, c), ls, c)
  {
    hide Effect, Ignored, DataTime, DataId, ConversationId, Titled, Label;
    if ls != [] {
      var init, l := ls[..|ls| - 1], ls[|ls| - 1];
      EffectsName(h, account, k, s, init, c);
      var mid := Effects(h, account, k, s, init);
      if Belongs(l, account, c) {
        OwnConversation(h, account, k, mid, l, c);
      } else {
        OtherConversation(h, account, k, mid, l, c);
      }
    }
  }

  lemma EffectSender(h: Hashes, account: string, k: Places, s: State, l: Line, c: string, id: string)
    requires Live(l, account) && DataId(h, l) == id ==> DeliversTo(l, account, c)
    ensures SenderOf(Effect(h, account, k, s, l).rows, id) ==
      if !Delivers(h, account, l, c, id) then SenderOf(s.rows, id)
      else
        var name := NameIn(Effect(h, account, k, s, l).convs, c);
        Keep(NameOf(l, if name.None? then "" else name.value), SenderOf(s.rows, id))
  {
    hide Ignored, DataRow, DataConversation, EditConversation, Updated, TargetOf, ConversationId, DataTime, DataId,
      Merge,
      EditedRow, NameOf;
    if Edits(l, account) && TargetOf(k, l) in s.rows {
      EditLeaves(s.rows[TargetOf(k, l)], l.c);
    }
    if Live(l, account) {
      var v := DataConversation(Existing(s.convs, ConversationId(l.o)), l.o, DataTime(l), DataId(h, l) !in s.rows);
      var m := DataRow(h, l, v.name);
      BareRow(h, l, v.name);
      if m.id in s.rows {
        BareMerge(s.rows[m.id], m, m.(senderName := "", reactions := []));
      }
    }
  }

  lemma {:induction false} EffectsSender(h: Hashes, account: string, k: Places, s: State, ls: seq<Line>, c: string,
        id: string)
    requires OnlyIn(h, account, ls, c, id)
    ensures SenderOf(Effects(h, account, k, s, ls).rows, id) == SenderRun(h, account, s, ls, c, id)
  {
    hide Effect, SenderOf, NameOf, NameIn, NameRun, Ignored, DataId, ConversationId;
    if ls != [] {
      var init, l := ls[..|ls| - 1], ls[|ls| - 1];
      assert forall i :: 0 <= i < |init| ==> init[i] == ls[i];
      EffectsSender(h, account, k, s, init, c, id);
      EffectSender(h, account, k, Effects(h, account, k, s, init), l, c, id);
      EffectsName(h, account, k, s, ls, c);
    }
  }

  // ----- Titles -----

  lemma {:induction false} TitleConcat(account: string, a: seq<Line>, b: seq<Line>, c: string)
    ensures LastTitle(account, a + b, c) ==
      if LastTitle(account, b, c) != "" then LastTitle(account, b, c) else LastTitle(account, a, c)
  {
    hide Belongs;
    if b == [] {
      assert a + b == a;
    } else {
      TitleConcat(account, a, b[..|b| - 1], c);
      assert (a + b)[..|a + b| - 1] == a + b[..|b| - 1];
    }
  }

  lemma NoTitleBefore(account: string, ls: seq<Line>, n: nat, c: string)
    requires n <= |ls| && LastTitle(account, ls, c) == ""
    ensures LastTitle(account, ls[..n], c) == ""
  {
    hide LastTitle;
    assert ls == ls[..n] + ls[n..];
    TitleConcat(account, ls[..n], ls[n..], c);
  }

  lemma {:induction false} TitleTrimmed(account: string, ls: seq<Line>, c: string)
    ensures Trimmed(LastTitle(account, ls, c))
  {
    hide Belongs;
    if ls != [] {
      TitleTrimmed(account, ls[..|ls| - 1], c);
    }
  }

  lemma {:induction false} NameRunConcat(account: string, start: Option<string>, a: seq<Line>, b: seq<Line>, c: string)
    ensures NameRun(account, start, a + b, c) == NameRun(account, NameRun(account, start, a, c), b, c)
  {
    hide Belongs, Titled;
    if b == [] {
      assert a + b == a;
    } else {
      NameRunConcat(account, start, a, b[..|b| - 1], c);
      assert (a + b)[..|a + b| - 1] == a + b[..|b| - 1];
    }
  }

  /** A line to the conversation leaves it named; a title is its name from then on. */
  lemma {:induction false} NameRunTitled(account: string, start: Option<string>, ls: seq<Line>, c: string)
    ensures var name := NameRun(account, start, ls, c);
      && (LastTitle(account, ls, c) != "" ==> name == Some(LastTitle(account, ls, c)))
      && (name == start || (name.Some? && name.value != ""))
      && (ls != [] && Belongs(ls[|ls| - 1], account, c) ==> name.Some? && name.value != "")
  {
    hide Ignored, Titled, Label, ConversationId;
    if ls != [] {
      var l, before := ls[|ls| - 1], NameRun(account, start, ls[..|ls| - 1], c);
      NameRunTitled(account, start, ls[..|ls| - 1], c);
      if Belongs(l, account, c) {
        NamedLine(l, account, if before.None? then Label(l.o) else before.value);
      }
    }
  }

  /** Without a title, a name stays. */
  lemma {:induction false} NameRunKept(account: string, name: string, ls: seq<Line>, c: string)
    requires name != "" && LastTitle(account, ls, c) == ""
    ensures NameRun(account, Some(name), ls, c) == Some(name)
  {
    hide Ignored, Titled, Label, ConversationId;
    if ls != [] {
      NameRunKept(account, name, ls[..|ls| - 1], c);
      if Belongs(ls[|ls| - 1], account, c) {
        NamedLine(ls[|ls| - 1], account, name);
      }
    }
  }

  /** Running lines again finds the same name, as long as no title was or is seen. */
  lemma {:induction false} NameRunAgain(account: string, start: Option<string>, ls: seq<Line>, m: nat, n: nat,
        c: string)
    requires m <= |ls| && 0 < n <= |ls| && Belongs(ls[n - 1], account, c)
    requires LastTitle(account, ls[..m], c) == "" && LastTitle(account, ls[..n], c) == ""
    ensures NameRun(account, NameRun(account, start, ls[..m], c), ls[..n], c) == NameRun(account, start, ls[..n], c)
  {
    hide NameRun, LastTitle, Belongs;
    var name := NameRun(account, start, ls[..m], c);
    NameRunTitled(account, start, ls[..m], c);
    NameRunTitled(account, start, ls[..n], c);
    if m <= n {
      assert ls[..n] == ls[..m] + ls[m..n];
      NameRunConcat(account, start, ls[..m], ls[m..n], c);
      TitleConcat(account, ls[..m], ls[m..n], c);
      if name != start {
        NameRunKept(account, name.value, ls[m..n], c);
        NameRunKept(account, name.value, ls[..n], c);
      }
    } else {
      var first := NameRun(account, start, ls[..n], c);
      assert ls[..m] == ls[..n] + ls[n..m];
      NameRunConcat(account, start, ls[..n], ls[n..m], c);
      TitleConcat(account, ls[..n], ls[n..m], c);
      NameRunKept(account, first.value, ls[n..m], c);
      NameRunKept(account, first.value, ls[..n], c);
    }
  }

  // ----- Sender names once and again -----

  lemma LabelStands(l: Line, name: string)
    requires l.Data?
    ensures Label(l.o) != "" ==> NameOf(l, name) == Label(l.o)
    ensures Label(l.o) == "" ==> NameOf(l, name) == TrimSpace(name)
  {
    hide TrimSpace;
    assert TrimSpace(Label(l.o)) == Label(l.o);
    assert TrimSpace(TrimSpace(name)) == TrimSpace(name);
    assert TrimSpace(l.o.source) == l.o.source;
  }

  /** Nothing after the last delivery names the message. */
  lemma {:induction false} NamedUpTo(h: Hashes, account: string, start: Option<string>, ls: seq<Line>, c: string,
        id: string)
    ensures var j := LastIndex(h, account, ls, id);
      Named(h, account, start, ls, c, id) == Named(h, account, start, ls[..j + 1], c, id)
  {
    hide Ignored, DataId, ConversationId, Given;
    var j := LastIndex(h, account, ls, id);
    if j == |ls| - 1 {
      assert ls[..j + 1] == ls;
    } else {
      NamedUpTo(h, account, start, ls[..|ls| - 1], c, id);
      assert ls[..|ls| - 1][..j + 1] == ls[..j + 1];
    }
  }

  /** The lines give the same names from either start. */
  predicate SameGiven(h: Hashes, account: string, a: Option<string>, b: Option<string>, ls: seq<Line>, c: string,
      id: string, n: nat)
    requires n < |ls|
  {
    Delivers(h, account, ls[n], c, id) ==> NameRun(account, a, ls[..n + 1], c) == NameRun(account, b, ls[..n + 1], c)
  }

  lemma {:induction false} NamedAgree(h: Hashes, account: string, a: Option<string>, b: Option<string>, ls: seq<Line>,
        c: string, id: string)
    requires forall n :: 0 <= n < |ls| ==> SameGiven(h, account, a, b, ls, c, id, n)
    ensures Named(h, account, a, ls, c, id) == Named(h, account, b, ls, c, id)
  {
    hide Delivers, NameRun, NameOf;
    if ls != [] {
      var init := ls[..|ls| - 1];
      forall n | 0 <= n < |init| ensures SameGiven(h, account, a, b, init, c, id, n) {
        assert SameGiven(h, account, a, b, ls, c, id, n);
        assert init[..n + 1] == ls[..n + 1] && init[n] == ls[n];
      }
      NamedAgree(h, account, a, b, init, c, id);
      assert SameGiven(h, account, a, b, ls, c, id, |ls| - 1);
      assert ls[..|ls|] == ls;
      if Delivers(h, account, ls[|ls| - 1], c, id) {
        assert Given(account, a, ls, c)
          == Given(account, b, ls, c) by { DeliversData(h, account, ls[|ls| - 1], c, id); }
      }
    }
  }

  lemma DeliversData(h: Hashes, account: string, l: Line, c: string, id: string)
    requires Delivers(h, account, l, c, id)
    ensures l.Data? && DeliversTo(l, account, c)
  {
  }

  lemma {:induction false} NamedGrows(h: Hashes, account: string, start: Option<string>, ls: seq<Line>, n: nat,
        c: string, id: string)
    requires n <= |ls| && Named(h, account, start, ls[..n], c, id) != ""
    ensures Named(h, account, start, ls, c, id) != ""
    decreases |ls|
  {
    hide Delivers, Given;
    if n == |ls| {
      assert ls[..n] == ls;
    } else {
      assert ls[..|ls| - 1][..n] == ls[..n];
      NamedGrows(h, account, start, ls[..|ls| - 1], n, c, id);
    }
  }

  /** A title comes after the unnamed last delivery, and before line `m`. */
  predicate TitleIntrudes(account: string, ls: seq<Line>, j: nat, m: nat, c: string)
    requires j < |ls| && m <= |ls| && ls[j].Data?
  {
    Label(ls[j].o) == "" && LastTitle(account, ls[..j + 1], c) == "" && LastTitle(account, ls[..m], c) != ""
  }

  /** The name at the last delivery, when the conversation starts as a pass over `m` lines left it. */
  lemma {:induction false} GivenAgain(account: string, start: Option<string>, ls: seq<Line>, j: nat, m: nat, c: string)
    requires j < |ls| && m <= |ls| && DeliversTo(ls[j], account, c)
    ensures var again := Given(account, NameRun(account, start, ls[..m], c), ls[..j + 1], c);
      var once := Given(account, start, ls[..j + 1], c);
      if TitleIntrudes(account, ls, j, m, c) then again == LastTitle(account, ls[..m], c)
      else
        && again == once
        && (again == "" ==> LastTitle(account, ls[..m], c) == "" && LastTitle(account, ls[..j + 1], c) == "")
  {
    hide NameRun, LastTitle, Ignored, NameOf, ConversationId, TrimSpace, Label;
    var q := ls[..j + 1];
    var name := NameRun(account, start, ls[..m], c);
    assert q[|q| - 1] == ls[j];
    NameRunTitled(account, start, q, c);
    NameRunTitled(account, name, q, c);
    LabelStands(ls[j], NameRun(account, start, q, c).value);
    LabelStands(ls[j], NameRun(account, name, q, c).value);
    if LastTitle(account, q, c) != "" {
      TitleTrimmed(account, q, c);
    } else if LastTitle(account, ls[..m], c) == "" {
      NameRunAgain(account, start, ls, m, j + 1, c);
    } else {
      NameRunTitled(account, start, ls[..m], c);
      NameRunKept(account, name.value, q, c);
      TitleTrimmed(account, ls[..m], c);
    }
  }

  lemma NamedLast(h: Hashes, account: string, start: Option<string>, ls: seq<Line>, c: string, id: string)
    requires ls != [] && Delivers(h, account, ls[|ls| - 1], c, id)
    ensures Given(account, start, ls, c) != "" ==> Named(h, account, start, ls, c, id) == Given(account, start, ls, c)
  {
    hide Given, Ignored, DataId, ConversationId;
  }

  /** Without a title in the first `m` lines, every name is found again. */
  lemma {:induction false} NamedAgain(h: Hashes, account: string, start: Option<string>, ls: seq<Line>, j: nat, m: nat,
        c: string, id: string)
    requires j < |ls| && m <= |ls| && LastTitle(account, ls[..m], c) == "" && LastTitle(account, ls[..j + 1], c) == ""
    ensures Named(h, account, NameRun(account, start, ls[..m], c), ls[..j + 1], c, id)
      == Named(h, account, start, ls[..j + 1], c, id)
  {
    hide NameRun, LastTitle, Ignored, ConversationId, Named, DataId;
    var q := ls[..j + 1];
    var name := NameRun(account, start, ls[..m], c);
    forall n | 0 <= n < |q| ensures SameGiven(h, account, name, start, q, c, id, n) {
      assert q[..n + 1] == ls[..n + 1] && q[n] == ls[n];
      if Delivers(h, account, q[n], c, id) {
        NoTitleBefore(account, q, n + 1, c);
        NameRunAgain(account, start, ls, m, n + 1, c);
      }
    }
    NamedAgree(h, account, name, start, q, c, id);
  }

  /** A pass whose first `r` messages and first `m` conversation writes were done before: the
      message is named as in one pass, unless a title comes between. */
  lemma {:induction false} SenderAgain(h: Hashes, account: string, start: Option<string>, from: string, ls: seq<Line>,
        r: nat, m: nat, c: string, id: string)
    requires r <= m <= |ls| && OnlyIn(h, account, ls, c, id)
    ensures var j := LastIndex(h, account, ls, id);
      var early := Keep(Named(h, account, start, ls[..r], c, id), from);
      Keep(Named(h, account, NameRun(account, start, ls[..m], c), ls, c, id), early)
      == if j >= 0 && TitleIntrudes(account, ls, j, m, c) then LastTitle(account, ls[..m], c)
         else Keep(Named(h, account, start, ls, c, id), from)
  {
    hide NameRun, LastTitle, Ignored, ConversationId, Named, DataId, Given, LastIndex, TitleIntrudes;
    var j := LastIndex(h, account, ls, id);
    var name := NameRun(account, start, ls[..m], c);
    NamedUpTo(h, account, start, ls, c, id);
    NamedUpTo(h, account, name, ls, c, id);
    if Named(h, account, start, ls[..r], c, id) != "" {
      NamedGrows(h, account, start, ls, r, c, id);
    }
    if j < 0 {
      NamedNothing(h, account, start, name, c, id);
      assert ls[..0] == [];
    } else {
      var q := ls[..j + 1];
      assert q[|q| - 1] == ls[j] && DeliversTo(ls[j], account, c);
      GivenAgain(account, start, ls, j, m, c);
      NamedLast(h, account, start, q, c, id);
      NamedLast(h, account, name, q, c, id);
      IntrudingTitle(account, ls, j, m, c);
      if Given(account, name, q, c) == "" {
        NamedAgain(h, account, start, ls, j, m, c, id);
      }
    }
  }

  lemma NamedNothing(h: Hashes, account: string, a: Option<string>, b: Option<string>, c: string, id: string)
    ensures Named(h, account, a, [], c, id) == Named(h, account, b, [], c, id) == ""
  {
  }

  lemma IntrudingTitle(account: string, ls: seq<Line>, j: nat, m: nat, c: string)
    requires j < |ls| && m <= |ls| && ls[j].Data?
    ensures TitleIntrudes(account, ls, j, m, c) ==> LastTitle(account, ls[..m], c) != ""
  {
  }
}
