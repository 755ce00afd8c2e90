/** The string operations the store and the bridges share: Go's `strings.TrimSpace`,
    `firstNonEmpty`, ASCII case folding, and the binary text order SQLite and `<` use. */
module Text {

  /** Unicode White_Space, as `unicode.IsSpace` tests it. */
  predicate IsSpace(c: char) {
    || '\t' <= c <= '\r' || c == ' ' || c == '\U{85}' || c == '\U{A0}' || c == '\U{1680}'
    || '\U{2000}' <= c <= '\U{200A}' || c == '\U{2028}' || c == '\U{2029}'
    || c == '\U{202F}' || c == '\U{205F}' || c == '\U{3000}'
  }

  function TrimLeft(s: string): (r: string)
    ensures r == "" || !IsSpace(r[0])
    ensures s == "" || IsSpace(s[0]) || r == s
    ensures s != "" && !IsSpace(s[|s| - 1]) ==> r != "" && r[|r| - 1] == s[|s| - 1]
  {
    if s != "" && IsSpace(s[0]) then TrimLeft(s[1..]) else s
  }

  function TrimRight(s: string): (r: string)
    ensures r == "" || !IsSpace(r[|r| - 1])
    ensures s == "" || IsSpace(s[|s| - 1]) || r == s
  {
    if s != "" && IsSpace(s[|s| - 1]) then TrimRight(s[..|s| - 1]) else s
  }

  /** Whether `TrimSpace` would leave the string as it is. */
  predicate Trimmed(s: string) {
    s == "" || (!IsSpace(s[0]) && !IsSpace(s[|s| - 1]))
  }

  function TrimSpace(s: string): (r: string)
    ensures Trimmed(r)
    ensures Trimmed(s) ==> r == s
  {
    TrimLeft(TrimRight(s))
  }

  function FirstNonEmpty(a: string, b: string): (r: string)
    ensures Trimmed(r)
    ensures r == "" <==> TrimSpace(a) == "" && TrimSpace(b) == ""
  {
    if TrimSpace(a) != "" then TrimSpace(a) else TrimSpace(b)
  }

  /** `addressesMatch` folds case; Signal addresses are ASCII. */
  function FoldChar(c: char): char {
    if 'A' <= c <= 'Z' then c - 'A' + 'a' else c
  }

  function Fold(s: string): (r: string)
    ensures |r| == |s|
  {
    seq(|s|, i requires 0 <= i < |s| => FoldChar(s[i]))
  }

  predicate HasPrefix(s: string, prefix: string) {
    |prefix| <= |s| && s[..|prefix|] == prefix
  }

  /** Strict binary text order. */
  predicate Less(a: string, b: string) {
    b != "" && (a == "" || a[0] < b[0] || (a[0] == b[0] && Less(a[1..], b[1..])))
  }

  lemma {:induction false} LessTrans(a: string, b: string, c: string)
    requires Less(a, b) && Less(b, c)
    ensures Less(a, c)
  {
    if a != "" && a[0] == b[0] == c[0] {
      LessTrans(a[1..], b[1..], c[1..]);
    }
  }

  lemma {:induction false} LessIrreflexive(a: string)
    ensures !Less(a, a)
  {
    if a != "" {
      LessIrreflexive(a[1..]);
    }
  }

  lemma {:induction false} LessTotal(a: string, b: string)
    ensures a == b || Less(a, b) || Less(b, a)
  {
    if a != "" && b != "" && a[0] == b[0] {
      LessTotal(a[1..], b[1..]);
      assert a == [a[0]] + a[1..] && b == [b[0]] + b[1..];
    }
  }

  lemma LessAsym(a: string, b: string)
    requires Less(a, b)
    ensures a != b && !Less(b, a)
  {
    LessIrreflexive(a);
    if Less(b, a) {
      LessTrans(a, b, a);
    }
  }

  /** The 25 characters of the Unicode White_Space property. */
  predicate White(c: char) {
    c in {'\t', '\n', '\U{0B}', '\U{0C}', '\r', ' ', '\U{85}', '\U{A0}', '\U{1680}', '\U{2000}', '\U{2001}',
          '\U{2002}', '\U{2003}', '\U{2004}', '\U{2005}', '\U{2006}', '\U{2007}', '\U{2008}', '\U{2009}',
          '\U{200A}', '\U{2028}', '\U{2029}', '\U{202F}', '\U{205F}', '\U{3000}'}
  }

  lemma WhiteIsSpace(c: char)
    ensures White(c) <==> IsSpace(c)
  {
    var code := c as int;
    assert '\t' <= c <= '\r' ==> code in {9, 10, 11, 12, 13};
    assert '\U{2000}' <= c <= '\U{200A}' ==> code in {0x2000, 0x2001, 0x2002, 0x2003, 0x2004, 0x2005, 0x2006, 0x2007,
                                                     0x2008, 0x2009, 0x200A};
  }

  /** `t` is what is left of `s` between the white space at its two ends. */
  ghost predicate IsTrimmed(s: string, t: string) {
    exists a, b :: 0 <= a <= b <= |s| && Cuts(s, t, a, b)
  }

  predicate Cuts(s: string, t: string, a: nat, b: nat)
    requires a <= b <= |s|
  {
    && t == s[a..b]
    && (forall i :: 0 <= i < |s| && !(a <= i < b) ==> White(s[i]))
    && (a < b ==> !White(s[a]) && !White(s[b - 1]))
  }

  lemma {:induction false} TrimLeftCuts(s: string) returns (a: nat)
    ensures a <= |s| && TrimLeft(s) == s[a..] && forall i :: 0 <= i < a ==> IsSpace(s[i])
  {
    a := 0;
    if s != "" && IsSpace(s[0]) {
      a := TrimLeftCuts(s[1..]);
      a := a + 1;
    }
  }

  lemma {:induction false} TrimRightCuts(s: string) returns (b: nat)
    ensures b <= |s| && TrimRight(s) == s[..b] && forall i :: b <= i < |s| ==> IsSpace(s[i])
  {
    b := |s|;
    if s != "" && IsSpace(s[|s| - 1]) {
      b := TrimRightCuts(s[..|s| - 1]);
    }
  }

  /** Trimming takes off exactly the white space at both ends; nothing is left of blank text only. */
  lemma {:induction false} TrimSpaceExactly(s: string)
    ensures IsTrimmed(s, TrimSpace(s))
    ensures TrimSpace(s) == "" <==> forall i :: 0 <= i < |s| ==> White(s[i])
  {
    hide TrimLeft, TrimRight, IsSpace, White;
    var b := TrimRightCuts(s);
    var a := TrimLeftCuts(s[..b]);
    forall c ensures White(c) <==> IsSpace(c) { WhiteIsSpace(c); }
    assert TrimSpace(s) == s[a..b];
    assert Cuts(s, TrimSpace(s), a, b);
  }

  /** The texts first differ at `k`, where `a` has the smaller character. */
  predicate DiffersAt(a: string, b: string, k: nat) {
    k < |a| && k < |b| && a[..k] == b[..k] && a[k] < b[k]
  }

  lemma DiffersLater(a: string, b: string, k: nat)
    requires a != "" && b != "" && a[0] == b[0]
    ensures DiffersAt(a, b, k + 1) <==> DiffersAt(a[1..], b[1..], k)
    ensures a < b <==> a[1..] < b[1..]
  {
    assert a == [a[0]] + a[1..] && b == [b[0]] + b[1..];
    if k < |a[1..]| && k < |b[1..]| {
      assert a[..k + 1] == [a[0]] + a[1..][..k] && b[..k + 1] == [b[0]] + b[1..][..k];
      assert a[1..][..k] == a[..k + 1][1..] && b[1..][..k] == b[..k + 1][1..];
    }
  }

  /** The order is decided at the first difference; a proper prefix comes first. */
  lemma {:induction false} LessExactly(a: string, b: string)
    ensures Less(a, b) <==> a < b || exists k: nat :: DiffersAt(a, b, k)
  {
    if a != "" && b != "" {
      if a[0] == b[0] {
        LessExactly(a[1..], b[1..]);
        DiffersLater(a, b, 0);
        if k: nat :| DiffersAt(a, b, k) {
          assert k > 0;
          DiffersLater(a, b, k - 1);
        }
        if k: nat :| DiffersAt(a[1..], b[1..], k) {
          DiffersLater(a, b, k);
        }
      } else {
        assert DiffersAt(a, b, 0) <==> a[0] < b[0];
        assert forall k: nat :: DiffersAt(a, b, k) && k > 0 ==> a[..k][0] == b[..k][0];
      }
    }
  }
}
