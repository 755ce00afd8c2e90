/** `commaInt`: an integer printed with thousands separators. */
module Status {

  predicate IsDigit(c: char) { '0' <= c <= '9' }

  predicate Digits(s: string) {
    s != "" && forall i :: 0 <= i < |s| ==> IsDigit(s[i])
  }

  function DigitChar(d: nat): (c: char)
    requires d < 10
    ensures IsDigit(c)
  {
    '0' + d as char
  }

  function Decimal(n: nat): (s: string)
    ensures Digits(s)
  {
    if n < 10 then [DigitChar(n)] else Decimal(n / 10) + [DigitChar(n % 10)]
  }

  /** `strconv.Itoa`. */
  function Itoa(n: int): (s: string)
    ensures s != ""
  {
    if n < 0 then "-" + Decimal(-n) else Decimal(n)
  }

  function Value(s: string): int
    requires forall i :: 0 <= i < |s| ==> IsDigit(s[i])
  {
    if s == "" then 0 else Value(s[..|s| - 1]) * 10 + (s[|s| - 1] as int - '0' as int)
  }

  /** Reads an optional sign and digits. */
  function Parse(s: string): int
    requires Digits(s) || (s != "" && s[0] == '-' && Digits(s[1..]))
  {
    if s[0] == '-' then -Value(s[1..]) else Value(s)
  }

  lemma {:induction false} DecimalParses(n: nat)
    ensures Value(Decimal(n)) == n
  {
    if n >= 10 {
      DecimalParses(n / 10);
      assert Decimal(n)[..|Decimal(n)| - 1] == Decimal(n / 10);
    }
  }

  /** The reference: cut groups of three off the right end. */
  function Grouped(s: string): string {
    if |s| <= 3 then s else Grouped(s[..|s| - 3]) + "," + s[|s| - 3..]
  }

  function StripCommas(s: string): string {
    if s == "" then "" else StripCommas(s[..|s| - 1]) + if s[|s| - 1] == ',' then "" else [s[|s| - 1]]
  }

  lemma {:induction false} StripAppend(s: string, t: string)
    ensures StripCommas(s + t) == StripCommas(s) + StripCommas(t)
  {
    if t == "" {
      assert s + t == s;
    } else {
      StripAppend(s, t[..|t| - 1]);
      assert (s + t)[..|s + t| - 1] == s + t[..|t| - 1];
    }
  }

  lemma {:induction false} StripDigits(s: string)
    requires forall i :: 0 <= i < |s| ==> IsDigit(s[i])
    ensures StripCommas(s) == s
  {
    if s != "" {
      StripDigits(s[..|s| - 1]);
    }
  }

  lemma StripComma()
    ensures StripCommas(",") == ""
  {
  }

  lemma {:induction false} GroupingOnlyAddsCommas(s: string)
    requires Digits(s)
    ensures StripCommas(Grouped(s)) == s
  {
    hide StripCommas;
    if |s| <= 3 {
      StripDigits(s);
    } else {
      var head, tail := s[..|s| - 3], s[|s| - 3..];
      GroupingOnlyAddsCommas(head);
      StripDigits(tail);
      StripAppend(Grouped(head) + ",", tail);
      StripAppend(Grouped(head), ",");
      StripComma();
      assert s == head + tail;
    }
  }

  /** The character `q` places from the right end: every fourth one is a comma, and the others
      are the digits in order. */
  predicate ThreeDigitGroupAt(t: string, s: string, q: nat)
    requires q < |t|
  {
    if q % 4 == 3 then t[|t| - 1 - q] == ','
    else 0 <= q - q / 4 < |s| && t[|t| - 1 - q] == s[|s| - 1 - (q - q / 4)]
  }

  lemma {:induction false} GroupedLength(s: string)
    requires s != ""
    ensures |Grouped(s)| == |s| + (|s| - 1) / 3
    ensures |Grouped(s)| % 4 != 0
  {
    if |s| > 3 {
      GroupedLength(s[..|s| - 3]);
    }
  }

  lemma GroupedTail(s: string, q: nat)
    requires |s| > 3 && q < 4
    ensures |Grouped(s)| == |Grouped(s[..|s| - 3])| + 4
    ensures ThreeDigitGroupAt(Grouped(s), s, q)
  {
    assert Grouped(s) == Grouped(s[..|s| - 3]) + "," + s[|s| - 3..];
  }

  lemma GroupedFront(s: string, q: nat)
    requires |s| > 3 && q < |Grouped(s[..|s| - 3])|
    requires ThreeDigitGroupAt(Grouped(s[..|s| - 3]), s[..|s| - 3], q)
    ensures |Grouped(s)| == |Grouped(s[..|s| - 3])| + 4
    ensures ThreeDigitGroupAt(Grouped(s), s, q + 4)
  {
    var head := s[..|s| - 3];
    var g, t := Grouped(head), Grouped(s);
    assert t == g + "," + s[|s| - 3..];
    assert t[|t| - 1 - (q + 4)] == g[|g| - 1 - q];
    assert (q + 4) / 4 == q / 4 + 1 && (q + 4) % 4 == q % 4;
  }

  /** Digits in groups of three from the right, under one comma between any two groups: the first
      group has the one to three characters that `|t| % 4` counts. */
  predicate IsGrouping(t: string, s: string) {
    && |t| == |s| + (|s| - 1) / 3
    && 1 <= |t| % 4 <= 3
    && forall q :: 0 <= q < |t| ==> ThreeDigitGroupAt(t, s, q)
  }

  lemma {:induction false} GroupedAt(s: string, q: nat)
    requires s != "" && q < |Grouped(s)|
    ensures ThreeDigitGroupAt(Grouped(s), s, q)
  {
    if |s| > 3 {
      if q < 4 {
        GroupedTail(s, q);
      } else {
        GroupedTail(s, 0);
        GroupedAt(s[..|s| - 3], q - 4);
        GroupedFront(s, q - 4);
      }
    }
  }

  /** The groups cut off from the right are the one grouping of the string. */
  lemma {:induction false} GroupedExactly(s: string, t: string)
    requires s != ""
    ensures t == Grouped(s) <==> IsGrouping(t, s)
  {
    hide Grouped;
    var g := Grouped(s);
    GroupedLength(s);
    forall q: nat | q < |g| ensures ThreeDigitGroupAt(g, s, q) {
      GroupedAt(s, q);
    }
    if IsGrouping(t, s) {
      forall p | 0 <= p < |t| ensures t[p] == g[p] {
        assert ThreeDigitGroupAt(t, s, |t| - 1 - p) && ThreeDigitGroupAt(g, s, |t| - 1 - p);
      }
    }
  }

  lemma GroupedShort(s: string)
    requires |s| <= 3
    ensures Grouped(s) == s
  {
  }

  lemma GroupedStep(s: string, i: nat)
    requires i + 3 <= |s|
    ensures Grouped(s[..i + 3]) == (if i == 0 then "" else Grouped(s[..i]) + ",") + s[i..i + 3]
  {
    assert s[..i + 3][..i] == s[..i] && s[..i + 3][i..] == s[i..i + 3];
  }

  function CommaFormat(n: int): string {
    if n < 0 then "-" + Grouped(Decimal(-n)) else Grouped(Decimal(n))
  }

  predicate HasSign(n: int)
    ensures HasSign(n) <==> n < 0
  {
    Itoa(n)[0] == '-'
  }

  method CommaInt(n: int) returns (r: string)
    ensures r == CommaFormat(n)
  {
    hide Digits, Decimal, Grouped;
    var s := Itoa(n);
    var neg := HasSign(n);
    if neg {
      s := s[1..];
    }
    assert s == Decimal(if n < 0 then -n else n);
    var b := "";
    var pre := |s| % 3;
    if pre > 0 {
      b := b + s[..pre];
      if |s| > pre {
        b := b + ",";
      }
    }
    var i := pre;
    GroupedShort(s[..pre]);
    while i < |s|
      invariant pre <= i <= |s| && (|s| - i) % 3 == 0
      invariant b == Grouped(s[..i]) + if 0 < i < |s| then "," else ""
    {
      b := b + s[i..i + 3];
      GroupedStep(s, i);
      if i + 3 < |s| {
        b := b + ",";
      }
      i := i + 3;
    }
    assert s[..i] == s;
    r := if neg then "-" + b else b;
  }

  /** Main result: what `commaInt` prints reads back as the integer it was given. */
  lemma CommaIntRoundTrips(n: int)
    ensures StripCommas(CommaFormat(n)) == Itoa(n) && Parse(Itoa(n)) == n
  {
    var d := Decimal(if n < 0 then -n else n);
    GroupingOnlyAddsCommas(d);
    DecimalParses(if n < 0 then -n else n);
    if n < 0 {
      StripAppend("-", Grouped(d));
      assert StripCommas("-") == "-";
      assert Itoa(n)[1..] == d;
    }
  }

  /** What follows the sign. */
  function Unsigned(t: string): string {
    if t != "" && t[0] == '-' then t[1..] else t
  }

  /** Main result: `commaInt` prints a sign exactly for negative integers, and then the integer's
      digits grouped: one to three digits first, then groups of exactly three. */
  lemma {:induction false} GroupedShape(n: int)
    ensures CommaFormat(n) != "" && (CommaFormat(n)[0] == '-' <==> n < 0)
    ensures IsGrouping(Unsigned(CommaFormat(n)), Decimal(if n < 0 then -n else n))
  {
    hide Grouped, Decimal;
    var d := Decimal(if n < 0 then -n else n);
    var g := Grouped(d);
    GroupedExactly(d, g);
    assert ThreeDigitGroupAt(g, d, |g| - 1);
  }
}
