/** Decimal numerals and the string operations the source takes from its standard library. */
module Text {
  import opened Prelude

  predicate IsDigit(c: char) {
    '0' <= c <= '9'
  }

  predicate AllDigits(s: string) {
    forall i :: 0 <= i < |s| ==> IsDigit(s[i])
  }

  function Digit(d: nat): char
    requires d < 10
  {
    '0' + d as char
  }

  /** `n.to_string()`. */
  function Decimal(n: nat): (s: string)
    ensures s != "" && AllDigits(s)
  {
    if n < 10 then [Digit(n)] else Decimal(n / 10) + [Digit(n % 10)]
  }

  function Zeros(n: nat): (s: string)
    ensures |s| == n && AllDigits(s)
  {
    seq(n, _ => '0')
  }

  /** `format!("{n:0width$}")`: at least `width` digits, more when `n` needs them. */
  function Padded(n: nat, width: nat): (s: string)
    ensures AllDigits(s) && s != ""
  {
    var s := Decimal(n);
    if |s| < width then Zeros(width - |s|) + s else s
  }

  function Value(s: string): nat
    requires AllDigits(s)
  {
    if s == "" then 0 else Value(s[..|s| - 1]) * 10 + (s[|s| - 1] - '0') as nat
  }

  /** `str::parse` for an unsigned integer below `limit`: one leading `+` is accepted. */
  function ParseUnsigned(s: string, limit: nat): Option<nat> {
    var body := if s != "" && s[0] == '+' then s[1..] else s;
    if body == "" || !AllDigits(body) then None
    else if Value(body) < limit then Some(Value(body))
    else None
  }

  /** `str::split` on a character. */
  function Split(s: string, sep: char): (parts: seq<string>)
    ensures |parts| >= 1
  {
    if s == "" then [""]
    else
      var rest := Split(s[1..], sep);
      if s[0] == sep then [""] + rest else [[s[0]] + rest[0]] + rest[1..]
  }

  /** `str::trim_end_matches` on a character. */
  function TrimEnd(s: string, c: char): string {
    if s != "" && s[|s| - 1] == c then TrimEnd(s[..|s| - 1], c) else s
  }

  // ------------------------------------------------------------------

  lemma {:induction false} ValueOfDecimal(n: nat)
    ensures Value(Decimal(n)) == n
  {
    if n >= 10 {
      ValueOfDecimal(n / 10);
      assert Decimal(n)[..|Decimal(n)| - 1] == Decimal(n / 10);
    }
  }

  lemma {:induction false} ValueOfZeros(n: nat, s: string)
    requires AllDigits(s)
    ensures Value(Zeros(n) + s) == Value(s)
    decreases |s|, n
  {
    var t := Zeros(n) + s;
    if s != "" {
      assert t[..|t| - 1] == Zeros(n) + s[..|s| - 1];
      ValueOfZeros(n, s[..|s| - 1]);
    } else if n > 0 {
      assert t[..n - 1] == Zeros(n - 1) + "";
      ValueOfZeros(n - 1, "");
    }
  }

  lemma {:induction false} DecimalLength(n: nat, width: nat, limit: nat)
    requires width >= 1 && n < limit && limit == Pow10(width)
    ensures |Decimal(n)| <= width
    decreases width
  {
    if n >= 10 {
      DecimalLength(n / 10, width - 1, Pow10(width - 1));
    }
  }

  function Pow10(n: nat): nat {
    if n == 0 then 1 else 10 * Pow10(n - 1)
  }

  /** A number that fits its width is padded to exactly that width. */
  lemma PaddedLength(n: nat, width: nat)
    requires width >= 1 && n < Pow10(width)
    ensures |Padded(n, width)| == width && Value(Padded(n, width)) == n
  {
    hide Value, Decimal, Pow10;
    DecimalLength(n, width, Pow10(width));
    ValueOfDecimal(n);
    ValueOfZeros(width - |Decimal(n)|, Decimal(n));
    assert Zeros(0) + Decimal(n) == Decimal(n);
  }

  /** A padded numeral parses back to its number. */
  lemma ParsePadded(n: nat, width: nat, limit: nat)
    requires n < limit
    ensures ParseUnsigned(Padded(n, width), limit) == Some(n)
  {
    ValueOfDecimal(n);
    var s := Decimal(n);
    if |s| < width {
      ValueOfZeros(width - |s|, s);
    }
    assert IsDigit(Padded(n, width)[0]);
  }

  /** One more digit after a padded numeral. */
  lemma PaddedDigit(n: nat, width: nat, d: nat)
    requires d < 10 && |Padded(n, width)| == width
    ensures Padded(n, width) + [Digit(d)] == Padded(10 * n + d, width + 1)
  {
    hide Digit;
    var m := 10 * n + d;
    if n == 0 {
      assert Decimal(m) == [Digit(d)] && Decimal(n) == [Digit(0)];
      assert Padded(n, width) == Zeros(width) by {
        ZeroDigit();
      }
    } else {
      assert m / 10 == n && m % 10 == d;
      assert Decimal(m) == Decimal(n) + [Digit(d)];
    }
  }

  lemma ZeroDigit()
    ensures Digit(0) == '0'
  {
  }

  /** Every string of digits is the padded numeral of its value. */
  lemma {:induction false} DigitsArePadded(s: string)
    requires s != "" && AllDigits(s)
    ensures s == Padded(Value(s), |s|)
  {
    hide Padded, Decimal;
    var init, d := s[..|s| - 1], (s[|s| - 1] - '0') as nat;
    assert s == init + [Digit(d)];
    if init == "" {
      OneDigit(d);
    } else {
      DigitsArePadded(init);
      PaddedDigit(Value(init), |init|, d);
    }
  }

  lemma OneDigit(d: nat)
    requires d < 10
    ensures Padded(d, 1) == [Digit(d)]
  {
  }

  /** The texts of a number: its padded numerals, and those after one `+`. */
  ghost predicate Spells(s: string, n: nat) {
    exists width: nat :: s == Padded(n, width) || s == "+" + Padded(n, width)
  }

  /** `str::parse` reads exactly the texts of the numbers below the limit. */
  lemma ParseUnsignedMeans(s: string, limit: nat, n: nat)
    ensures ParseUnsigned(s, limit) == Some(n) <==> n < limit && Spells(s, n)
  {
    hide Decimal, Padded, Value;
    if ParseUnsigned(s, limit) == Some(n) {
      var body := if s != "" && s[0] == '+' then s[1..] else s;
      DigitsArePadded(body);
      assert s == body || s == "+" + body;
    }
    if n < limit && Spells(s, n) {
      var width: nat :| s == Padded(n, width) || s == "+" + Padded(n, width);
      ParsePadded(n, width, limit);
      assert IsDigit(Padded(n, width)[0]);
      if s != Padded(n, width) {
        assert s[1..] == Padded(n, width);
      }
    }
  }

  /** Numerals of different numbers differ. */
  lemma DecimalInjective(a: nat, b: nat)
    requires Decimal(a) == Decimal(b)
    ensures a == b
  {
    ValueOfDecimal(a);
    ValueOfDecimal(b);
  }

  /** Splitting takes off a first field that does not hold the separator. */
  lemma {:induction false} SplitField(a: string, sep: char, b: string)
    requires sep !in a
    ensures Split(a + [sep] + b, sep) == [a] + Split(b, sep)
  {
    var s := a + [sep] + b;
    if a == "" {
      assert s[1..] == b;
    } else {
      assert s[1..] == a[1..] + [sep] + b;
      assert a == [a[0]] + a[1..];
      SplitField(a[1..], sep, b);
    }
  }

  lemma {:induction false} SplitLast(a: string, sep: char)
    requires sep !in a
    ensures Split(a, sep) == [a]
  {
    if a != "" {
      assert a == [a[0]] + a[1..];
      SplitLast(a[1..], sep);
    }
  }

  /** Fields with a separator between them. */
  function Join(parts: seq<string>, sep: char): string
    requires parts != []
  {
    if |parts| == 1 then parts[0] else parts[0] + [sep] + Join(parts[1..], sep)
  }

  /** No field holds the character. */
  ghost predicate NoneHolds(parts: seq<string>, c: char) {
    forall i :: 0 <= i < |parts| ==> c !in parts[i]
  }

  /** Splitting undoes joining. */
  lemma {:induction false} SplitJoin(parts: seq<string>, sep: char)
    requires parts != [] && NoneHolds(parts, sep)
    ensures Split(Join(parts, sep), sep) == parts
  {
    hide Split;
    assert sep !in parts[0];
    if |parts| == 1 {
      SplitLast(parts[0], sep);
    } else {
      SplitJoin(parts[1..], sep);
      SplitField(parts[0], sep, Join(parts[1..], sep));
    }
  }

  /** There is one field more than there are separators. */
  lemma {:induction false} SplitCount(s: string, sep: char)
    ensures |Split(s, sep)| == multiset(s)[sep] + 1
  {
    if s != "" {
      SplitCount(s[1..], sep);
      assert s == [s[0]] + s[1..];
    }
  }

  lemma JoinEmpty(parts: seq<string>, sep: char)
    requires parts != []
    ensures Join([""] + parts, sep) == [sep] + Join(parts, sep)
  {
    assert ([""] + parts)[1..] == parts;
  }

  lemma JoinGrown(c: char, parts: seq<string>, sep: char)
    requires parts != []
    ensures Join([[c] + parts[0]] + parts[1..], sep) == [c] + Join(parts, sep)
  {
    assert ([[c] + parts[0]] + parts[1..])[1..] == parts[1..];
  }

  /** Joining undoes splitting. */
  lemma {:induction false} JoinSplit(s: string, sep: char)
    ensures Join(Split(s, sep), sep) == s
  {
    hide Join;
    if s == "" {
      JoinOne("", sep);
    } else {
      assert s == [s[0]] + s[1..];
      JoinSplit(s[1..], sep);
      JoinEmpty(Split(s[1..], sep), sep);
      JoinGrown(s[0], Split(s[1..], sep), sep);
    }
  }

  lemma JoinOne(a: string, sep: char)
    ensures Join([a], sep) == a
  {
  }

  /** No field holds the separator, or a character that the text does not hold. */
  lemma {:induction false} SplitNoneHolds(s: string, sep: char, c: char)
    requires c == sep || c !in s
    ensures NoneHolds(Split(s, sep), c)
  {
    if s != "" {
      SplitNoneHolds(s[1..], sep, c);
      var parts := Split(s[1..], sep);
      assert c !in parts[0];
      assert s[0] != sep ==> c !in [s[0]] + parts[0];
    }
  }

  /** The last field ends as the text does. */
  lemma {:induction false} SplitEnds(s: string, sep: char, c: char)
    requires !EndsWith(s, c)
    ensures var parts := Split(s, sep); !EndsWith(parts[|parts| - 1], c)
  {
    if |s| > 1 {
      SplitEnds(s[1..], sep, c);
    } else if |s| == 1 {
      assert s[1..] == "" && Split("", sep) == [""];
    }
  }

  lemma {:induction false} JoinHolds(parts: seq<string>, sep: char, c: char)
    requires parts != [] && NoneHolds(parts, c) && c != sep
    ensures c !in Join(parts, sep)
  {
    assert c !in parts[0];
    if |parts| > 1 {
      JoinHolds(parts[1..], sep, c);
    }
  }

  predicate EndsWith(s: string, c: char) {
    s != "" && s[|s| - 1] == c
  }

  lemma {:induction false} JoinEnds(parts: seq<string>, sep: char, c: char)
    requires parts != [] && !EndsWith(parts[|parts| - 1], c) && c != sep
    ensures !EndsWith(Join(parts, sep), c)
  {
    if |parts| > 1 {
      JoinEnds(parts[1..], sep, c);
    }
  }

  lemma {:induction false} TrimAll(s: string, c: char, n: nat)
    requires !EndsWith(s, c)
    ensures TrimEnd(s + seq(n, _ => c), c) == s
  {
    if n == 0 {
      assert s + seq(n, _ => c) == s;
    } else {
      TrimAll(s, c, n - 1);
      assert (s + seq(n, _ => c))[..|s| + n - 1] == s + seq(n - 1, _ => c);
    }
  }

  lemma {:induction false} TrimmedOff(s: string, c: char) returns (n: nat)
    ensures s == TrimEnd(s, c) + seq(n, _ => c) && !EndsWith(TrimEnd(s, c), c)
    ensures forall x :: x !in s ==> x !in TrimEnd(s, c)
  {
    if s != "" && s[|s| - 1] == c {
      var k := TrimmedOff(s[..|s| - 1], c);
      n := k + 1;
      assert s == s[..|s| - 1] + [c] && seq(n, _ => c) == seq(k, _ => c) + [c];
    } else {
      n := 0;
    }
  }
}
