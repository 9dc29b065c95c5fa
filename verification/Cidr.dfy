/**
 CIDR allowlist matching by shift and mask, against the interval meaning of a
 prefix: section 3.1 of RFC 4632 for IPv4, section 2.3 of RFC 4291 for IPv6.
 */
module Cidr {
  import opened Prelude
  import opened Text

  /** An address as the integer of its family's width. */
  datatype Ip = V4(bits: nat) | V6(bits: nat)

  function Width(ip: Ip): nat {
    if ip.V4? then 32 else 128
  }

  function Pow2(n: nat): (r: nat)
    ensures r >= 1
  {
    if n == 0 then 1 else 2 * Pow2(n - 1)
  }

  predicate InRange(ip: Ip) {
    ip.bits < Pow2(Width(ip))
  }

  // ------------------------------------------------------------------
  // The code
  // ------------------------------------------------------------------

  /** Bitwise and. */
  function And(x: nat, y: nat): nat {
    if x == 0 || y == 0 then 0
    else 2 * And(x / 2, y / 2) + (if x % 2 == 1 && y % 2 == 1 then 1 else 0)
  }

  /** `MAX << shift` in a word of `width` bits: the bits pushed out are lost. */
  function MaxShiftedLeft(width: nat, shift: nat): nat {
    (Pow2(width) - 1) * Pow2(shift) % Pow2(width)
  }

  function Mask(width: nat, prefix: nat): nat
    requires prefix <= width
  {
    if prefix == 0 then 0 else MaxShiftedLeft(width, width - prefix)
  }

  /** The index of the first `c` in `s`. */
  function IndexOf(s: string, c: char): Option<nat> {
    if s == "" then None
    else if s[0] == c then Some(0)
    else match IndexOf(s[1..], c) case Some(i) => Some(i + 1) case None => None
  }

  lemma {:induction false} IndexOfBound(s: string, c: char)
    ensures IndexOf(s, c).Some? ==> IndexOf(s, c).value < |s|
  {
    if s != "" {
      IndexOfBound(s[1..], c);
    }
  }

  /** The network and prefix length an entry spells out; `parse` is the library's address parser. */
  function ParseEntry(parse: string -> Option<Ip>, cidr: string): Option<(Ip, nat)> {
    IndexOfBound(cidr, '/');
    match IndexOf(cidr, '/')
    case Some(i) =>
      (match ParseUnsigned(cidr[i + 1..], 0x1_0000_0000)
       case None => None
       case Some(prefix) =>
         match parse(cidr[..i])
         case None => None
         case Some(net) => Some((net, prefix)))
    case None =>
      match parse(cidr)
      case None => None
      case Some(net) => Some((net, Width(net)))
  }

  /** `cidr_match` on a parsed entry. */
  function MatchEntry(net: Ip, prefix: nat, ip: Ip): Option<bool> {
    if net.V4? != ip.V4? then None
    else if prefix > Width(ip) then None
    else
      var mask := Mask(Width(ip), prefix);
      Some(And(net.bits, mask) == And(ip.bits, mask))
  }

  /** `cidr_match`. */
  function CidrMatch(parse: string -> Option<Ip>, cidr: string, ip: Ip): Option<bool> {
    match ParseEntry(parse, cidr)
    case None => None
    case Some((net, prefix)) => MatchEntry(net, prefix, ip)
  }

  // ------------------------------------------------------------------
  // Masking is rounding down to the block size
  // ------------------------------------------------------------------

  lemma {:induction false} Pow2Splits(a: nat, b: nat)
    ensures Pow2(a + b) == Pow2(a) * Pow2(b)
  {
    if a > 0 {
      Pow2Splits(a - 1, b);
    }
  }

  lemma ShiftedOut(p: nat, k: nat)
    requires p >= 1 && k >= 1
    ensures (p * k - 1) * k % (p * k) == (p - 1) * k
  {
    var n := p * k;
    assert (p - 1) * k == n - k;
    assert (n - 1) * k == n * (k - 1) + (n - k);
    assert n >= k;
    QuotientUnique((n - 1) * k, n, k - 1, n - k);
  }

  lemma MaskValue(width: nat, prefix: nat)
    requires 0 < prefix <= width
    ensures Mask(width, prefix) == (Pow2(prefix) - 1) * Pow2(width - prefix)
  {
    Pow2Splits(prefix, width - prefix);
    ShiftedOut(Pow2(prefix), Pow2(width - prefix));
  }

  lemma {:induction false} AndOnes(x: nat, ones: nat)
    requires x < Pow2(ones)
    ensures And(x, Pow2(ones) - 1) == x
  {
    if ones > 0 {
      AndOnes(x / 2, ones - 1);
      assert (Pow2(ones) - 1) / 2 == Pow2(ones - 1) - 1;
    }
  }

  /** Shifting the second operand left by one drops the low bit of the first. */
  lemma AndDoubled(x: nat, y: nat)
    ensures And(x, 2 * y) == 2 * And(x / 2, y)
  {
  }

  lemma HalfThenDivide(x: nat, b: nat)
    requires b > 0
    ensures x / 2 / b == x / (2 * b)
  {
    var q, r := x / 2 / b, x / 2 % b;
    assert x == 2 * (x / 2) + x % 2;
    assert x / 2 == b * q + r;
    assert x == (2 * b) * q + (2 * r + x % 2) by {
      assert 2 * (b * q) == (2 * b) * q;
    }
    QuotientUnique(x, 2 * b, q, 2 * r + x % 2);
  }

  lemma RoundDownDoubled(x: nat, k: nat)
    requires k > 0
    ensures 2 * (x / 2 / k * k) == x / (2 * k) * (2 * k)
  {
    HalfThenDivide(x, k);
    var q := x / (2 * k);
    assert 2 * (q * k) == q * (2 * k);
  }

  lemma {:induction false} AndHighOnes(x: nat, ones: nat, low: nat)
    requires x < Pow2(ones + low)
    ensures And(x, (Pow2(ones) - 1) * Pow2(low)) == x / Pow2(low) * Pow2(low)
    decreases low
  {
    hide And;
    if low == 0 {
      AndOnes(x, ones);
    } else {
      var o, k := Pow2(ones) - 1, Pow2(low - 1);
      assert o * (2 * k) == 2 * (o * k);
      AndDoubled(x, o * k);
      AndHighOnes(x / 2, ones, low - 1);
      RoundDownDoubled(x, k);
    }
  }

  /** The start of the block of size `2^(width - prefix)` around an address. */
  function BlockStart(x: nat, width: nat, prefix: nat): nat
    requires prefix <= width
  {
    x / Pow2(width - prefix) * Pow2(width - prefix)
  }

  lemma AndMask(x: nat, width: nat, prefix: nat)
    requires prefix <= width && x < Pow2(width)
    ensures And(x, Mask(width, prefix)) == BlockStart(x, width, prefix)
  {
    if prefix == 0 {
      QuotientUnique(x, Pow2(width), 0, x);
    } else {
      MaskValue(width, prefix);
      AndHighOnes(x, prefix, width - prefix);
    }
  }

  // ------------------------------------------------------------------
  // The interval meaning
  // ------------------------------------------------------------------

  /** Address `x` lies in the aligned interval of `2^(width - prefix)` addresses that holds `net`. */
  predicate InBlock(net: nat, width: nat, prefix: nat, x: nat)
    requires prefix <= width
  {
    var start := BlockStart(net, width, prefix);
    start <= x < start + Pow2(width - prefix)
  }

  lemma BlockOf(net: nat, width: nat, prefix: nat, x: nat)
    requires prefix <= width
    ensures InBlock(net, width, prefix, x) <==> x / Pow2(width - prefix) == net / Pow2(width - prefix)
  {
    var size := Pow2(width - prefix);
    var q := net / size;
    if InBlock(net, width, prefix, x) {
      QuotientUnique(x, size, q, x - q * size);
    }
  }

  lemma EqualMultiples(q: int, q': int, size: int)
    requires size > 0
    ensures q * size == q' * size <==> q == q'
  {
    QuotientUnique(q * size, size, q, 0);
    QuotientUnique(q' * size, size, q', 0);
  }

  /** Equal after masking means in the same block, at every width. */
  lemma MaskedEqualIsInBlock(net: nat, x: nat, width: nat, prefix: nat)
    requires prefix <= width && net < Pow2(width) && x < Pow2(width)
    ensures And(net, Mask(width, prefix)) == And(x, Mask(width, prefix)) <==> InBlock(net, width, prefix, x)
  {
    AndMask(net, width, prefix);
    AndMask(x, width, prefix);
    BlockOf(net, width, prefix, x);
    var size := Pow2(width - prefix);
    EqualMultiples(net / size, x / size, size);
  }

  /** A well-formed entry of the address's family matches exactly the addresses of its block. */
  lemma MatchIsInterval(net: Ip, prefix: nat, ip: Ip)
    requires InRange(net) && InRange(ip)
    ensures MatchEntry(net, prefix, ip) ==
            if net.V4? != ip.V4? || prefix > Width(net) then None
            else Some(InBlock(net.bits, Width(net), prefix, ip.bits))
  {
    hide And, Mask, InBlock;
    if net.V4? == ip.V4? && prefix <= Width(net) {
      MaskedEqualIsInBlock(net.bits, ip.bits, Width(net), prefix);
    }
  }

  lemma {:induction false} CoarserQuotient(x: nat, y: nat, fine: nat, more: nat)
    requires x / Pow2(fine) == y / Pow2(fine)
    ensures x / Pow2(fine + more) == y / Pow2(fine + more)
  {
    if more > 0 {
      CoarserQuotient(x, y, fine, more - 1);
      DivideThenHalve(x, Pow2(fine + more - 1));
      DivideThenHalve(y, Pow2(fine + more - 1));
    }
  }

  lemma DivideThenHalve(x: nat, b: nat)
    requires b > 0
    ensures x / b / 2 == x / (2 * b)
  {
    var q, h := x / b, x / b / 2;
    assert x == b * q + x % b && q == 2 * h + q % 2;
    assert b * q == (2 * b) * h + b * (q % 2) by {
      assert b * (2 * h + q % 2) == (2 * b) * h + b * (q % 2);
    }
    assert b * (q % 2) <= b;
    QuotientUnique(x, 2 * b, h, b * (q % 2) + x % b);
  }

  /** An address matched at a prefix is matched at every shorter one. */
  lemma ShorterPrefixMatches(net: nat, width: nat, prefix: nat, shorter: nat, x: nat)
    requires shorter <= prefix <= width && InBlock(net, width, prefix, x)
    ensures InBlock(net, width, shorter, x)
  {
    BlockOf(net, width, prefix, x);
    CoarserQuotient(x, net, width - prefix, prefix - shorter);
    BlockOf(net, width, shorter, x);
  }

  /** Two blocks of one family share no address, or the one with the longer prefix lies inside the other. */
  lemma NestedOrDisjoint(a: nat, pa: nat, b: nat, pb: nat, width: nat)
    requires pa <= pb <= width
    ensures || (forall x: nat :: InBlock(b, width, pb, x) ==> InBlock(a, width, pa, x))
            || (forall x: nat :: !(InBlock(a, width, pa, x) && InBlock(b, width, pb, x)))
  {
    forall x: nat, y: nat | InBlock(a, width, pa, x) && InBlock(b, width, pb, x) && InBlock(b, width, pb, y)
      ensures InBlock(a, width, pa, y)
    {
      ShorterPrefixMatches(b, width, pb, pa, x);
      ShorterPrefixMatches(b, width, pb, pa, y);
      BlockOf(b, width, pa, x);
      BlockOf(b, width, pa, y);
      BlockOf(a, width, pa, x);
      BlockOf(a, width, pa, y);
    }
  }

  // ------------------------------------------------------------------
  // The list
  // ------------------------------------------------------------------

  /** The library parser yields addresses of their family's width. */
  ghost predicate ParsesInRange(parse: string -> Option<Ip>) {
    forall s :: parse(s).Some? ==> InRange(parse(s).value)
  }

  lemma {:induction false} IndexOfFirst(a: string, c: char, d: string)
    requires c !in a
    ensures IndexOf(a + [c] + d, c) == Some(|a|) && IndexOf(a, c) == None
  {
    if a != "" {
      assert a == [a[0]] + a[1..];
      assert (a + [c] + d)[1..] == a[1..] + [c] + d;
      IndexOfFirst(a[1..], c, d);
    }
  }

  /** The block of full length is one address. */
  lemma OneAddress(net: nat, width: nat, x: nat)
    ensures InBlock(net, width, width, x) <==> x == net
  {
  }

  /** A text without a slash is one address, and matches it and no other. */
  lemma MatchBare(parse: string -> Option<Ip>, cidr: string, ip: Ip)
    requires InRange(ip) && ParsesInRange(parse) && '/' !in cidr
    ensures CidrMatch(parse, cidr, ip) ==
            match parse(cidr)
            case None => None
            case Some(net) => if net.V4? != ip.V4? then None else Some(net == ip)
  {
    hide InRange, MatchEntry, InBlock;
    IndexOfFirst(cidr, '/', "");
    if parse(cidr).Some? {
      var net := parse(cidr).value;
      MatchIsInterval(net, Width(net), ip);
      OneAddress(net.bits, Width(net), ip.bits);
    }
  }

  /** An address, a slash and a number match the block of that many leading bits. */
  lemma MatchBlock(parse: string -> Option<Ip>, a: string, d: string, ip: Ip)
    requires InRange(ip) && ParsesInRange(parse) && '/' !in a
    ensures var net, prefix := parse(a), ParseUnsigned(d, 0x1_0000_0000);
            CidrMatch(parse, a + "/" + d, ip) ==
            if net.None? || prefix.None? || net.value.V4? != ip.V4? || prefix.value > Width(ip) then None
            else Some(InBlock(net.value.bits, Width(ip), prefix.value, ip.bits))
  {
    hide InRange, MatchEntry, InBlock, ParseUnsigned;
    var cidr := a + "/" + d;
    IndexOfFirst(a, '/', d);
    assert cidr[..|a|] == a && cidr[|a| + 1..] == d;
    if parse(a).Some? && ParseUnsigned(d, 0x1_0000_0000).Some? {
      MatchIsInterval(parse(a).value, ParseUnsigned(d, 0x1_0000_0000).value, ip);
    }
  }

  /** `cidr` spells an address before a slash and a prefix after it, and that block holds `ip`. */
  ghost predicate BlockHolds(parse: string -> Option<Ip>, cidr: string, slash: nat, prefix: nat, ip: Ip) {
    && slash < |cidr| && cidr[slash] == '/' && '/' !in cidr[..slash] && Spells(cidr[slash + 1..], prefix)
    && var net := parse(cidr[..slash]);
       && net.Some? && net.value.V4? == ip.V4? && prefix <= Width(ip)
       && InBlock(net.value.bits, Width(ip), prefix, ip.bits)
  }

  /** A permission as the text grants it: the address itself, or a block that holds it. */
  ghost predicate Permits(parse: string -> Option<Ip>, cidr: string, ip: Ip) {
    || ('/' !in cidr && parse(cidr) == Some(ip))
    || exists slash: nat, prefix: nat :: BlockHolds(parse, cidr, slash, prefix, ip)
  }

  lemma {:induction false} FirstSlash(cidr: string) returns (slash: nat)
    requires '/' in cidr
    ensures slash < |cidr| && cidr[slash] == '/' && '/' !in cidr[..slash]
    ensures cidr == cidr[..slash] + "/" + cidr[slash + 1..]
  {
    if cidr[0] == '/' {
      slash := 0;
    } else {
      assert cidr == [cidr[0]] + cidr[1..];
      var rest := FirstSlash(cidr[1..]);
      slash := rest + 1;
      assert cidr[..slash] == [cidr[0]] + cidr[1..][..rest];
    }
  }

  lemma MatchIsPermission(parse: string -> Option<Ip>, cidr: string, ip: Ip)
    requires InRange(ip) && ParsesInRange(parse)
    ensures CidrMatch(parse, cidr, ip) == Some(true) <==> Permits(parse, cidr, ip)
  {
    hide InRange, CidrMatch, InBlock, ParseUnsigned, Spells;
    if '/' !in cidr {
      MatchBare(parse, cidr, ip);
    } else {
      var slash := FirstSlash(cidr);
      var a, d := cidr[..slash], cidr[slash + 1..];
      MatchBlock(parse, a, d, ip);
      forall prefix: nat
        ensures ParseUnsigned(d, 0x1_0000_0000) == Some(prefix) <==> prefix < 0x1_0000_0000 && Spells(d, prefix)
      {
        ParseUnsignedMeans(d, 0x1_0000_0000, prefix);
      }
      if CidrMatch(parse, cidr, ip) == Some(true) {
        assert BlockHolds(parse, cidr, slash, ParseUnsigned(d, 0x1_0000_0000).value, ip);
      }
      if other: nat, prefix: nat :| BlockHolds(parse, cidr, other, prefix, ip) {
        assert other == slash;
        assert ParseUnsigned(d, 0x1_0000_0000) == Some(prefix);
      }
    }
  }

  /** `cidr_contains_ip`: the allowlist is the union of the blocks of its well-formed entries. */
  method CidrContainsIp(parse: string -> Option<Ip>, cidrs: seq<string>, ip: Ip) returns (found: bool)
    requires InRange(ip) && ParsesInRange(parse)
    ensures found <==> exists i :: 0 <= i < |cidrs| && Permits(parse, cidrs[i], ip)
  {
    hide InRange, Permits, CidrMatch, ParsesInRange;
    for n := 0 to |cidrs|
      invariant forall i :: 0 <= i < n ==> !Permits(parse, cidrs[i], ip)
    {
      MatchIsPermission(parse, cidrs[n], ip);
      var matched := CidrMatch(parse, cidrs[n], ip);
      if matched.Some? {
        if matched.value {
          return true;
        }
      }
    }
    found := false;
  }
}
