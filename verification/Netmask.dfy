/** Netmask and prefix length (internal/netcfg/prefix.go; prefix notation is
    section 3.1 of RFC 4632). The parts of Go's net package that prefix.go
    calls are written out: ParseIP's dotted-decimal form, IPMask.Size and
    CIDRMask. An address in IPv6 notation is parsed by the parameter `v6`,
    which gives its four-byte form if it has one (IP.To4). */
module Netmask {
  import opened Basics

  type Byte = b: int | 0 <= b < 256

  datatype Quad = Quad(a: Byte, b: Byte, c: Byte, d: Byte)

  // ---------- Dotted decimal ----------

  function Digit(n: int): char
    requires 0 <= n < 10
  {
    "0123456789"[n]
  }

  function DigitValue(c: char): Option<int> {
    if '0' <= c <= '9' then Some(c as int - '0' as int) else None
  }

  function PrintOctet(n: Byte): string {
    if n < 10 then [Digit(n)]
    else if n < 100 then [Digit(n / 10), Digit(n % 10)]
    else [Digit(n / 100), Digit(n / 10 % 10), Digit(n % 10)]
  }

  /** One to three digits, no leading zero, at most 255. */
  function ParseOctet(s: string): Option<Byte> {
    if |s| == 0 || |s| > 3 || (|s| > 1 && s[0] == '0') then None
    else
      match DecimalValue(s)
      case None => None
      case Some(n) => if 0 <= n < 256 then Some(n) else None
  }

  function DecimalValue(s: string): Option<int> {
    if s == "" then Some(0)
    else
      match (DecimalValue(Init(s)), DigitValue(Last(s)))
      case (Some(n), Some(d)) => Some(10 * n + d)
      case _ => None
  }

  /** The fields between the dots. */
  function Fields(s: string): seq<string>
    decreases |s|
  {
    var end := FieldEnd(s, 0);
    if end == |s| then [s] else [s[..end]] + Fields(s[end + 1..])
  }

  function FieldEnd(s: string, k: nat): (e: nat)
    requires k <= |s|
    ensures k <= e <= |s| && (forall j :: k <= j < e ==> s[j] != '.') && (e < |s| ==> s[e] == '.')
    decreases |s| - k
  {
    if k == |s| || s[k] == '.' then k else FieldEnd(s, k + 1)
  }

  function PrintQuad(q: Quad): string {
    PrintOctet(q.a) + "." + PrintOctet(q.b) + "." + PrintOctet(q.c) + "." + PrintOctet(q.d)
  }

  function ParseQuad(s: string): Option<Quad> {
    var f := Fields(s);
    if |f| != 4 then None
    else
      match (ParseOctet(f[0]), ParseOctet(f[1]), ParseOctet(f[2]), ParseOctet(f[3]))
      case (Some(a), Some(b), Some(c), Some(d)) => Some(Quad(a, b, c, d))
      case _ => None
  }

  /** net.ParseIP(s).To4(): the first '.', ':' or '%' decides the notation. */
  function ParseIP4(v6: string -> Option<Quad>, s: string): Option<Quad> {
    match Notation(s, 0)
    case Some('.') => ParseQuad(s)
    case Some(':') => v6(s)
    case _ => None
  }

  function Notation(s: string, k: nat): Option<char>
    decreases |s| - k
  {
    if k >= |s| then None
    else if s[k] == '.' || s[k] == ':' || s[k] == '%' then Some(s[k])
    else Notation(s, k + 1)
  }

  // ---------- Masks ----------

  /** The leading ones of a byte, shifted out one by one, and what remains. */
  function Ones(v: Byte): nat
    decreases v
  {
    if v >= 128 then 1 + Ones((v - 128) * 2) else 0
  }

  function Rest(v: Byte): Byte
    decreases v
  {
    if v >= 128 then Rest((v - 128) * 2) else v
  }

  /** IPMask.Size: None for a mask that is not ones and then zeros. */
  function MaskLength(m: seq<Byte>): Option<nat> {
    if m == [] then Some(0)
    else if m[0] == 255 then
      match MaskLength(m[1..])
      case None => None
      case Some(n) => Some(8 + n)
    else if Rest(m[0]) != 0 || (exists i :: 1 <= i < |m| && m[i] != 0) then None
    else Some(Ones(m[0]))
  }

  const POWERS := [1, 2, 4, 8, 16, 32, 64, 128]

  /** One byte of CIDRMask, which has `n` ones left to place. */
  function MaskByte(n: nat): Byte {
    if n >= 8 then 255 else 255 - 255 / POWERS[n]
  }

  function Less(n: nat): nat {
    if n >= 8 then n - 8 else 0
  }

  function CIDRMask(p: nat): Quad {
    Quad(MaskByte(p), MaskByte(Less(p)), MaskByte(Less(Less(p))), MaskByte(Less(Less(Less(p)))))
  }

  function Bytes(q: Quad): seq<Byte> {
    [q.a, q.b, q.c, q.d]
  }

  // ---------- internal/netcfg/prefix.go ----------

  function NetmaskToPrefix(v6: string -> Option<Quad>, netmask: string): Option<nat> {
    match ParseIP4(v6, netmask)
    case None => None
    case Some(ip) => MaskLength(Bytes(ip))
  }

  function PrefixToNetmask(prefix: nat): Option<string> {
    if prefix > 32 then None else Some(PrintQuad(CIDRMask(prefix)))
  }

  // ---------- What a mask is ----------

  /** Bit `j` of a byte, the most significant one first. */
  predicate Bit(v: Byte, j: nat)
    requires j < 8
  {
    v / POWERS[7 - j] % 2 == 1
  }

  predicate BitAt(m: seq<Byte>, i: nat)
    requires i < 8 * |m|
  {
    Bit(m[i / 8], i % 8)
  }

  /** The first `p` bits are ones and all others are zeros. */
  ghost predicate IsPrefixMask(m: seq<Byte>, p: nat) {
    p <= 8 * |m| && forall i: nat :: i < 8 * |m| ==> (BitAt(m, i) <==> i < p)
  }

  lemma {:induction false} ByteTable(v: Byte)
    ensures v in {0, 128, 192, 224, 240, 248, 252, 254, 255} <==> Rest(v) == 0
    ensures Rest(v) == 0 ==> v == MaskByte(Ones(v)) && Ones(v) <= 8
    decreases v
  {
    if v < 128 {
    } else {
      ByteTable((v - 128) * 2);
    }
  }

  /** A byte is the sum of its bits. */
  lemma ByteSum(v: Byte)
    ensures v == 128 * (v / 128 % 2) + 64 * (v / 64 % 2) + 32 * (v / 32 % 2) + 16 * (v / 16 % 2)
                 + 8 * (v / 8 % 2) + 4 * (v / 4 % 2) + 2 * (v / 2 % 2) + v / 1 % 2
  {
    assert v / 2 == 2 * (v / 4) + v / 2 % 2;
    assert v / 4 == 2 * (v / 8) + v / 4 % 2;
    assert v / 8 == 2 * (v / 16) + v / 8 % 2;
    HighBits(v);
  }

  lemma HighBits(v: Byte)
    ensures v / 16 == 8 * (v / 128 % 2) + 4 * (v / 64 % 2) + 2 * (v / 32 % 2) + v / 16 % 2
  {
    assert v / 16 == 2 * (v / 32) + v / 16 % 2;
    assert v / 32 == 2 * (v / 64) + v / 32 % 2;
    assert v / 64 == 2 * (v / 128) + v / 64 % 2;
  }

  /** A byte that is ones and then zeros is the byte with that many ones. */
  lemma ByteBits(v: Byte, n: nat)
    requires n <= 8
    ensures v == MaskByte(n) <==> forall j: nat :: j < 8 ==> (Bit(v, j) <==> j < n)
  {
    if forall j: nat :: j < 8 ==> (Bit(v, j) <==> j < n) {
      ByteSum(v);
      assert Bit(v, 0) <==> 0 < n;
      assert Bit(v, 1) <==> 1 < n;
      assert Bit(v, 2) <==> 2 < n;
      assert Bit(v, 3) <==> 3 < n;
      assert Bit(v, 4) <==> 4 < n;
      assert Bit(v, 5) <==> 5 < n;
      assert Bit(v, 6) <==> 6 < n;
      assert Bit(v, 7) <==> 7 < n;
    }
    MaskByteBits(n);
  }

  lemma MaskByteBits(n: nat)
    requires n <= 8
    ensures forall j: nat :: j < 8 ==> (Bit(MaskByte(n), j) <==> j < n)
  {
    assert MaskByte(n) == [0, 128, 192, 224, 240, 248, 252, 254, 255][n];
  }

  lemma MaskByteOnes(n: nat)
    requires n <= 8
    ensures Rest(MaskByte(n)) == 0 && Ones(MaskByte(n)) == n
  {
    assert Ones(0) == 0 && Rest(0) == 0;
    assert Ones(128) == 1 + Ones(0) && Rest(128) == Rest(0);
    assert Ones(192) == 1 + Ones(128) && Rest(192) == Rest(128);
    assert Ones(224) == 1 + Ones(192) && Rest(224) == Rest(192);
    assert Ones(240) == 1 + Ones(224) && Rest(240) == Rest(224);
    assert Ones(248) == 1 + Ones(240) && Rest(248) == Rest(240);
    assert Ones(252) == 1 + Ones(248) && Rest(252) == Rest(248);
    assert Ones(254) == 1 + Ones(252) && Rest(254) == Rest(252);
    assert Ones(255) == 1 + Ones(254) && Rest(255) == Rest(254);
  }

  /** The bits of a mask, byte by byte. */
  lemma PrefixMaskBytes(m: seq<Byte>, p: nat)
    requires m != []
    ensures IsPrefixMask(m, p) <==>
      && p <= 8 * |m|
      && m[0] == MaskByte(if p < 8 then p else 8)
      && IsPrefixMask(m[1..], Less(p))
  {
    var n := if p < 8 then p else 8;
    ByteBits(m[0], n);
    var t := m[1..];
    forall i: nat | i < 8 * |t|
      ensures BitAt(t, i) == BitAt(m, i + 8)
    {
      assert (i + 8) / 8 == i / 8 + 1;
    }
    if IsPrefixMask(m, p) {
      forall j: nat | j < 8 ensures Bit(m[0], j) <==> j < n {
        assert BitAt(m, j) == Bit(m[0], j);
      }
    }
    if p <= 8 * |m| && m[0] == MaskByte(n) && IsPrefixMask(t, Less(p)) {
      forall i: nat | i < 8 * |m| ensures BitAt(m, i) <==> i < p {
        if i < 8 {
          assert BitAt(m, i) == Bit(m[0], i);
        } else {
          assert BitAt(t, i - 8) == BitAt(m, i);
        }
      }
    }
  }

  lemma {:induction false} ZeroMask(m: seq<Byte>)
    ensures IsPrefixMask(m, 0) <==> forall i :: 0 <= i < |m| ==> m[i] == 0
  {
    if m == [] {
    } else {
      ZeroMask(m[1..]);
      PrefixMaskBytes(m, 0);
      assert forall i :: 1 <= i < |m| ==> m[i] == m[1..][i - 1];
      assert (forall i :: 0 <= i < |m[1..]| ==> m[1..][i] == 0) ==> forall i :: 1 <= i < |m| ==> m[i] == 0;
    }
  }

  /** Size accepts a mask exactly when it is some number of ones followed by
      zeros, and gives that number. */
  lemma {:induction false} MaskLengthExact(m: seq<Byte>, p: nat)
    ensures MaskLength(m) == Some(p) <==> IsPrefixMask(m, p)
  {
    if m == [] {
    } else {
      PrefixMaskBytes(m, p);
      ByteTable(m[0]);
      if p <= 8 { MaskByteOnes(p); }
      if m[0] == 255 {
        MaskByteOnes(8);
        if p >= 8 { MaskLengthExact(m[1..], p - 8); }
      } else {
        ZeroMask(m[1..]);
        assert (exists i :: 1 <= i < |m| && m[i] != 0) <==> exists i :: 0 <= i < |m[1..]| && m[1..][i] != 0 by {
          assert forall i :: 1 <= i < |m| ==> m[i] == m[1..][i - 1];
        }
      }
    }
  }

  /** CIDRMask builds the mask of its length. */
  lemma CIDRMaskBits(p: nat)
    requires p <= 32
    ensures IsPrefixMask(Bytes(CIDRMask(p)), p)
  {
    var m := Bytes(CIDRMask(p));
    ZeroMask([]);
    PrefixMaskBytes(m, p);
    PrefixMaskBytes(m[1..], Less(p));
    PrefixMaskBytes(m[1..][1..], Less(Less(p)));
    PrefixMaskBytes(m[1..][1..][1..], Less(Less(Less(p))));
  }

  /** And it is the only one. */
  lemma {:induction false} PrefixMaskUnique(m: seq<Byte>, n: seq<Byte>, p: nat)
    requires |m| == |n| && IsPrefixMask(m, p) && IsPrefixMask(n, p)
    ensures m == n
  {
    if m == [] {
    } else {
      PrefixMaskBytes(m, p);
      PrefixMaskBytes(n, p);
      PrefixMaskUnique(m[1..], n[1..], Less(p));
      assert m == [m[0]] + m[1..] && n == [n[0]] + n[1..];
    }
  }

  // ---------- Printing and parsing ----------

  lemma DigitRoundTrip(n: int)
    requires 0 <= n < 10
    ensures DigitValue(Digit(n)) == Some(n) && Digit(n) != '.' && Digit(n) != ':' && Digit(n) != '%'
    ensures 0 < n ==> Digit(n) != '0'
  {
  }

  lemma DigitCanonical(c: char)
    requires DigitValue(c).Some?
    ensures 0 <= DigitValue(c).value < 10 && Digit(DigitValue(c).value) == c
    ensures c != '0' ==> 0 < DigitValue(c).value
  {
  }

  lemma DigitsValue(s: string, c: char)
    ensures DecimalValue(s + [c]) ==
      match (DecimalValue(s), DigitValue(c))
      case (Some(n), Some(d)) => Some(10 * n + d)
      case _ => None
  {
    assert Init(s + [c]) == s;
  }

  /** The value of up to three digits. */
  lemma ShortValue(a: char, b: char, c: char)
    ensures DecimalValue([a]) == DigitValue(a)
    ensures DigitValue(a).Some? && DigitValue(b).Some? ==>
      DecimalValue([a, b]) == Some(10 * DigitValue(a).value + DigitValue(b).value)
    ensures DecimalValue([a, b]).Some? ==> DigitValue(a).Some? && DigitValue(b).Some?
    ensures DigitValue(a).Some? && DigitValue(b).Some? && DigitValue(c).Some? ==>
      DecimalValue([a, b, c]) == Some(100 * DigitValue(a).value + 10 * DigitValue(b).value + DigitValue(c).value)
    ensures DecimalValue([a, b, c]).Some? ==> DigitValue(a).Some? && DigitValue(b).Some? && DigitValue(c).Some?
  {
    DigitsValue("", a);
    DigitsValue([a], b);
    DigitsValue([a, b], c);
    assert "" + [a] == [a] && [a] + [b] == [a, b] && [a, b] + [c] == [a, b, c];
    hide DigitValue;
  }

  lemma OctetRoundTrip(n: Byte)
    ensures ParseOctet(PrintOctet(n)) == Some(n)
    ensures '.' !in PrintOctet(n) && ':' !in PrintOctet(n) && '%' !in PrintOctet(n) && PrintOctet(n) != ""
  {
    hide Digit, DigitValue, DecimalValue;
    DigitRoundTrip(n % 10);
    if n < 10 {
      ShortValue(Digit(n), '0', '0');
    } else if n < 100 {
      DigitRoundTrip(n / 10);
      ShortValue(Digit(n / 10), Digit(n % 10), '0');
    } else {
      DigitRoundTrip(n / 100);
      DigitRoundTrip(n / 10 % 10);
      ShortValue(Digit(n / 100), Digit(n / 10 % 10), Digit(n % 10));
      assert n == 100 * (n / 100) + 10 * (n / 10 % 10) + n % 10;
    }
  }

  /** No leading zeros: an octet has one spelling. */
  lemma OctetCanonical(s: string)
    requires ParseOctet(s).Some?
    ensures PrintOctet(ParseOctet(s).value) == s
  {
    hide Digit, DigitValue, DecimalValue;
    var a := s[0];
    var b := if |s| > 1 then s[1] else '0';
    var c := if |s| > 2 then s[2] else '0';
    assert s == [a] || s == [a, b] || s == [a, b, c];
    ShortValue(a, b, c);
    DigitCanonical(a);
    if |s| > 1 { DigitCanonical(b); }
    if |s| == 3 {
      DigitCanonical(c);
      HundredsDigits(DigitValue(a).value, DigitValue(b).value, DigitValue(c).value);
    }
  }

  lemma HundredsDigits(a: int, b: int, c: int)
    requires 0 <= a < 10 && 0 <= b < 10 && 0 <= c < 10
    ensures var n := 100 * a + 10 * b + c;
      n / 100 == a && n / 10 % 10 == b && n % 10 == c
  {
  }

  lemma FieldsStep(f: string, rest: string)
    requires '.' !in f
    ensures Fields(f) == [f] && Fields(f + "." + rest) == [f] + Fields(rest)
  {
    var s := f + "." + rest;
    var e := FieldEnd(s, 0);
    assert s[|f|] == '.';
    assert forall j :: 0 <= j < |f| ==> s[j] == f[j];
    assert e == |f|;
    assert s[..e] == f && s[e + 1..] == rest;
    var g := FieldEnd(f, 0);
    assert g == |f|;
  }

  lemma QuadRoundTrip(q: Quad)
    ensures ParseQuad(PrintQuad(q)) == Some(q)
    ensures Notation(PrintQuad(q), 0) == Some('.')
  {
    var a, b, c, d := PrintOctet(q.a), PrintOctet(q.b), PrintOctet(q.c), PrintOctet(q.d);
    OctetRoundTrip(q.a);
    OctetRoundTrip(q.b);
    OctetRoundTrip(q.c);
    OctetRoundTrip(q.d);
    hide PrintOctet, ParseOctet, Fields, Notation;
    FourFields(a, b, c, d);
    assert PrintQuad(q) == a + "." + (b + "." + (c + "." + d));
    FirstDot(a, b + "." + (c + "." + d), 0);
  }

  lemma FourFields(a: string, b: string, c: string, d: string)
    requires '.' !in a && '.' !in b && '.' !in c && '.' !in d
    ensures Fields(a + "." + (b + "." + (c + "." + d))) == [a, b, c, d]
  {
    FieldsStep(d, "");
    FieldsStep(c, d);
    FieldsStep(b, c + "." + d);
    FieldsStep(a, b + "." + (c + "." + d));
    hide Fields;
    assert [a] + ([b] + ([c] + [d])) == [a, b, c, d];
  }

  lemma FirstDot(a: string, rest: string, k: nat)
    requires '.' !in a && ':' !in a && '%' !in a && k <= |a|
    ensures Notation(a + "." + rest, k) == Some('.')
    decreases |a| - k
  {
    if k < |a| {
      assert (a + "." + rest)[k] == a[k];
      FirstDot(a, rest, k + 1);
    }
  }

  function Join(f: seq<string>): string
    requires f != []
  {
    if |f| == 1 then f[0] else f[0] + "." + Join(f[1..])
  }

  lemma {:induction false} FieldsJoin(s: string)
    ensures Fields(s) != [] && Join(Fields(s)) == s
    decreases |s|
  {
    var e := FieldEnd(s, 0);
    if e == |s| {
    } else {
      var tail := s[e + 1..];
      FieldsJoin(tail);
      assert Fields(s) == [s[..e]] + Fields(tail);
      hide Fields;
      SplitAtDot(s, e);
      assert Fields(s)[1..] == Fields(tail);
    }
  }

  lemma SplitAtDot(s: string, e: nat)
    requires e < |s| && s[e] == '.'
    ensures s == s[..e] + "." + s[e + 1..]
  {
  }

  lemma JoinFour(f: seq<string>)
    requires |f| == 4
    ensures Join(f) == f[0] + "." + (f[1] + "." + (f[2] + "." + f[3]))
  {
    assert Join(f[1..][1..]) == f[2] + "." + f[3];
    assert Join(f[1..]) == f[1] + "." + Join(f[1..][1..]);
  }

  lemma QuadCanonical(s: string)
    requires ParseQuad(s).Some?
    ensures PrintQuad(ParseQuad(s).value) == s
  {
    hide PrintOctet, ParseOctet, Fields, Join;
    var f := Fields(s);
    FieldsJoin(s);
    JoinFour(f);
    OctetCanonical(f[0]);
    OctetCanonical(f[1]);
    OctetCanonical(f[2]);
    OctetCanonical(f[3]);
    assert PrintQuad(ParseQuad(s).value) == f[0] + "." + (f[1] + "." + (f[2] + "." + f[3]));
  }

  // ---------- The two functions are inverses ----------

  /** netmaskToPrefix accepts a netmask exactly when its four bytes are some
      ones followed by zeros, and returns how many. */
  lemma AcceptedMasks(v6: string -> Option<Quad>, netmask: string, p: nat)
    ensures NetmaskToPrefix(v6, netmask) == Some(p) <==>
      ParseIP4(v6, netmask).Some? && IsPrefixMask(Bytes(ParseIP4(v6, netmask).value), p)
  {
    if ParseIP4(v6, netmask).Some? {
      MaskLengthExact(Bytes(ParseIP4(v6, netmask).value), p);
    }
  }

  /** Every prefix length survives the trip through a netmask. */
  lemma PrefixRoundTrip(v6: string -> Option<Quad>, p: nat)
    requires p <= 32
    ensures NetmaskToPrefix(v6, PrefixToNetmask(p).value) == Some(p)
  {
    QuadRoundTrip(CIDRMask(p));
    CIDRMaskBits(p);
    MaskLengthExact(Bytes(CIDRMask(p)), p);
  }

  /** An accepted netmask survives the trip through a prefix length exactly
      when it was written in dotted decimal; an IPv6 spelling of it does not. */
  lemma NetmaskRoundTrip(v6: string -> Option<Quad>, netmask: string, p: nat)
    requires NetmaskToPrefix(v6, netmask) == Some(p)
    ensures p <= 32
    ensures PrefixToNetmask(p) == Some(netmask) <==> ParseQuad(netmask).Some?
  {
    AcceptedMasks(v6, netmask, p);
    var q := ParseIP4(v6, netmask).value;
    CIDRMaskBits(p);
    PrefixMaskUnique(Bytes(q), Bytes(CIDRMask(p)), p);
    SameQuad(q, CIDRMask(p));
    QuadRoundTrip(q);
    hide Bytes, CIDRMask, MaskLength, IsPrefixMask;
    if ParseQuad(netmask).Some? {
      QuadCanonical(netmask);
      DottedNotation(netmask);
    }
  }

  lemma SameQuad(q: Quad, r: Quad)
    requires Bytes(q) == Bytes(r)
    ensures q == r
  {
    assert Bytes(q)[0] == q.a && Bytes(q)[1] == q.b && Bytes(q)[2] == q.c && Bytes(q)[3] == q.d;
    assert Bytes(r)[0] == r.a && Bytes(r)[1] == r.b && Bytes(r)[2] == r.c && Bytes(r)[3] == r.d;
  }

  lemma DottedNotation(s: string)
    requires ParseQuad(s).Some?
    ensures Notation(s, 0) == Some('.')
  {
    QuadCanonical(s);
    QuadRoundTrip(ParseQuad(s).value);
  }

  /** Spelt as an IPv4-mapped IPv6 address, a netmask is accepted and comes back
      in dotted decimal. */
  lemma SpellingCanChange(v6: string -> Option<Quad>)
    requires v6("::ffff:255.255.255.0") == Some(Quad(255, 255, 255, 0))
    ensures NetmaskToPrefix(v6, "::ffff:255.255.255.0") == Some(24)
    ensures PrefixToNetmask(24).Some? && PrefixToNetmask(24).value != "::ffff:255.255.255.0"
  {
    var s := "::ffff:255.255.255.0";
    assert Notation(s, 0) == Some(':');
    assert CIDRMask(24) == Quad(255, 255, 255, 0);
    CIDRMaskBits(24);
    MaskLengthExact(Bytes(CIDRMask(24)), 24);
    hide MaskLength, CIDRMask, Bytes, IsPrefixMask, ParseQuad, PrintQuad;
    NetmaskRoundTrip(v6, s, 24);
    if ParseQuad(s).Some? { DottedNotation(s); }
  }
}
