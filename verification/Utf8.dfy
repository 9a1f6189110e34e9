/** UTF-8 as RFC 3629 defines it, read the way Go's decoder reads it. */
module Utf8 {
  import opened Basics

  predicate Tail(s: Str, i: nat, low: byte, high: byte) { i < |s| && low <= s[i] <= high }

  /** The length of the encoded character at the front, or 0 if there is none. */
  function Width(s: Str): (n: nat)
    ensures n <= |s| && n <= 4
  {
    if s == [] then 0
    else
      var b := s[0];
      if b < 0x80 then 1
      else if 0xC2 <= b <= 0xDF then if Tail(s, 1, 0x80, 0xBF) then 2 else 0
      else if 0xE0 <= b <= 0xEF then
        var low, high := if b == 0xE0 then 0xA0 else 0x80, if b == 0xED then 0x9F else 0xBF;
        if Tail(s, 1, low, high) && Tail(s, 2, 0x80, 0xBF) then 3 else 0
      else if 0xF0 <= b <= 0xF4 then
        var low, high := if b == 0xF0 then 0x90 else 0x80, if b == 0xF4 then 0x8F else 0xBF;
        if Tail(s, 1, low, high) && Tail(s, 2, 0x80, 0xBF) && Tail(s, 3, 0x80, 0xBF) then 4 else 0
      else 0
  }

  predicate Valid(s: Str) {
    s == [] || (Width(s) > 0 && Valid(s[Width(s)..]))
  }

  /** The longest valid prefix within a limit. */
  function LongestValid(value: Str, limit: nat): (r: Str)
    requires limit <= |value|
    ensures r <= value && |r| <= limit && Valid(r)
    ensures forall n :: |r| < n <= limit ==> !Valid(value[..n])
  {
    if limit == 0 || Valid(value[..limit]) then value[..limit] else LongestValid(value, limit - 1)
  }

  /** `truncateUTF8`: the longest valid prefix within the limit, if the string exceeds it. */
  method Truncate(value: Str, maxBytes: int) returns (r: Str, cut: bool)
    ensures cut <==> |value| > (if maxBytes < 0 then 0 else maxBytes)
    ensures !cut ==> r == value
    ensures cut ==> r == LongestValid(value, if maxBytes < 0 then 0 else maxBytes)
  {
    var limit := if maxBytes < 0 then 0 else maxBytes;
    if |value| <= limit { return value, false; }
    r := value[..limit];
    while r != [] && !Valid(r)
      invariant |r| <= limit && r == value[..|r|] && LongestValid(value, |r|) == LongestValid(value, limit)
      decreases |r|
    {
      r := r[..|r| - 1];
    }
    return r, true;
  }

  /** Text of seven-bit characters is valid. */
  lemma {:induction false} SevenBit(s: Str)
    requires forall c :: c in s ==> c < 0x80
    ensures Valid(s)
  {
    if s != [] {
      assert s[0] in s && forall c :: c in s[1..] ==> c in s;
      SevenBit(s[1..]);
    }
  }

  // ------------------------------------------------------------ what validity means

  /** A Unicode scalar value: a code point that is not a surrogate. */
  type Scalar = c: nat | c < 0x11_0000 && !(0xD800 <= c <= 0xDFFF)

  /** The encoding of one scalar value, by RFC 3629, section 3. */
  function Encode(c: Scalar): (r: Str)
    ensures 0 < |r| <= 4
  {
    if c < 0x80 then [c as byte]
    else if c < 0x800 then [(0xC0 + c / 64) as byte, (0x80 + c % 64) as byte]
    else if c < 0x1_0000 then [(0xE0 + c / 64 / 64) as byte, (0x80 + c / 64 % 64) as byte, (0x80 + c % 64) as byte]
    else
      [(0xF0 + c / 64 / 64 / 64) as byte, (0x80 + c / 64 / 64 % 64) as byte, (0x80 + c / 64 % 64) as byte, (0x80 + c % 64) as byte]
  }

  function EncodeAll(cs: seq<Scalar>): Str { if cs == [] then [] else Encode(cs[0]) + EncodeAll(cs[1..]) }

  /** The scalar value at the front. */
  function First(s: Str): (c: Scalar)
    requires Width(s) > 0
  {
    var w := Width(s);
    if w == 1 then s[0] as nat
    else if w == 2 then (s[0] as nat - 0xC0) * 64 + (s[1] as nat - 0x80)
    else if w == 3 then ((s[0] as nat - 0xE0) * 64 + (s[1] as nat - 0x80)) * 64 + (s[2] as nat - 0x80)
    else (((s[0] as nat - 0xF0) * 64 + (s[1] as nat - 0x80)) * 64 + (s[2] as nat - 0x80)) * 64 + (s[3] as nat - 0x80)
  }

  lemma EncodedWidth(c: Scalar, rest: Str)
    ensures Width(Encode(c) + rest) == |Encode(c)|
  {}

  lemma LastDigit(a: nat, b: nat)
    requires b < 64
    ensures (a * 64 + b) / 64 == a && (a * 64 + b) % 64 == b
  {}

  lemma TwoBytes(a: nat, b: nat)
    requires 2 <= a < 32 && b < 64
    ensures Encode(a * 64 + b) == [(0xC0 + a) as byte, (0x80 + b) as byte]
  {
    LastDigit(a, b);
  }

  lemma ThreeBytes(a: nat, b: nat, c: nat)
    requires a < 16 && b < 64 && c < 64 && (a == 0 ==> b >= 32) && (a == 13 ==> b < 32)
    ensures Encode((a * 64 + b) * 64 + c) == [(0xE0 + a) as byte, (0x80 + b) as byte, (0x80 + c) as byte]
  {
    LastDigit(a, b);
    LastDigit(a * 64 + b, c);
  }

  lemma FourBytes(a: nat, b: nat, c: nat, d: nat)
    requires a < 5 && b < 64 && c < 64 && d < 64 && (a == 0 ==> b >= 16) && (a == 4 ==> b < 16)
    ensures Encode(((a * 64 + b) * 64 + c) * 64 + d) ==
      [(0xF0 + a) as byte, (0x80 + b) as byte, (0x80 + c) as byte, (0x80 + d) as byte]
  {
    LastDigit(a, b);
    LastDigit(a * 64 + b, c);
    LastDigit((a * 64 + b) * 64 + c, d);
  }

  lemma FirstEncoded(s: Str)
    requires Width(s) > 0
    ensures Encode(First(s)) == s[..Width(s)]
  {
    var w := Width(s);
    if w == 1 {
      assert s[..1] == [s[0]];
    } else {
      hide Encode;
      if w == 2 {
        TwoBytes(s[0] as nat - 0xC0, s[1] as nat - 0x80);
      } else if w == 3 {
        ThreeBytes(s[0] as nat - 0xE0, s[1] as nat - 0x80, s[2] as nat - 0x80);
      } else {
        FourBytes(s[0] as nat - 0xF0, s[1] as nat - 0x80, s[2] as nat - 0x80, s[3] as nat - 0x80);
      }
    }
  }

  /** Text is valid exactly if it is the encoding of some scalar values. */
  lemma {:induction false} ValidIsEncoded(s: Str) returns (cs: seq<Scalar>)
    requires Valid(s)
    ensures EncodeAll(cs) == s
  {
    hide Encode, First, Width;
    if s == [] {
      cs := [];
    } else {
      FirstEncoded(s);
      var rest := ValidIsEncoded(s[Width(s)..]);
      cs := [First(s)] + rest;
    }
  }

  lemma {:induction false} EncodedIsValid(cs: seq<Scalar>)
    ensures Valid(EncodeAll(cs))
  {
    hide Encode, Width;
    if cs != [] {
      EncodedWidth(cs[0], EncodeAll(cs[1..]));
      EncodedIsValid(cs[1..]);
      assert EncodeAll(cs)[Width(EncodeAll(cs))..] == EncodeAll(cs[1..]);
    }
  }

  lemma WidthFront(s: Str, n: nat)
    requires Width(s) > 0 && Width(s) <= n <= |s|
    ensures Width(s[..n]) == Width(s)
  {}

  /** Valid text has a character boundary within three bytes below any limit. */
  lemma {:induction false} Boundary(s: Str, limit: nat) returns (n: nat)
    requires Valid(s) && limit <= |s|
    ensures n <= limit < n + 4 && Valid(s[..n])
    decreases |s|
  {
    if s == [] || limit < Width(s) {
      n := 0;
    } else {
      var w := Width(s);
      var rest := Boundary(s[w..], limit - w);
      n := w + rest;
      WidthFront(s, n);
      assert s[..n][w..] == s[w..][..rest];
    }
  }

  /** Cutting valid text at a limit loses at most three bytes more than the limit asks for. */
  lemma LongestIsNear(s: Str, limit: nat)
    requires Valid(s) && limit <= |s|
    ensures |LongestValid(s, limit)| + 3 >= limit
  {
    var n := Boundary(s, limit);
  }
}
