/** JSON texts as RFC 8259 and the HTML-safe encoder write them, and their lengths. */
module Json {
  import opened Basics
  import Utf8

  const QUOTE: byte := 34
  const COMMA: byte := 44

  function Hex(d: byte): byte
    requires d < 16
  {
    if d < 10 then 48 + d else 87 + d
  }

  predicate LineSeparator(s: Str) { |s| >= 3 && s[0] == 0xE2 && s[1] == 0x80 && (s[2] == 0xA8 || s[2] == 0xA9) }

  /** What the front of a string becomes, and how many bytes of it that consumes. */
  function Escape(s: Str): (r: (Str, nat))
    requires s != []
    ensures 0 < r.1 <= |s|
  {
    var b := s[0];
    if b == QUOTE || b == 92 then ([92, b], 1)
    else if b == 8 then ([92, 98], 1)
    else if b == 12 then ([92, 102], 1)
    else if b == 10 then ([92, 110], 1)
    else if b == 13 then ([92, 114], 1)
    else if b == 9 then ([92, 116], 1)
    else if b == 60 || b == 62 || b == 38 || b < 32 then ([92, 117, 48, 48, Hex(b / 16), Hex(b % 16)], 1)
    else if Utf8.Width(s) == 0 then (Bytes("\\ufffd"), 1)
    else if LineSeparator(s) then (Bytes("\\u202") + [s[2] - 112], 3)
    else (s[..Utf8.Width(s)], Utf8.Width(s))
  }

  function Escaped(s: Str): Str {
    if s == [] then [] else Escape(s).0 + Escaped(s[Escape(s).1..])
  }

  /** A JSON string. */
  function Quoted(s: Str): Str { [QUOTE] + Escaped(s) + [QUOTE] }

  /** Bytes at which no character starts; the encoder replaces each. */
  function BadBytes(s: Str): nat {
    if s == [] then 0 else (if Utf8.Width(s) == 0 then 1 else 0) + BadBytes(s[Escape(s).1..])
  }

  lemma {:induction false} NoBadBytes(s: Str)
    ensures BadBytes(s) == 0 <==> Utf8.Valid(s)
  {
    if s != [] {
      if Utf8.Width(s) > 0 { assert Escape(s).1 == Utf8.Width(s); }
      NoBadBytes(s[Escape(s).1..]);
    }
  }

  // ------------------------------------------------------------ reading text back

  function Digit(c: byte): byte {
    if 48 <= c <= 57 then c - 48 else if 97 <= c <= 102 then c - 87 else 0
  }

  /** What a reader makes of the front of a string's body: one byte, or an escape sequence, and its length. */
  function Unescape(t: Str): (r: (Str, nat))
    requires t != []
    ensures 0 < r.1
  {
    if t[0] != 92 || |t| == 1 then ([t[0]], 1)
    else if t[1] == 98 then ([8], 2)
    else if t[1] == 102 then ([12], 2)
    else if t[1] == 110 then ([10], 2)
    else if t[1] == 114 then ([13], 2)
    else if t[1] == 116 then ([9], 2)
    else if t[1] == 117 && |t| >= 6 then
      var code := ((Digit(t[2]) as nat * 16 + Digit(t[3]) as nat) * 16 + Digit(t[4]) as nat) * 16 + Digit(t[5]) as nat;
      (if 0xD800 <= code <= 0xDFFF then [] else Utf8.Encode(code), 6)
    else ([t[1]], 2)
  }

  /** The body of a JSON string as RFC 8259, section 7, reads it. */
  function Unescaped(t: Str): Str {
    if t == [] then []
    else
      var (front, n) := Unescape(t);
      front + if n <= |t| then Unescaped(t[n..]) else []
  }

  predicate Straight(part: Str) { forall c :: c in part ==> c != 92 }

  lemma OneRead(t: Str)
    requires t != [] && t[0] != 92
    ensures Unescaped(t) == [t[0]] + Unescaped(t[1..])
  {}

  lemma {:induction false} StraightRead(part: Str, rest: Str)
    requires Straight(part)
    ensures Unescaped(part + rest) == part + Unescaped(rest)
  {
    hide Unescaped, Unescape;
    if part == [] {
      assert part + rest == rest;
    } else {
      assert part[0] in part && forall c :: c in part[1..] ==> c in part;
      StraightRead(part[1..], rest);
      OneRead(part + rest);
      assert (part + rest)[1..] == part[1..] + rest;
      assert part == [part[0]] + part[1..];
    }
  }

  lemma ControlRead(b: byte, rest: Str)
    requires b == 60 || b == 62 || b == 38 || b < 32
    ensures Unescape([92, 117, 48, 48, Hex(b / 16), Hex(b % 16)] + rest) == ([b], 6)
  {}

  lemma SeparatorRead(s: Str, rest: Str)
    requires LineSeparator(s)
    ensures Unescape(Bytes("\\u202") + [s[2] - 112] + rest) == (s[..3], 6)
  {
    var t := Bytes("\\u202") + [s[2] - 112] + rest;
    assert Bytes("\\u202") == [92, 117, 50, 48, 50];
    assert t[0] == 92 && t[1] == 117 && t[2] == 50 && t[3] == 48 && t[4] == 50 && t[5] == s[2] - 112;
    assert s[..3] == [0xE2, 0x80, s[2]];
    if s[2] == 0xA8 {
      assert Digit(t[5]) == 8 && Utf8.Encode(0x2028) == [0xE2, 0x80, 0xA8];
    } else {
      assert Digit(t[5]) == 9 && Utf8.Encode(0x2029) == [0xE2, 0x80, 0xA9];
    }
  }

  /** An escape sequence in front. */
  lemma SequenceRead(part: Str, rest: Str, front: Str)
    requires part != [] && Unescape(part + rest) == (front, |part|)
    ensures Unescaped(part + rest) == front + Unescaped(rest)
  {
    hide Unescape;
    assert (part + rest)[|part|..] == rest;
  }

  lemma FrontRead(s: Str, rest: Str)
    requires s != [] && Utf8.Width(s) > 0
    ensures Unescaped(Escape(s).0 + rest) == s[..Escape(s).1] + Unescaped(rest)
  {
    hide Unescaped, Utf8.Width;
    var (part, n) := Escape(s);
    var b := s[0];
    if b == QUOTE || b == 92 || b == 8 || b == 12 || b == 10 || b == 13 || b == 9 {
      SequenceRead(part, rest, [b]);
    } else if b == 60 || b == 62 || b == 38 || b < 32 {
      ControlRead(b, rest);
      SequenceRead(part, rest, [b]);
    } else if LineSeparator(s) {
      SeparatorRead(s, rest);
      SequenceRead(part, rest, s[..3]);
    } else {
      WidthStraight(s);
      StraightRead(part, rest);
    }
  }

  lemma WidthStraight(s: Str)
    requires s != [] && Utf8.Width(s) > 0 && s[0] != 92
    ensures Straight(s[..Utf8.Width(s)])
  {
    forall c | c in s[..Utf8.Width(s)] ensures c != 92 {
      var i :| 0 <= i < Utf8.Width(s) && s[i] == c;
    }
  }

  /** Whoever reads an encoded string gets the string, if that is valid UTF-8. */
  lemma {:induction false} EncodingIsUndone(s: Str)
    requires Utf8.Valid(s)
    ensures Unescaped(Escaped(s)) == s
  {
    hide Escape, Unescape, Utf8.Width;
    if s != [] {
      WidthTaken(s);
      EncodingIsUndone(s[Escape(s).1..]);
      FrontRead(s, Escaped(s[Escape(s).1..]));
      assert s == s[..Escape(s).1] + s[Escape(s).1..];
    }
  }

  lemma WidthTaken(s: Str)
    requires s != [] && Utf8.Width(s) > 0
    ensures Escape(s).1 == Utf8.Width(s)
  {}

  /** An encoded string can stand in a script: it has no control characters, angle brackets or ampersands. */
  lemma {:induction false} EncodingIsSafe(s: Str)
    ensures forall c :: c in Escaped(s) ==> c >= 32 && c !in {60, 62, 38}
  {
    if s != [] {
      EncodingIsSafe(s[Escape(s).1..]);
      FrontIsSafe(s);
    }
  }

  lemma FrontIsSafe(s: Str)
    requires s != []
    ensures forall c :: c in Escape(s).0 ==> c >= 32 && c !in {60, 62, 38}
  {
    if Escape(s).0 == s[..Utf8.Width(s)] {
      forall c | c in s[..Utf8.Width(s)] ensures c >= 32 && c !in {60, 62, 38} {
        var i :| 0 <= i < Utf8.Width(s) && s[i] == c;
      }
    } else {
      assert Bytes("\\ufffd") == [92, 117, 102, 102, 102, 100] && Bytes("\\u202") == [92, 117, 50, 48, 50];
    }
  }

  /** `jsonPlainByteSize`: the bytes that stand for themselves. */
  predicate Plain(b: byte) { 32 <= b < 128 && b !in {QUOTE, 92, 60, 62, 38} }

  /** One turn of the measuring loop. */
  method MeasureNext(rest: Str) returns (size: nat, taken: nat)
    requires rest != []
    ensures taken == Escape(rest).1 && size == StepSize(rest)
  {
    if Plain(rest[0]) { return 1, 1; }
    match rest[0] as int {
      case 34 | 92 | 8 | 12 | 10 | 13 | 9 => return 2, 1;
      case 60 | 62 | 38 => return 6, 1;
      case _ =>
        if rest[0] < 32 { return 6, 1; }
        var width := Utf8.Width(rest);
        if width == 0 { return 3, 1; }
        return if LineSeparator(rest) then 6 else width, width;
    }
  }

  /** `jsonStringSize`: the length of the JSON string, short of three for every bad byte. */
  method MeasureString(value: Str) returns (n: nat)
    ensures n + 3 * BadBytes(value) == |Quoted(value)|
    ensures n == StringSize(value)
  {
    n := 2;
    var i := 0;
    while i < |value|
      invariant 0 <= i <= |value| && n + BodySize(value[i..]) == StringSize(value)
      decreases |value| - i
    {
      var size, taken := MeasureNext(value[i..]);
      assert value[i + taken..] == value[i..][taken..];
      n, i := n + size, i + taken;
    }
    SizeIsNatural(value);
  }

  function StepSize(s: Str): nat
    requires s != []
  {
    if Utf8.Width(s) == 0 then 3 else |Escape(s).0|
  }

  /** What `MeasureString` computes. */
  function StringSize(s: Str): nat { 2 + BodySize(s) }

  function BodySize(s: Str): nat {
    if s == [] then 0
    else StepSize(s) + BodySize(s[Escape(s).1..])
  }

  lemma {:induction false} SizeIsNatural(s: Str)
    ensures BodySize(s) + 3 * BadBytes(s) == |Escaped(s)|
  {
    if s != [] { SizeIsNatural(s[Escape(s).1..]); }
  }

  /** The measured size is the length of the JSON string exactly for valid UTF-8. */
  lemma SizeIsExactForUtf8(s: Str)
    ensures StringSize(s) == |Quoted(s)| <==> Utf8.Valid(s)
    ensures StringSize(s) <= |Quoted(s)|
  {
    SizeIsNatural(s);
    NoBadBytes(s);
  }

  function Digits(n: nat): (r: Str)
    ensures |r| > 0
  {
    if n < 10 then [48 + n as byte] else Digits(n / 10) + [48 + (n % 10) as byte]
  }

  /** Decimal notation. */
  function Decimal(n: int): (r: Str)
    ensures |r| > 0
  {
    if n < 0 then [45] + Digits(-n) else Digits(n)
  }

  function Bool(b: bool): Str { if b then Bytes("true") else Bytes("false") }

  /** Parts separated by commas. */
  function Joined(parts: seq<Str>): Str {
    if parts == [] then []
    else if |parts| == 1 then parts[0]
    else Joined(parts[..|parts| - 1]) + [COMMA] + parts[|parts| - 1]
  }

  function Commas(n: nat): nat { if n == 0 then 0 else n - 1 }

  /** The sum of the sizes of the elements. */
  function Sum<T(!new)>(xs: seq<T>, size: T -> nat): nat {
    if xs == [] then 0 else Sum(xs[..|xs| - 1], size) + size(xs[|xs| - 1])
  }

  lemma {:induction false} JoinedLength(parts: seq<Str>)
    ensures |Joined(parts)| == Commas(|parts|) + Sum(parts, (p: Str) => |p|)
  {
    if |parts| > 1 { JoinedLength(parts[..|parts| - 1]); }
    else if |parts| == 1 { assert parts[..0] == []; }
  }

  function Array(parts: seq<Str>): Str { [91] + Joined(parts) + [93] }

  function Object(members: seq<Str>): Str { [123] + Joined(members) + [125] }

  function Member(key: Str, value: Str): Str { [QUOTE] + key + [QUOTE, 58] + value }

  /** The members' lengths, each with a comma behind it. */
  function Total(members: seq<Str>): nat { Sum(members, (m: Str) => |m|) + |members| }

  /** `estimateJSONMemberSize`: a member with the comma behind it. */
  function MemberSize(key: string, valueSize: nat): nat { |key| + 4 + valueSize }

  function OptionalMember(present: bool, key: string, valueSize: nat): nat {
    if present then MemberSize(key, valueSize) else 0
  }

  /** One more member, if it is there. */
  function Put(members: seq<Str>, present: bool, key: string, value: Str): (r: seq<Str>)
    ensures Total(r) == Total(members) + OptionalMember(present, key, |value|)
  {
    if present then
      var r := members + [Member(Bytes(key), value)];
      assert r[..|r| - 1] == members;
      r
    else members
  }

  lemma NoMembers()
    ensures Total([]) == 0
  {}

  lemma ObjectLength(members: seq<Str>)
    ensures |Object(members)| == 2 + Total(members) - if Total(members) == 0 then 0 else 1
  {
    JoinedLength(members);
  }

  function Texts<T(!new)>(xs: seq<T>, text: T -> Str): (r: seq<Str>)
    ensures |r| == |xs|
  {
    if xs == [] then [] else Texts(xs[..|xs| - 1], text) + [text(xs[|xs| - 1])]
  }

  /** A list whose elements are short of their sizes by `slack` is short of the sum of the sizes by the sum
      of the slacks. */
  lemma ListFits<T(!new)>(xs: seq<T>, text: T -> Str, size: T -> nat, slack: T -> nat)
    requires forall x :: x in xs ==> size(x) == |text(x)| + slack(x)
    ensures Commas(|xs|) + Sum(xs, size) == |Joined(Texts(xs, text))| + Sum(xs, slack)
  {
    JoinedLength(Texts(xs, text));
    TextsSum(xs, text, size, slack);
  }

  lemma {:induction false} TextsSum<T(!new)>(xs: seq<T>, text: T -> Str, size: T -> nat, slack: T -> nat)
    requires forall x :: x in xs ==> size(x) == |text(x)| + slack(x)
    ensures Sum(xs, size) == Sum(Texts(xs, text), (p: Str) => |p|) + Sum(xs, slack)
  {
    if xs != [] {
      var init := xs[..|xs| - 1];
      TextsSum(init, text, size, slack);
      var parts := Texts(xs, text);
      assert parts[..|parts| - 1] == Texts(init, text);
    }
  }

  /** One string whose size is wrong: a single byte that no character starts with. */
  lemma OneBadByte()
    ensures StringSize([0xFF]) == 5 && |Quoted([0xFF])| == 8
  {
    assert Escape([0xFF]) == (Bytes("\\ufffd"), 1);
    assert [0xFF][1..] == [];
  }
}
