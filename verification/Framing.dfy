/** Framing of EI messages on a byte stream, and their string arguments. */
module Framing {
  import opened Basics
  import Utf8

  const HEADER_SIZE := 16
  const MAXIMUM_MESSAGE := 0x10_0000

  // ------------------------------------------------------------------ integers

  function Power(width: nat): (p: nat)
    ensures p > 0
  {
    if width == 0 then 1 else 256 * Power(width - 1)
  }

  /** An unsigned integer in `width` bytes, least significant first. */
  function PutInt(n: nat, width: nat): (r: seq<byte>)
    ensures |r| == width
  {
    if width == 0 then [] else [(n % 256) as byte] + PutInt(n / 256, width - 1)
  }

  function GetInt(bytes: seq<byte>): nat {
    if bytes == [] then 0 else bytes[0] as nat + 256 * GetInt(bytes[1..])
  }

  lemma {:induction false} GetPut(n: nat, width: nat)
    requires n < Power(width)
    ensures GetInt(PutInt(n, width)) == n
    decreases width
  {
    if width > 0 {
      assert n / 256 < Power(width - 1);
      GetPut(n / 256, width - 1);
      assert PutInt(n, width)[1..] == PutInt(n / 256, width - 1);
    }
  }

  lemma {:induction false} PutGet(bytes: seq<byte>)
    ensures GetInt(bytes) < Power(|bytes|) && PutInt(GetInt(bytes), |bytes|) == bytes
  {
    if bytes != [] {
      PutGet(bytes[1..]);
      var rest := GetInt(bytes[1..]);
      assert GetInt(bytes) == bytes[0] as nat + 256 * rest;
      assert GetInt(bytes) % 256 == bytes[0] as nat && GetInt(bytes) / 256 == rest;
      assert bytes == [bytes[0]] + bytes[1..];
    }
  }

  lemma Powers()
    ensures Power(4) == 0x1_0000_0000 && Power(8) == 0x1_0000_0000_0000_0000
  {
    assert Power(1) == 256 && Power(2) == 65536 && Power(3) == 0x100_0000 && Power(4) == 0x1_0000_0000;
    assert Power(5) == 0x100_0000_0000 && Power(6) == 0x1_0000_0000_0000 && Power(7) == 0x100_0000_0000_0000;
  }

  // ------------------------------------------------------------------ messages

  datatype Message = Message(target: nat, opcode: nat, body: seq<byte>)

  function Zeros(n: nat): (r: seq<byte>)
    ensures |r| == n && forall i :: 0 <= i < n ==> r[i] == 0
  {
    seq(n, i => 0)
  }

  /** A body as it goes out: filled up to a multiple of four. */
  function Padded(body: seq<byte>): (r: seq<byte>)
    ensures |r| % 4 == 0 && |body| <= |r| < |body| + 4 && (|body| % 4 == 0 ==> r == body)
  {
    if |body| % 4 == 0 then body else body + Zeros(4 - |body| % 4)
  }

  /** `eiRequest`. */
  function Request(m: Message): (r: seq<byte>)
    ensures |r| == HEADER_SIZE + |Padded(m.body)|
  {
    var body := Padded(m.body);
    PutInt(m.target, 8) + PutInt(HEADER_SIZE + |body|, 4) + PutInt(m.opcode, 4) + body
  }

  /** Byte k of an integer is its k-th digit to the base 256. */
  lemma {:induction false} PutIntByte(n: nat, width: nat, k: nat)
    requires k < width
    ensures PutInt(n, width)[k] as nat == n / Power(k) % 256
    decreases width
  {
    if k > 0 {
      PutIntByte(n / 256, width - 1, k - 1);
      DivTwice(n, Power(k - 1));
    }
  }

  lemma DivTwice(n: nat, d: nat)
    requires d > 0
    ensures n / 256 / d == n / (256 * d)
  {
    var q, r := n / 256 / d, n / 256 % d;
    assert n == 256 * (d * q + r) + n % 256;
    assert n == 256 * d * q + (256 * r + n % 256);
    assert 256 * r + n % 256 < 256 * d;
    Quotient(n, 256 * d, q, 256 * r + n % 256);
  }

  lemma SmallMultiple(x: int, d: nat)
    requires 0 < x * d + d && x * d < d
    ensures x == 0
  {
    if x > 0 { Multiply(1, x, d); } else if x < 0 { Multiply(x, -1, d); }
  }

  lemma Quotient(n: nat, d: nat, q: nat, r: nat)
    requires n == d * q + r && r < d
    ensures n / d == q
  {
    assert n == d * (n / d) + n % d;
    assert (n / d - q) * d == r - n % d;
    SmallMultiple(n / d - q, d);
  }

  /** The layout of a request, byte for byte: object, size and opcode, least significant byte first, then the
      body and zeros up to a multiple of four. */
  lemma RequestBytes(m: Message, k: nat)
    requires k < |Request(m)|
    ensures Request(m)[k] as nat ==
      if k < 8 then m.target / Power(k) % 256
      else if k < 12 then |Request(m)| / Power(k - 8) % 256
      else if k < 16 then m.opcode / Power(k - 12) % 256
      else if k - 16 < |m.body| then m.body[k - 16] as nat
      else 0
  {
    hide PutInt;
    if k < 8 { PutIntByte(m.target, 8, k); }
    else if k < 12 { PutIntByte(|Request(m)|, 4, k - 8); }
    else if k < 16 { PutIntByte(m.opcode, 4, k - 12); }
  }

  /** Object and opcode fit their fields, the size is one the peer accepts. */
  predicate Legal(m: Message) {
    m.target < Power(8) && m.opcode < Power(4) && HEADER_SIZE + |Padded(m.body)| <= MAXIMUM_MESSAGE
  }

  function Stream(ms: seq<Message>): seq<byte> {
    if ms == [] then [] else Request(ms[0]) + Stream(ms[1..])
  }

  // -------------------------------------------------------------------- parsing

  /** The messages at the front of a buffer, what is left, and whether a size was invalid. */
  datatype Parsed = Parsed(messages: seq<Message>, rest: seq<byte>, broken: bool)

  predicate SizeInvalid(size: nat) { size < HEADER_SIZE || size > MAXIMUM_MESSAGE || size % 4 != 0 }

  function SizeOf(buffer: seq<byte>): nat
    requires |buffer| >= HEADER_SIZE
  {
    GetInt(buffer[8..12])
  }

  function FirstOf(buffer: seq<byte>): Message
    requires |buffer| >= HEADER_SIZE && SizeOf(buffer) <= |buffer| && !SizeInvalid(SizeOf(buffer))
  {
    Message(GetInt(buffer[..8]), GetInt(buffer[12..16]), buffer[16..SizeOf(buffer)])
  }

  function Parse(buffer: seq<byte>): Parsed
    decreases |buffer|
  {
    if |buffer| < HEADER_SIZE then Parsed([], buffer, false)
    else if SizeInvalid(SizeOf(buffer)) then Parsed([], buffer, true)
    else if |buffer| < SizeOf(buffer) then Parsed([], buffer, false)
    else
      var later := Parse(buffer[SizeOf(buffer)..]);
      Parsed([FirstOf(buffer)] + later.messages, later.rest, later.broken)
  }

  lemma HeaderStays(a: seq<byte>, b: seq<byte>)
    requires |a| >= HEADER_SIZE
    ensures SizeOf(a + b) == SizeOf(a) && (a + b)[..8] == a[..8] && (a + b)[12..16] == a[12..16]
  {
    assert (a + b)[8..12] == a[8..12];
  }

  /** One round of parsing. */
  lemma ParseOnce(buffer: seq<byte>)
    ensures |buffer| < HEADER_SIZE ==> Parse(buffer) == Parsed([], buffer, false)
    ensures |buffer| >= HEADER_SIZE && SizeInvalid(SizeOf(buffer)) ==> Parse(buffer) == Parsed([], buffer, true)
    ensures |buffer| >= HEADER_SIZE && !SizeInvalid(SizeOf(buffer)) && |buffer| < SizeOf(buffer) ==> Parse(buffer) == Parsed([], buffer, false)
    ensures |buffer| >= HEADER_SIZE && !SizeInvalid(SizeOf(buffer)) && |buffer| >= SizeOf(buffer) ==>
      var later := Parse(buffer[SizeOf(buffer)..]);
      Parse(buffer) == Parsed([FirstOf(buffer)] + later.messages, later.rest, later.broken)
  {}

  lemma FourBytes(bytes: seq<byte>)
    requires |bytes| == 4
    ensures GetInt(bytes) == bytes[0] as nat + 256 * bytes[1] as nat + 0x1_0000 * bytes[2] as nat + 0x100_0000 * bytes[3] as nat
  {
    assert GetInt(bytes[3..]) == bytes[3] as nat by { assert bytes[3..][1..] == []; }
    assert bytes[1..][1..] == bytes[2..] && bytes[2..][1..] == bytes[3..];
  }

  /** A stream is broken at its first message exactly if the size field there is below the header's, above a
      megabyte, or no multiple of four. */
  lemma BrokenExactly(buffer: seq<byte>)
    requires |buffer| >= 16
    ensures var size := buffer[8] as nat + 256 * buffer[9] as nat + 0x1_0000 * buffer[10] as nat + 0x100_0000 * buffer[11] as nat;
      Parse(buffer) == Parsed([], buffer, true) <==> size < 16 || size > 1_048_576 || size % 4 != 0
  {
    hide GetInt, Parse, FirstOf;
    FourBytes(buffer[8..12]);
    ParseOnce(buffer);
  }

  lemma FirstStays(a: seq<byte>, b: seq<byte>)
    requires |a| >= HEADER_SIZE && !SizeInvalid(SizeOf(a)) && |a| >= SizeOf(a)
    ensures SizeOf(a + b) == SizeOf(a) && FirstOf(a + b) == FirstOf(a) && HEADER_SIZE <= SizeOf(a)
  {
    HeaderStays(a, b);
    assert (a + b)[16..SizeOf(a)] == a[16..SizeOf(a)];
  }

  /** Chunks can be parsed as they come: what is left continues with the next bytes. */
  lemma {:induction false} ParseContinues(a: seq<byte>, b: seq<byte>)
    ensures !Parse(a).broken ==>
      var more := Parse(Parse(a).rest + b); Parse(a + b) == Parsed(Parse(a).messages + more.messages, more.rest, more.broken)
    ensures Parse(a).broken ==> Parse(a + b).broken && Parse(a + b).messages == Parse(a).messages
    decreases |a|
  {
    hide Parse, GetInt, SizeInvalid, SizeOf, FirstOf;
    ParseOnce(a);
    if |a| >= HEADER_SIZE {
      HeaderStays(a, b);
      ParseOnce(a + b);
      if !SizeInvalid(SizeOf(a)) && |a| >= SizeOf(a) {
        var size, first := SizeOf(a), FirstOf(a);
        FirstStays(a, b);
        ParseContinues(a[size..], b);
        assert (a + b)[size..] == a[size..] + b;
        var later, more := Parse(a[size..]), Parse(Parse(a[size..]).rest + b);
        assert [first] + (later.messages + more.messages) == ([first] + later.messages) + more.messages;
      }
    }
  }

  /** Parts laid end to end are found again. */
  lemma Laid(a: seq<byte>, b: seq<byte>, c: seq<byte>, d: seq<byte>, rest: seq<byte>)
    requires |a| == 8 && |b| == 4 && |c| == 4
    ensures var all := a + b + c + d + rest;
      && all[..8] == a && all[8..12] == b && all[12..16] == c && all[16..16 + |d|] == d && all[16 + |d|..] == rest
  {
    var all := a + b + c + d + rest;
    assert all[..8] == a;
    assert all[8..12] == b;
    assert all[12..16] == c;
    assert all[16..16 + |d|] == d;
  }

  /** What one request parses to. */
  lemma RequestHeader(m: Message, rest: seq<byte>)
    requires Legal(m)
    ensures var buffer := Request(m) + rest;
      |buffer| >= HEADER_SIZE && SizeOf(buffer) == |Request(m)| && !SizeInvalid(SizeOf(buffer))
      && FirstOf(buffer) == m.(body := Padded(m.body)) && buffer[SizeOf(buffer)..] == rest
  {
    var buffer, body := Request(m) + rest, Padded(m.body);
    hide GetInt, PutInt;
    Powers();
    GetPut(m.target, 8);
    GetPut(HEADER_SIZE + |body|, 4);
    GetPut(m.opcode, 4);
    Laid(PutInt(m.target, 8), PutInt(HEADER_SIZE + |body|, 4), PutInt(m.opcode, 4), body, rest);
  }

  function PaddedAll(ms: seq<Message>): (r: seq<Message>)
    ensures |r| == |ms| && forall i :: 0 <= i < |ms| ==> r[i] == ms[i].(body := Padded(ms[i].body))
  {
    if ms == [] then [] else [ms[0].(body := Padded(ms[0].body))] + PaddedAll(ms[1..])
  }

  /** The parser undoes the printer, with nothing left over. */
  lemma {:induction false} ParseUndoesStream(ms: seq<Message>)
    requires forall m :: m in ms ==> Legal(m)
    ensures Parse(Stream(ms)) == Parsed(PaddedAll(ms), [], false)
  {
    if ms != [] {
      ParseUndoesStream(ms[1..]);
      RequestHeader(ms[0], Stream(ms[1..]));
    }
  }

  lemma PrintedFirst(m: Message, later: seq<Message>, rest: seq<byte>)
    ensures Stream([m] + later) + rest == Request(m) + (Stream(later) + rest)
  {
    hide Request;
    assert ([m] + later)[1..] == later;
  }

  /** The printer undoes the parser: every byte parsed is accounted for, whatever the input. */
  lemma {:induction false} StreamUndoesParse(buffer: seq<byte>)
    ensures Stream(Parse(buffer).messages) + Parse(buffer).rest == buffer
    ensures forall m :: m in Parse(buffer).messages ==> Legal(m) && |m.body| % 4 == 0
    decreases |buffer|
  {
    hide GetInt, PutInt, Request, FirstOf, Padded, Power, Legal;
    if |buffer| >= HEADER_SIZE && !SizeInvalid(SizeOf(buffer)) && |buffer| >= SizeOf(buffer) {
      var size, later := SizeOf(buffer), Parse(buffer[SizeOf(buffer)..]);
      StreamUndoesParse(buffer[size..]);
      FirstPrinted(buffer);
      PrintedFirst(FirstOf(buffer), later.messages, later.rest);
      assert buffer == buffer[..size] + buffer[size..];
    }
  }

  lemma FirstPrinted(buffer: seq<byte>)
    requires |buffer| >= HEADER_SIZE && !SizeInvalid(SizeOf(buffer)) && |buffer| >= SizeOf(buffer)
    ensures Request(FirstOf(buffer)) == buffer[..SizeOf(buffer)] && Legal(FirstOf(buffer)) && |FirstOf(buffer).body| % 4 == 0
  {
    hide GetInt, PutInt, Power;
    var size := SizeOf(buffer);
    PutGet(buffer[..8]);
    PutGet(buffer[8..12]);
    PutGet(buffer[12..16]);
    assert buffer[..size] == buffer[..8] + buffer[8..12] + buffer[12..16] + buffer[16..size];
  }

  function Flatten(chunks: seq<seq<byte>>): seq<byte> {
    if chunks == [] then [] else Flatten(chunks[..|chunks| - 1]) + chunks[|chunks| - 1]
  }

  lemma ParseTakes(received: seq<Message>, buffer: seq<byte>)
    requires |buffer| >= HEADER_SIZE && !SizeInvalid(SizeOf(buffer)) && |buffer| >= SizeOf(buffer)
    ensures var later := Parse(buffer[SizeOf(buffer)..]);
      received + Parse(buffer).messages == received + [FirstOf(buffer)] + later.messages
      && Parse(buffer).rest == later.rest && Parse(buffer).broken == later.broken
  {
    hide FirstOf, GetInt;
    var later := Parse(buffer[SizeOf(buffer)..]);
    assert received + ([FirstOf(buffer)] + later.messages) == received + [FirstOf(buffer)] + later.messages;
  }

  /** A prefix of a sound stream is sound. */
  lemma PrefixUnbroken(chunks: seq<seq<byte>>, i: nat)
    requires i <= |chunks| && !Parse(Flatten(chunks)).broken
    ensures !Parse(Flatten(chunks[..i])).broken
    decreases |chunks| - i
  {
    hide Parse;
    if i < |chunks| {
      PrefixUnbroken(chunks, i + 1);
      assert chunks[..i + 1][..i] == chunks[..i];
      ParseContinues(Flatten(chunks[..i]), chunks[i]);
    } else {
      assert chunks[..i] == chunks;
    }
  }

  // -------------------------------------------------------------------- strings

  /** `eiString`: length with the terminator, bytes, terminator, filled up. */
  function EiString(value: seq<byte>): (r: seq<byte>)
    ensures |r| % 4 == 0
  {
    var raw := value + [0];
    Padded(PutInt(|raw|, 4) + raw)
  }

  /** The loop that builds it. */
  method BuildString(value: seq<byte>) returns (body: seq<byte>)
    ensures body == EiString(value)
  {
    var raw := value + [0];
    ghost var bare := PutInt(|raw|, 4) + raw;
    body := PutInt(|raw|, 4) + raw;
    while |body| % 4 != 0
      invariant |bare| <= |body| <= |Padded(bare)| && body == Padded(bare)[..|body|]
      decreases |Padded(bare)| - |body|
    {
      body := body + [0];
    }
  }

  function ReadU32(body: seq<byte>, offset: int): Option<nat> {
    if offset < 0 || |body| - offset < 4 then None else Some(GetInt(body[offset..offset + 4]))
  }

  function ReadU64(body: seq<byte>, offset: int): Option<nat> {
    if offset < 0 || |body| - offset < 8 then None else Some(GetInt(body[offset..offset + 8]))
  }

  /** `eiReadString`. */
  function ReadString(body: seq<byte>, offset: int): Option<seq<byte>> {
    var length := ReadU32(body, offset);
    if length.None? then None
    else if length.value == 0 then Some([])
    else
      var start := offset + 4;
      var end := start + length.value;
      if end > |body| || body[end - 1] != 0 then None
      else
        var value := body[start..end - 1];
        if 0 in value || !Utf8.Valid(value) then None else Some(value)
  }

  /** A string argument is read back, at any offset, exactly when it is NUL-free valid UTF-8;
      otherwise the reader refuses it. */
  lemma ReadUndoesString(before: seq<byte>, value: seq<byte>, after: seq<byte>)
    requires |value| + 1 < Power(4)
    ensures ReadString(before + EiString(value) + after, |before|)
      == if 0 !in value && Utf8.Valid(value) then Some(value) else None
  {
    hide GetInt, PutInt, Utf8.Valid, EiString, Power, ReadString;
    var text := EiString(value);
    var body := before + text + after;
    StringLayout(value);
    GetPut(|value| + 1, 4);
    Embedded(before, text, after, 0, 4);
    Embedded(before, text, after, 4, 4 + |value|);
    assert body[|before| + 4 + |value|] == text[4 + |value|];
    ReadLaidOut(body, |before|, value);
  }

  lemma ReadLaidOut(body: seq<byte>, at: nat, value: seq<byte>)
    requires at + 5 + |value| <= |body| && GetInt(body[at..at + 4]) == |value| + 1
    requires body[at + 4..at + 4 + |value|] == value && body[at + 4 + |value|] == 0
    ensures ReadString(body, at) == if 0 !in value && Utf8.Valid(value) then Some(value) else None
  {
    hide GetInt, Utf8.Valid;
    var end := at + 4 + (|value| + 1);
    assert body[end - 1] == 0 && body[at + 4..end - 1] == value;
  }

  lemma StringLayout(value: seq<byte>)
    ensures var text := EiString(value);
      |text| >= 5 + |value| && text[..4] == PutInt(|value| + 1, 4) && text[4..4 + |value|] == value && text[4 + |value|] == 0
  {
    hide PutInt;
    var bare := PutInt(|value| + 1, 4) + (value + [0]);
    assert EiString(value)[..|bare|] == bare;
    assert bare[4..4 + |value|] == value && bare[4 + |value|] == 0;
  }

  lemma Embedded(before: seq<byte>, text: seq<byte>, after: seq<byte>, i: nat, j: nat)
    requires i <= j <= |text|
    ensures (before + text + after)[|before| + i..|before| + j] == text[i..j]
  {}

  /** Unsigned arguments are read back at any offset. */
  lemma ReadUndoesInt(before: seq<byte>, n: nat, after: seq<byte>)
    ensures n < Power(4) ==> ReadU32(before + PutInt(n, 4) + after, |before|) == Some(n)
    ensures n < Power(8) ==> ReadU64(before + PutInt(n, 8) + after, |before|) == Some(n)
  {
    if n < Power(4) {
      GetPut(n, 4);
      assert (before + PutInt(n, 4) + after)[|before|..|before| + 4] == PutInt(n, 4);
    }
    if n < Power(8) {
      GetPut(n, 8);
      assert (before + PutInt(n, 8) + after)[|before|..|before| + 8] == PutInt(n, 8);
    }
  }

  /** The reading side of the connection; the handler of protocol messages is taken to succeed. */
  class Reader {
    var buffer: seq<byte>
    var received: seq<Message>
    var broken: bool
    var ended: bool
    ghost var input: seq<byte>

    /** All that was read so far parses to what was received and what is still buffered. */
    ghost predicate Valid() reads this {
      && received == Parse(input).messages && broken == Parse(input).broken
      && (!broken ==> buffer == Parse(input).rest)
    }

    constructor ()
      ensures Valid() && input == [] && received == [] && !broken && !ended
    {
      buffer, received, broken, ended, input := [], [], false, false, [];
    }

    /** One turn of `readLoop`: a chunk of any size; an empty one means the peer has closed. */
    method Feed(chunk: seq<byte>)
      requires Valid()
      modifies this
      ensures Valid()
      ensures if old(ended) || old(broken) || chunk == [] then
          input == old(input) && received == old(received) && broken == old(broken) && ended == (old(ended) || (chunk == [] && !old(broken)))
        else input == old(input) + chunk && ended == (broken || old(ended))
    {
      if ended || broken { return; }
      if chunk == [] {
        ended := true;
        return;
      }
      hide Parse;
      ParseContinues(input, chunk);
      input := input + chunk;
      buffer := buffer + chunk;
      Drain();
    }

    /** Takes complete messages off the buffer. */
    method Drain()
      requires !broken && !ended
      modifies `buffer, `received, `broken, `ended
      ensures received == old(received) + Parse(old(buffer)).messages
      ensures broken == Parse(old(buffer)).broken && ended == broken && (!broken ==> buffer == Parse(old(buffer)).rest)
    {
      hide GetInt, FirstOf;
      while |buffer| >= HEADER_SIZE
        invariant old(received) + Parse(old(buffer)).messages == received + Parse(buffer).messages
        invariant Parse(buffer).rest == Parse(old(buffer)).rest && Parse(buffer).broken == Parse(old(buffer)).broken
        invariant !broken && !ended
        decreases |buffer|
      {
        var size := SizeOf(buffer);
        if SizeInvalid(size) {
          broken, ended := true, true;
          return;
        }
        if |buffer| < size { break; }
        ParseTakes(received, buffer);
        var message := FirstOf(buffer);
        buffer, received := buffer[size..], received + [message];
      }
    }

    /** Any splitting of a stream of legal requests into chunks yields exactly those requests. */
    method FeedAll(chunks: seq<seq<byte>>, ghost requests: seq<Message>)
      requires Valid() && input == [] && !ended && !broken
      requires (forall m :: m in requests ==> Legal(m)) && Flatten(chunks) == Stream(requests) && [] !in chunks
      modifies this
      ensures received == PaddedAll(requests) && buffer == [] && !broken && !ended
    {
      ParseUndoesStream(requests);
      for i := 0 to |chunks|
        invariant Valid() && input == Flatten(chunks[..i]) && !ended && !broken
      {
        assert chunks[..i + 1][..i] == chunks[..i];
        PrefixUnbroken(chunks, i + 1);
        Feed(chunks[i]);
      }
      assert chunks[..|chunks|] == chunks;
    }
  }
}
