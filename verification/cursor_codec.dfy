/**
 The pagination cursor: a timestamp and a row id, joined by a NUL, encoded as UTF-8, written in
 the URL-safe base64 alphabet (section 5 of RFC 4648) and stripped of its padding. Decoding
 restores the padding from the length and tolerates what the base64 reader of the language
 tolerates: characters outside the alphabet are skipped.
 */
module CursorCodec {
  import opened Prelude

  type Byte = b: int | 0 <= b < 256

  // ---------------------------------------------------------------- UTF-8

  function CharBytes(c: char): (bytes: seq<Byte>) {
    var n := c as int;
    if n < 0x80 then [n]
    else if n < 0x800 then [0xC0 + n / 64, 0x80 + n % 64]
    else if n < 0x1_0000 then [0xE0 + n / 4096, 0x80 + n / 64 % 64, 0x80 + n % 64]
    else [0xF0 + n / 262144, 0x80 + n / 4096 % 64, 0x80 + n / 64 % 64, 0x80 + n % 64]
  }

  function Utf8Encode(s: string): seq<Byte> {
    if s == [] then [] else CharBytes(s[0]) + Utf8Encode(s[1..])
  }

  predicate IsContinuation(b: Byte) {
    0x80 <= b < 0xC0
  }

  predicate IsScalar(n: int) {
    0 <= n < 0xD800 || 0xE000 <= n < 0x11_0000
  }

  /** Six more bits from a continuation byte. */
  function Join(bits: int, b: int): int {
    bits * 64 + (b - 0x80)
  }

  /** The character a byte sequence starts with and how many bytes it takes; overlong forms,
      surrogates and truncated sequences are malformed. */
  function FirstChar(b: seq<Byte>): (r: Option<(char, nat)>)
    ensures r.Some? ==> 1 <= r.value.1 <= |b|
  {
    if b == [] then None
    else if b[0] < 0x80 then Some((b[0] as char, 1))
    else if 0xC0 <= b[0] < 0xE0 && |b| >= 2 && IsContinuation(b[1]) then
      var n := Join(b[0] - 0xC0, b[1]);
      if n >= 0x80 then Some((n as char, 2)) else None
    else if 0xE0 <= b[0] < 0xF0 && |b| >= 3 && IsContinuation(b[1]) && IsContinuation(b[2]) then
      var n := Join(Join(b[0] - 0xE0, b[1]), b[2]);
      if n >= 0x800 && IsScalar(n) then Some((n as char, 3)) else None
    else if 0xF0 <= b[0] < 0xF8 && |b| >= 4 && IsContinuation(b[1]) && IsContinuation(b[2]) && IsContinuation(b[3]) then
      var n := Join(Join(Join(b[0] - 0xF0, b[1]), b[2]), b[3]);
      if n >= 0x1_0000 && IsScalar(n) then Some((n as char, 4)) else None
    else None
  }

  function Utf8Decode(b: seq<Byte>): Option<string> {
    if b == [] then Some([])
    else
      var first := FirstChar(b);
      if first.None? then None
      else
        var rest := Utf8Decode(b[first.value.1..]);
        if rest.None? then None else Some([first.value.0] + rest.value)
  }

  lemma FirstCharOfEncoded(c: char, rest: seq<Byte>)
    ensures FirstChar(CharBytes(c) + rest) == Some((c, |CharBytes(c)|))
  {
    var n := c as int;
    if n < 0x80 {
    } else if n < 0x800 {
      Rejoin(n);
    } else if n < 0x1_0000 {
      assert n / 64 / 64 == n / 4096;
      Rejoin(n / 64);
      Rejoin(n);
    } else {
      assert n / 64 / 64 == n / 4096 && n / 4096 / 64 == n / 262144;
      Rejoin(n / 4096);
      Rejoin(n / 64);
      Rejoin(n);
    }
  }

  lemma EncodedFirstChar(b: seq<Byte>)
    requires FirstChar(b).Some?
    ensures CharBytes(FirstChar(b).value.0) == b[..FirstChar(b).value.1]
  {
    var (c, k) := FirstChar(b).value;
    var n := c as int;
    if k == 2 {
      Unjoin(b[0] - 0xC0, b[1]);
    } else if k == 3 {
      Unjoin(b[0] - 0xE0, b[1]);
      Unjoin(Join(b[0] - 0xE0, b[1]), b[2]);
      assert n / 4096 == n / 64 / 64;
    } else if k == 4 {
      Unjoin(b[0] - 0xF0, b[1]);
      Unjoin(Join(b[0] - 0xF0, b[1]), b[2]);
      Unjoin(Join(Join(b[0] - 0xF0, b[1]), b[2]), b[3]);
      assert n / 4096 == n / 64 / 64 && n / 262144 == n / 64 / 64 / 64;
    }
  }

  lemma Rejoin(n: int)
    ensures Join(n / 64, 0x80 + n % 64) == n
  {
  }

  lemma Unjoin(bits: int, b: int)
    requires 0x80 <= b < 0xC0
    ensures Join(bits, b) / 64 == bits && Join(bits, b) % 64 == b - 0x80
  {
  }

  lemma {:induction false} DecodeEncoded(s: string)
    ensures Utf8Decode(Utf8Encode(s)) == Some(s)
  {
    if s != [] {
      var b := Utf8Encode(s);
      var k := |CharBytes(s[0])|;
      FirstCharOfEncoded(s[0], Utf8Encode(s[1..]));
      assert b[k..] == Utf8Encode(s[1..]);
      DecodeEncoded(s[1..]);
      assert s == [s[0]] + s[1..];
    }
  }

  lemma {:induction false} EncodeDecoded(b: seq<Byte>)
    requires Utf8Decode(b).Some?
    ensures Utf8Encode(Utf8Decode(b).value) == b
  {
    hide FirstChar, CharBytes;
    if b != [] {
      EncodedFirstChar(b);
      var (c, k) := FirstChar(b).value;
      EncodeDecoded(b[k..]);
      EncodeCons(c, Utf8Decode(b[k..]).value);
      assert b == b[..k] + b[k..];
    }
  }

  lemma EncodeCons(c: char, s: string)
    ensures Utf8Encode([c] + s) == CharBytes(c) + Utf8Encode(s)
  {
    assert ([c] + s)[1..] == s;
  }

  /** Decoding accepts exactly the encodings: each byte sequence has one reading or none. */
  lemma {:induction false} Utf8IsExact(b: seq<Byte>, s: string)
    ensures Utf8Decode(b) == Some(s) <==> Utf8Encode(s) == b
  {
    DecodeEncoded(s);
    if Utf8Decode(b).Some? {
      EncodeDecoded(b);
    }
  }

  // ---------------------------------------------------------------- base64

  /** The URL-safe alphabet. */
  function Symbol(v: int): char
    requires 0 <= v < 64
  {
    if v < 26 then ('A' as int + v) as char
    else if v < 52 then ('a' as int + (v - 26)) as char
    else if v < 62 then ('0' as int + (v - 52)) as char
    else if v == 62 then '-' else '_'
  }

  /** What the reader makes of a character; it knows the standard alphabet's last two as well. */
  function SymbolValue(c: char): (v: Option<int>)
    ensures v.Some? ==> 0 <= v.value < 64
  {
    if 'A' <= c <= 'Z' then Some(c as int - 'A' as int)
    else if 'a' <= c <= 'z' then Some(c as int - 'a' as int + 26)
    else if '0' <= c <= '9' then Some(c as int - '0' as int + 52)
    else if c == '-' || c == '+' then Some(62)
    else if c == '_' || c == '/' then Some(63)
    else None
  }

  lemma SymbolRoundTrip(v: int)
    requires 0 <= v < 64
    ensures SymbolValue(Symbol(v)) == Some(v) && Symbol(v) != '=' && Symbol(v) < '\U{80}'
  {
  }

  function Base64Encode(b: seq<Byte>): string {
    if |b| == 0 then []
    else if |b| == 1 then [Symbol(b[0] / 4), Symbol(b[0] % 4 * 16), '=', '=']
    else if |b| == 2 then
      [Symbol(b[0] / 4), Symbol(b[0] % 4 * 16 + b[1] / 16), Symbol(b[1] % 16 * 4), '=']
    else Quad(b) + Base64Encode(b[3..])
  }

  function Quad(b: seq<Byte>): string
    requires |b| >= 3
  {
    [Symbol(b[0] / 4), Symbol(b[0] % 4 * 16 + b[1] / 16), Symbol(b[1] % 16 * 4 + b[2] / 64), Symbol(b[2] % 64)]
  }

  predicate CarryFits(quad: int, carry: int) {
    0 <= quad < 4 && 0 <= carry
    && (quad == 0 ==> carry == 0) && (quad == 1 ==> carry < 64) && (quad == 2 ==> carry < 16) && (quad == 3 ==> carry < 4)
  }

  /** The reader: position in the current group of four, bits carried over, padding seen. */
  function Read(s: string, quad: int, carry: int, pads: nat): Option<seq<Byte>>
    requires CarryFits(quad, carry)
  {
    if s == [] then if quad == 0 then Some([]) else None
    else if s[0] == '=' then
      if quad >= 2 && quad + pads + 1 >= 4 then Some([])
      else Read(s[1..], quad, carry, if quad >= 2 then pads + 1 else pads)
    else
      var v := SymbolValue(s[0]);
      if v.None? then Read(s[1..], quad, carry, pads)
      else if quad == 0 then Read(s[1..], 1, v.value, 0)
      else if quad == 1 then Emit(carry * 4 + v.value / 16, Read(s[1..], 2, v.value % 16, 0))
      else if quad == 2 then Emit(carry * 16 + v.value / 4, Read(s[1..], 3, v.value % 4, 0))
      else Emit(carry * 64 + v.value, Read(s[1..], 0, 0, 0))
  }

  function Emit(b: Byte, rest: Option<seq<Byte>>): Option<seq<Byte>> {
    if rest.None? then None else Some([b] + rest.value)
  }

  function Base64Decode(s: string): Option<seq<Byte>> {
    if exists i :: 0 <= i < |s| && s[i] >= '\U{80}' then None else Read(s, 0, 0, 0)
  }

  lemma ReadQuad(b: seq<Byte>, rest: string)
    requires |b| >= 3
    ensures Read(Quad(b) + rest, 0, 0, 0)
         == match Read(rest, 0, 0, 0) case None => None case Some(tail) => Some(b[..3] + tail)
  {
    var s := Quad(b) + rest;
    assert s[1..][1..] == s[2..] && s[2..][1..] == s[3..] && s[3..][1..] == rest;
    assert b[0] / 4 * 4 + (b[0] % 4 * 16 + b[1] / 16) / 16 == b[0];
    assert (b[0] % 4 * 16 + b[1] / 16) % 16 == b[1] / 16;
    assert b[1] / 16 * 16 + (b[1] % 16 * 4 + b[2] / 64) / 4 == b[1];
    assert (b[1] % 16 * 4 + b[2] / 64) % 4 == b[2] / 64;
    assert b[2] / 64 * 64 + b[2] % 64 == b[2];
    SymbolRoundTrip(b[0] / 4);
    SymbolRoundTrip(b[0] % 4 * 16 + b[1] / 16);
    SymbolRoundTrip(b[1] % 16 * 4 + b[2] / 64);
    SymbolRoundTrip(b[2] % 64);
    var v3 := Read(s[3..], 3, b[2] / 64, 0);
    assert v3 == Emit(b[2], Read(rest, 0, 0, 0));
    var v2 := Read(s[2..], 2, b[1] / 16, 0);
    assert v2 == Emit(b[1], v3);
    var v1 := Read(s[1..], 1, b[0] / 4, 0);
    assert v1 == Emit(b[0], v2);
    assert Read(s, 0, 0, 0) == v1;
    if Read(rest, 0, 0, 0).Some? {
      var tail := Read(rest, 0, 0, 0).value;
      assert [b[0]] + ([b[1]] + ([b[2]] + tail)) == b[..3] + tail;
    }
  }

  lemma ReadOne(x: Byte)
    ensures Read([Symbol(x / 4), Symbol(x % 4 * 16), '=', '='], 0, 0, 0) == Some([x])
  {
    var s := [Symbol(x / 4), Symbol(x % 4 * 16), '=', '='];
    SymbolRoundTrip(x / 4);
    SymbolRoundTrip(x % 4 * 16);
    assert s[1..] == [Symbol(x % 4 * 16), '=', '='] && s[1..][1..] == ['=', '='] && ['=', '='][1..] == ['='];
    assert Read(['='], 2, 0, 1) == Some([]);
    assert Read(['=', '='], 2, 0, 0) == Some([]);
    assert Read(s[1..], 1, x / 4, 0) == Emit(x, Some([]));
    var none: seq<Byte> := [];
    assert [x] + none == [x];
  }

  lemma ReadTwo(x: Byte, y: Byte)
    ensures Read([Symbol(x / 4), Symbol(x % 4 * 16 + y / 16), Symbol(y % 16 * 4), '='], 0, 0, 0) == Some([x, y])
  {
    var s := [Symbol(x / 4), Symbol(x % 4 * 16 + y / 16), Symbol(y % 16 * 4), '='];
    SymbolRoundTrip(x / 4);
    SymbolRoundTrip(x % 4 * 16 + y / 16);
    SymbolRoundTrip(y % 16 * 4);
    assert s[1..] == [Symbol(x % 4 * 16 + y / 16), Symbol(y % 16 * 4), '='];
    assert s[1..][1..] == [Symbol(y % 16 * 4), '='] && s[1..][1..][1..] == ['='];
    assert (x % 4 * 16 + y / 16) % 16 == y / 16;
    assert Read(['='], 3, 0, 0) == Some([]);
    assert Read(s[1..][1..], 2, y / 16, 0) == Emit(y, Some([]));
    assert Read(s[1..], 1, x / 4, 0) == Emit(x, Emit(y, Some([])));
    var none: seq<Byte> := [];
    assert [x] + ([y] + none) == [x, y];
  }

  lemma {:induction false} ReadEncoded(b: seq<Byte>)
    ensures Read(Base64Encode(b), 0, 0, 0) == Some(b)
  {
    if |b| >= 3 {
      ReadEncoded(b[3..]);
      ReadQuad(b, Base64Encode(b[3..]));
      assert b[..3] + b[3..] == b;
    } else if |b| == 2 {
      ReadTwo(b[0], b[1]);
      assert b == [b[0], b[1]];
    } else if |b| == 1 {
      ReadOne(b[0]);
      assert b == [b[0]];
    }
  }

  // ---------------------------------------------------------------- padding

  function StripPadding(s: string): string {
    if s != [] && s[|s| - 1] == '=' then StripPadding(s[..|s| - 1]) else s
  }

  /** Python's `-n % 4`. */
  function PaddingFor(n: int): string {
    var k := (-n) % 4;
    seq(k, i => '=')
  }

  lemma {:induction false} StripAfterSymbol(p: string, t: string)
    requires p != [] && p[|p| - 1] != '='
    ensures StripPadding(p + t) == p + StripPadding(t)
  {
    if t == [] {
      assert p + t == p;
    } else {
      assert (p + t)[..|p + t| - 1] == p + t[..|t| - 1];
      if t[|t| - 1] == '=' {
        StripAfterSymbol(p, t[..|t| - 1]);
      }
    }
  }

  lemma PaddingOfOne(p: string)
    requires |p| % 4 == 3 && p[|p| - 1] != '='
    ensures StripPadding(p + ['=']) == p && PaddingFor(|p|) == ['=']
  {
    assert ['='][..0] == [];
    StripAfterSymbol(p, ['=']);
  }

  lemma PaddingOfTwo(p: string)
    requires |p| % 4 == 2 && p[|p| - 1] != '='
    ensures StripPadding(p + ['=', '=']) == p && PaddingFor(|p|) == ['=', '=']
  {
    assert ['=', '='][..1] == ['='] && ['='][..0] == [];
    StripAfterSymbol(p, ['=', '=']);
  }

  /** The length of what is left tells how much padding was stripped. */
  lemma {:induction false} PaddingIsRestored(b: seq<Byte>)
    ensures var s := Base64Encode(b);
            StripPadding(s) + PaddingFor(|StripPadding(s)|) == s
  {
    var s := Base64Encode(b);
    if |b| >= 3 {
      PaddingIsRestored(b[3..]);
      SymbolRoundTrip(b[2] % 64);
      var t := Base64Encode(b[3..]);
      StripAfterSymbol(Quad(b), t);
      assert (-(|StripPadding(t)| + 4)) % 4 == (-|StripPadding(t)|) % 4;
    } else if |b| == 2 {
      SymbolRoundTrip(b[1] % 16 * 4);
      assert s == s[..3] + ['='];
      PaddingOfOne(s[..3]);
    } else if |b| == 1 {
      SymbolRoundTrip(b[0] % 4 * 16);
      assert s == s[..2] + ['=', '='];
      PaddingOfTwo(s[..2]);
    }
  }

  lemma {:induction false} EncodedIsAscii(b: seq<Byte>)
    ensures forall i :: 0 <= i < |Base64Encode(b)| ==> Base64Encode(b)[i] < '\U{80}'
  {
    if |b| >= 3 {
      EncodedIsAscii(b[3..]);
    }
  }

  // ---------------------------------------------------------------- the cursor

  /** The language's timestamp printer and parser. */
  datatype TimeFormat = TimeFormat(format: Instant -> string, parse: string -> Option<Instant>)

  /** All that is asked of them: printing emits no NUL and parsing undoes it. */
  ghost predicate Faithful(f: TimeFormat, value: Instant) {
    '\0' !in f.format(value) && f.parse(f.format(value)) == Some(value)
  }

  datatype CursorError = InvalidCursor

  type Decoded = Result<(Instant, string), CursorError>

  function EncodeCursor(f: TimeFormat, value: Instant, id: string): string {
    StripPadding(Base64Encode(Utf8Encode(f.format(value) + ['\0'] + id)))
  }

  /** Everything before the first NUL and everything after it. */
  function SplitAtNul(s: string): Option<(string, string)> {
    if s == [] then None
    else if s[0] == '\0' then Some(([], s[1..]))
    else
      match SplitAtNul(s[1..])
      case None => None
      case Some((head, tail)) => Some(([s[0]] + head, tail))
  }

  function DecodeCursor(f: TimeFormat, cursor: string): Decoded {
    match Base64Decode(cursor + PaddingFor(|cursor|))
    case None => Failure(InvalidCursor)
    case Some(bytes) =>
      match Utf8Decode(bytes)
      case None => Failure(InvalidCursor)
      case Some(text) =>
        match SplitAtNul(text)
        case None => Failure(InvalidCursor)
        case Some((raw, id)) =>
          match f.parse(raw)
          case None => Failure(InvalidCursor)
          case Some(value) => Success((value, id))
  }

  lemma {:induction false} SplitJoined(head: string, tail: string)
    requires '\0' !in head
    ensures SplitAtNul(head + ['\0'] + tail) == Some((head, tail))
  {
    var s := head + ['\0'] + tail;
    if head == [] {
      assert s[1..] == tail;
    } else {
      assert s[0] == head[0] && s[0] in head && s[1..] == head[1..] + ['\0'] + tail;
      SplitJoined(head[1..], tail);
      assert [head[0]] + head[1..] == head;
    }
  }

  /** Decoding undoes encoding, for every timestamp and every row id. */
  lemma CursorRoundTrip(f: TimeFormat, value: Instant, id: string)
    requires Faithful(f, value)
    ensures DecodeCursor(f, EncodeCursor(f, value, id)) == Success((value, id))
  {
    var text := f.format(value) + ['\0'] + id;
    var bytes := Utf8Encode(text);
    PaddingIsRestored(bytes);
    EncodedIsAscii(bytes);
    ReadEncoded(bytes);
    Utf8IsExact(bytes, text);
    SplitJoined(f.format(value), id);
  }

  /** Hence cursors of different positions differ, and none is the empty string, which callers
      treat as no cursor at all. */
  lemma CursorsAreDistinct(f: TimeFormat, value: Instant, id: string, value': Instant, id': string)
    requires Faithful(f, value) && Faithful(f, value')
    ensures EncodeCursor(f, value, id) == EncodeCursor(f, value', id') <==> value == value' && id == id'
    ensures EncodeCursor(f, value, id) != ""
  {
    CursorRoundTrip(f, value, id);
    CursorRoundTrip(f, value', id');
    EmptyCursorIsInvalid(f);
  }

  lemma EmptyCursorIsInvalid(f: TimeFormat)
    ensures DecodeCursor(f, "") == Failure(InvalidCursor)
  {
    assert "" + PaddingFor(0) == "";
  }

  /** A cursor whose first two symbols spell a byte that cannot start a character is rejected. */
  lemma BadFirstByteIsRejected(f: TimeFormat, cursor: string)
    requires |cursor| >= 2 && SymbolValue(cursor[0]).Some? && SymbolValue(cursor[1]).Some?
    requires 0x80 <= SymbolValue(cursor[0]).value * 4 + SymbolValue(cursor[1]).value / 16 < 0xC0
    ensures DecodeCursor(f, cursor).Failure?
  {
    var s := cursor + PaddingFor(|cursor|);
    assert s[0] == cursor[0] && s[1..][0] == cursor[1];
    var b := SymbolValue(cursor[0]).value * 4 + SymbolValue(cursor[1]).value / 16;
    assert Read(s, 0, 0, 0)
        == Emit(b, Read(s[1..][1..], 2, SymbolValue(cursor[1]).value % 16, 0));
  }
}
