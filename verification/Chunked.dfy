/** Chunked transfer coding, section 7.1 of RFC 9112, as the compose scaler decodes it
    (oah-compose-scaler/src/main.rs): one decoder over a buffer, one over a stream. */
module Chunked {
  import opened Options
  import opened Storage

  type Bytes = seq<byte>

  /** How a decoder reads a line: whether it is text, and what size it names. */
  datatype LineReader = LineReader(isText: Bytes -> bool, size: Bytes -> Option<nat>)

  const CR: byte := 13
  const LF: byte := 10
  const SEMICOLON: byte := 59
  const PLUS: byte := 43
  const CRLF: Bytes := [CR, LF]

  const USIZE_LIMIT := 0x1_0000_0000_0000_0000
  const MAX_LINE := 8192
  const MAX_BODY := 1024 * 1024

  // ---- size lines ------------------------------------------------------------------------------------------------

  function HexDigit(b: byte): Option<nat> {
    if 48 <= b <= 57 then Some(b as nat - 48)
    else if 97 <= b <= 102 then Some(b as nat - 87)
    else if 65 <= b <= 70 then Some(b as nat - 55)
    else None
  }

  function HexDigits(s: Bytes): Option<nat> {
    if s == [] then Some(0)
    else
      match (HexDigits(s[..|s| - 1]), HexDigit(s[|s| - 1]))
      case (Some(high), Some(low)) => Some(16 * high + low)
      case _ => None
  }

  /** `usize::from_str_radix(text, 16)`: a leading plus is allowed, an empty number is not. */
  function FromHex(s: Bytes): Option<nat> {
    var digits := if s != [] && s[0] == PLUS then s[1..] else s;
    if digits == [] then None
    else match HexDigits(digits) case Some(n) => if n < USIZE_LIMIT then Some(n) else None case None => None
  }

  /** The length of the white space character of the Unicode standard that begins here; 0 if none does. */
  function SpaceAtStart(s: Bytes): (n: nat)
    ensures n <= |s|
  {
    if s == [] then 0
    else if 9 <= s[0] <= 13 || s[0] == 32 then 1
    else if |s| >= 2 && IsWideSpace2(s[..2]) then 2
    else if |s| >= 3 && IsWideSpace3(s[..3]) then 3
    else 0
  }

  function SpaceAtEnd(s: Bytes): (n: nat)
    ensures n <= |s|
  {
    if s == [] then 0
    else if 9 <= s[|s| - 1] <= 13 || s[|s| - 1] == 32 then 1
    else if |s| >= 2 && IsWideSpace2(s[|s| - 2..]) then 2
    else if |s| >= 3 && IsWideSpace3(s[|s| - 3..]) then 3
    else 0
  }

  /** U+0085 and U+00A0. */
  predicate IsWideSpace2(s: Bytes)
    requires |s| == 2
  {
    s[0] == 0xC2 && (s[1] == 0x85 || s[1] == 0xA0)
  }

  /** U+1680, U+2000 to U+200A, U+2028, U+2029, U+202F, U+205F and U+3000. */
  predicate IsWideSpace3(s: Bytes)
    requires |s| == 3
  {
    || (s[0] == 0xE1 && s[1] == 0x9A && s[2] == 0x80)
    || (s[0] == 0xE2 && s[1] == 0x80 && (0x80 <= s[2] <= 0x8A || s[2] == 0xA8 || s[2] == 0xA9 || s[2] == 0xAF))
    || (s[0] == 0xE2 && s[1] == 0x81 && s[2] == 0x9F)
    || (s[0] == 0xE3 && s[1] == 0x80 && s[2] == 0x80)
  }

  /** `trim_start` and `trim_end`. */
  function TrimStart(s: Bytes): Bytes {
    var n := SpaceAtStart(s);
    if n > 0 then TrimStart(s[n..]) else s
  }

  function TrimEnd(s: Bytes): Bytes {
    var n := SpaceAtEnd(s);
    if n > 0 then TrimEnd(s[..|s| - n]) else s
  }

  function FirstField(s: Bytes): Bytes {
    if s == [] || s[0] == SEMICOLON then [] else [s[0]] + FirstField(s[1..])
  }

  /** The size before any extension. */
  function ChunkSize(line: Bytes): Option<nat> {
    FromHex(TrimEnd(TrimStart(FirstField(line))))
  }

  predicate IsContinuation(b: byte) {
    0x80 <= b <= 0xBF
  }

  /** The length of the UTF-8 sequence that begins here, section 4 of RFC 3629; 0 if none does. */
  function Utf8Length(s: Bytes): (n: nat)
    ensures n <= |s|
  {
    if s == [] then 0
    else if s[0] < 0x80 then 1
    else if 0xC2 <= s[0] <= 0xDF then (if |s| >= 2 && IsContinuation(s[1]) then 2 else 0)
    else if 0xE0 <= s[0] <= 0xEF then
      (if |s| >= 3 && IsContinuation(s[1]) && IsContinuation(s[2]) && (s[0] == 0xE0 ==> s[1] >= 0xA0) && (s[0] == 0xED ==> s[1] <= 0x9F)
       then 3 else 0)
    else if 0xF0 <= s[0] <= 0xF4 then
      (if |s| >= 4 && IsContinuation(s[1]) && IsContinuation(s[2]) && IsContinuation(s[3])
          && (s[0] == 0xF0 ==> s[1] >= 0x90) && (s[0] == 0xF4 ==> s[1] <= 0x8F)
       then 4 else 0)
    else 0
  }

  predicate IsUtf8(s: Bytes) {
    s == [] || (Utf8Length(s) > 0 && IsUtf8(s[Utf8Length(s)..]))
  }

  /** The reader both decoders use. */
  function HttpLines(): LineReader {
    LineReader(line => IsUtf8(line), line => if IsUtf8(line) then ChunkSize(line) else None)
  }

  // ---- lines ---------------------------------------------------------------------------------------------------------

  predicate CrlfAt(bytes: Bytes, i: nat) {
    i + 2 <= |bytes| && bytes[i] == CR && bytes[i + 1] == LF
  }

  /** The first CRLF at or after `i`. */
  function FindCrlf(bytes: Bytes, i: nat): (r: Option<nat>)
    ensures r.Some? ==> i <= r.value && r.value + 2 <= |bytes|
    decreases |bytes| - i
  {
    if i + 2 > |bytes| then None else if CrlfAt(bytes, i) then Some(i) else FindCrlf(bytes, i + 1)
  }

  lemma {:induction false} FindIsFirst(bytes: Bytes, i: nat)
    ensures var r := FindCrlf(bytes, i);
      && (r.Some? ==> CrlfAt(bytes, r.value) && forall k :: i <= k < r.value ==> !CrlfAt(bytes, k))
      && (r.None? ==> forall k :: i <= k ==> !CrlfAt(bytes, k))
    decreases |bytes| - i
  {
    if i + 2 <= |bytes| && !CrlfAt(bytes, i) { FindIsFirst(bytes, i + 1); }
  }

  lemma {:induction false} FindFirst(bytes: Bytes, i: nat, e: nat)
    requires i <= e && CrlfAt(bytes, e) && forall k :: i <= k < e ==> !CrlfAt(bytes, k)
    ensures FindCrlf(bytes, i) == Some(e)
    decreases e - i
  {
    if i < e { FindFirst(bytes, i + 1, e); }
  }

  // ---- the buffer decoder ----------------------------------------------------------------------------------------------

  /** The result after `decoded` has been read. */
  function Continue(decoded: Bytes, rest: Option<Bytes>): Option<Bytes> {
    match rest case None => None case Some(r) => Some(decoded + r)
  }

  /** One turn of a decoder: a malformed chunk, the last chunk, or data and the position after it. */
  datatype Turn = Bad | Last | More(data: Bytes, next: nat)

  /** The chunk whose size line ends at `e`. */
  function ChunkAfter(bytes: Bytes, e: nat, size: nat): Turn
    requires e + 2 <= |bytes|
  {
    var end := e + 2 + size;
    if CrlfAt(bytes, end) then More(bytes[e + 2..end], end + 2) else Bad
  }

  function DecodeTurn(lines: LineReader, bytes: Bytes, i: nat): (t: Turn)
    requires i <= |bytes|
    ensures t.More? ==> i < t.next <= |bytes|
  {
    match FindCrlf(bytes, i)
    case None => Bad
    case Some(e) =>
      match lines.size(bytes[i..e])
      case None => Bad
      case Some(size) => if size == 0 then Last else ChunkAfter(bytes, e, size)
  }

  /** `decode_chunked_bytes` from position `i` on. */
  function Decode(lines: LineReader, bytes: Bytes, i: nat): Option<Bytes>
    requires i <= |bytes|
    decreases |bytes| - i
  {
    match DecodeTurn(lines, bytes, i)
    case Bad => None
    case Last => Some([])
    case More(data, next) => Continue(data, Decode(lines, bytes, next))
  }

  lemma DecodeStep(lines: LineReader, bytes: Bytes, i: nat, data: Bytes, next: nat)
    requires i <= |bytes| && DecodeTurn(lines, bytes, i) == More(data, next)
    ensures Decode(lines, bytes, i) == Continue(data, Decode(lines, bytes, next))
  {
  }

  lemma DecodeStops(lines: LineReader, bytes: Bytes, i: nat)
    requires i <= |bytes| && !DecodeTurn(lines, bytes, i).More?
    ensures Decode(lines, bytes, i) == if DecodeTurn(lines, bytes, i).Last? then Some([]) else None
  {
  }

  lemma ContinueFromNothing(rest: Option<Bytes>)
    ensures Continue([], rest) == rest
  {
    if rest.Some? { assert [] + rest.value == rest.value; }
  }

  lemma ContinueTwice(a: Bytes, b: Bytes, rest: Option<Bytes>)
    ensures Continue(a + b, rest) == Continue(a, Continue(b, rest))
  {
    if rest.Some? { assert a + b + rest.value == a + (b + rest.value); }
  }

  /** `decode_chunked_bytes`; every index stays inside the buffer. */
  method DecodeChunkedBytes(lines: LineReader, bytes: Bytes) returns (r: Option<Bytes>)
    ensures r == Decode(lines, bytes, 0)
  {
    var index := 0;
    var decoded: Bytes := [];
    ContinueFromNothing(Decode(lines, bytes, 0));
    while true
      invariant 0 <= index <= |bytes|
      invariant Decode(lines, bytes, 0) == Continue(decoded, Decode(lines, bytes, index))
      decreases |bytes| - index
    {
      var turn := DecodeChunk(lines, bytes, index);
      match turn {
        case Bad => return None;
        case Last =>
          assert decoded + [] == decoded;
          return Some(decoded);
        case More(data, next) =>
          ContinueTwice(decoded, data, Decode(lines, bytes, next));
          decoded := decoded + data;
          index := next;
      }
    }
  }

  /** The body of the loop, with the source's index arithmetic. */
  method DecodeChunk(lines: LineReader, bytes: Bytes, index: nat) returns (turn: Turn)
    requires index <= |bytes|
    ensures turn == DecodeTurn(lines, bytes, index)
  {
    var lineEnd := FindCrlf(bytes, index);
    if lineEnd.None? {
      return Bad;
    }
    var size := lines.size(bytes[index..lineEnd.value]);
    if size.None? {
      return Bad;
    }
    var start := lineEnd.value + 2;
    if size.value == 0 {
      return Last;
    }
    var chunkEnd := start + size.value;
    if chunkEnd + 2 > |bytes| {
      return Bad;
    }
    var chunk := bytes[start..chunkEnd];
    if !(bytes[chunkEnd] == CR && bytes[chunkEnd + 1] == LF) {
      return Bad;
    }
    return More(chunk, chunkEnd + 2);
  }

  // ---- the stream decoder ------------------------------------------------------------------------------------------------

  /** `read_crlf_line` at position `i`: the end of the line, which with its CRLF fits into 8 KB. */
  function LineEnd(lines: LineReader, bytes: Bytes, i: nat): (r: Option<nat>)
    requires i <= |bytes|
    ensures r.Some? ==> i <= r.value && r.value + 2 <= |bytes|
  {
    match FindCrlf(bytes, i)
    case None => None
    case Some(e) => if e + 2 - i <= MAX_LINE && lines.isText(bytes[i..e]) then Some(e) else None
  }

  /** The trailer section: lines up to an empty one. */
  predicate TrailersEnd(lines: LineReader, bytes: Bytes, i: nat)
    requires i <= |bytes|
    decreases |bytes| - i
  {
    match LineEnd(lines, bytes, i)
    case None => false
    case Some(e) => e == i || TrailersEnd(lines, bytes, e + 2)
  }

  datatype SizeLine = SizeLine(end: nat, size: nat)

  /** A line that names a size. */
  function SizeLineAt(lines: LineReader, bytes: Bytes, i: nat): (r: Option<SizeLine>)
    requires i <= |bytes|
    ensures r.Some? ==> i <= r.value.end && r.value.end + 2 <= |bytes|
  {
    match LineEnd(lines, bytes, i)
    case None => None
    case Some(e) => match lines.size(bytes[i..e]) case None => None case Some(size) => Some(SizeLine(e, size))
  }

  function BodyTurn(lines: LineReader, bytes: Bytes, i: nat, sofar: nat): (t: Turn)
    requires i <= |bytes|
    ensures t.More? ==> i < t.next <= |bytes|
  {
    match SizeLineAt(lines, bytes, i)
    case None => Bad
    case Some(l) =>
      if l.size == 0 then (if TrailersEnd(lines, bytes, l.end + 2) then Last else Bad)
      else if sofar + l.size > MAX_BODY then Bad
      else ChunkAfter(bytes, l.end, l.size)
  }

  /** `read_chunked_body` from position `i` on, with `sofar` bytes read already. */
  function ReadBody(lines: LineReader, bytes: Bytes, i: nat, sofar: nat): Option<Bytes>
    requires i <= |bytes|
    decreases |bytes| - i
  {
    match BodyTurn(lines, bytes, i, sofar)
    case Bad => None
    case Last => Some([])
    case More(data, next) => Continue(data, ReadBody(lines, bytes, next, sofar + |data|))
  }

  /** A connection that delivers `data`; `pos` is what has been read. */
  class ByteStream {
    const data: Bytes
    var pos: nat

    ghost predicate Valid()
      reads this
    {
      pos <= |data|
    }

    constructor (data: Bytes)
      ensures Valid() && this.data == data && pos == 0
    {
      this.data := data;
      pos := 0;
    }

    /** `None` when the connection closes first or the line is too long or not text. */
    method ReadCrlfLine(lines: LineReader) returns (line: Option<Bytes>)
      requires Valid()
      modifies this
      ensures Valid() && old(pos) <= pos
      ensures line.Some? <==> LineEnd(lines, data, old(pos)).Some?
      ensures line.Some? ==>
        var e := LineEnd(lines, data, old(pos)).value;
        line.value == data[old(pos)..e] && pos == e + 2
    {
      ghost var from := pos;
      var bytes: Bytes := [];
      while !(|bytes| >= 2 && bytes[|bytes| - 2] == CR && bytes[|bytes| - 1] == LF)
        invariant from <= pos <= |data| && bytes == data[from..pos] && |bytes| <= MAX_LINE
        invariant forall k :: from <= k && k + 2 < pos ==> !CrlfAt(data, k)
        decreases |data| - pos
      {
        if pos == |data| {
          NoCrlfLeft(data, from, pos);
          return None;
        }
        bytes := bytes + [data[pos]];
        pos := pos + 1;
        if |bytes| > MAX_LINE {
          TooLong(lines, data, from, pos);
          return None;
        }
      }
      FindFirst(data, from, pos - 2);
      var text := bytes[..|bytes| - 2];
      assert text == data[from..pos - 2];
      if !lines.isText(text) {
        return None;
      }
      return Some(text);
    }

    /** `read_exact`. */
    method ReadExact(n: nat) returns (bytes: Option<Bytes>)
      requires Valid()
      modifies this
      ensures Valid() && old(pos) <= pos
      ensures bytes.Some? <==> old(pos) + n <= |data|
      ensures bytes.Some? ==> bytes.value == data[old(pos)..old(pos) + n] && pos == old(pos) + n
    {
      if pos + n > |data| {
        pos := |data|;
        return None;
      }
      bytes := Some(data[pos..pos + n]);
      pos := pos + n;
    }

    method SkipTrailers(lines: LineReader) returns (ok: bool)
      requires Valid()
      modifies this
      ensures Valid() && (ok <==> TrailersEnd(lines, data, old(pos)))
    {
      while true
        invariant Valid() && (TrailersEnd(lines, data, old(pos)) <==> TrailersEnd(lines, data, pos))
        decreases |data| - pos
      {
        var line := ReadCrlfLine(lines);
        if line.None? {
          return false;
        }
        if line.value == [] {
          return true;
        }
      }
    }

    method ReadSizeLine(lines: LineReader) returns (size: Option<nat>)
      requires Valid()
      modifies this
      ensures Valid() && (size.Some? <==> SizeLineAt(lines, data, old(pos)).Some?)
      ensures size.Some? ==> pos >= 2 && SizeLineAt(lines, data, old(pos)) == Some(SizeLine(pos - 2, size.value))
    {
      var line := ReadCrlfLine(lines);
      if line.None? {
        return None;
      }
      size := lines.size(line.value);
    }

    /** The data of a chunk and its terminator. */
    method ReadData(size: nat) returns (turn: Turn)
      requires Valid() && pos >= 2
      modifies this
      ensures Valid() && turn == ChunkAfter(data, old(pos) - 2, size)
      ensures turn.More? ==> pos == turn.next
    {
      var chunk := ReadExact(size);
      if chunk.None? {
        return Bad;
      }
      var crlf := ReadExact(2);
      if crlf.None? || crlf.value[0] != CR || crlf.value[1] != LF {
        return Bad;
      }
      return More(chunk.value, pos);
    }

    /** One chunk: size line, data and terminator, or the last line and the trailers. */
    method ReadChunk(lines: LineReader, sofar: nat) returns (turn: Turn)
      requires Valid()
      modifies this
      ensures Valid() && turn == BodyTurn(lines, data, old(pos), sofar)
      ensures turn.More? ==> pos == turn.next
    {
      var size := ReadSizeLine(lines);
      if size.None? {
        return Bad;
      }
      if size.value == 0 {
        var ok := SkipTrailers(lines);
        return if ok then Last else Bad;
      }
      if sofar + size.value > MAX_BODY {
        return Bad;
      }
      turn := ReadData(size.value);
    }

    /** `read_chunked_body`. */
    method ReadChunkedBody(lines: LineReader) returns (r: Option<Bytes>)
      requires Valid()
      modifies this
      ensures Valid() && r == ReadBody(lines, data, old(pos), 0)
    {
      var body: Bytes := [];
      ghost var from := pos;
      ContinueFromNothing(ReadBody(lines, data, from, 0));
      while true
        invariant Valid()
        invariant ReadBody(lines, data, from, 0) == Continue(body, ReadBody(lines, data, pos, |body|))
        decreases |data| - pos
      {
        ghost var at := pos;
        var turn := ReadChunk(lines, |body|);
        match turn {
          case Bad => return None;
          case Last =>
            assert body + [] == body;
            return Some(body);
          case More(chunk, next) =>
            var longer := body + chunk;
            ReadStep(lines, data, body, chunk, at, next, longer);
            body := longer;
        }
      }
    }
  }

  lemma ReadStops(lines: LineReader, data: Bytes, at: nat, sofar: nat)
    requires at <= |data| && !BodyTurn(lines, data, at, sofar).More?
    ensures ReadBody(lines, data, at, sofar) == if BodyTurn(lines, data, at, sofar).Last? then Some([]) else None
  {
  }

  lemma ReadUnfold(lines: LineReader, data: Bytes, at: nat, sofar: nat, chunk: Bytes, next: nat, n: nat)
    requires at <= |data| && BodyTurn(lines, data, at, sofar) == More(chunk, next) && n == sofar + |chunk|
    ensures ReadBody(lines, data, at, sofar) == Continue(chunk, ReadBody(lines, data, next, n))
  {
  }

  lemma ReadStep(lines: LineReader, data: Bytes, body: Bytes, chunk: Bytes, at: nat, next: nat, longer: Bytes)
    requires at <= |data| && longer == body + chunk
    requires BodyTurn(lines, data, at, |body|) == More(chunk, next)
    ensures Continue(body, ReadBody(lines, data, at, |body|)) == Continue(longer, ReadBody(lines, data, next, |longer|))
  {
    ReadUnfold(lines, data, at, |body|, chunk, next, |longer|);
    ContinueTwice(body, chunk, ReadBody(lines, data, next, |longer|));
  }

  lemma NoCrlfLeft(data: Bytes, from: nat, pos: nat)
    requires from <= pos == |data|
    requires forall k :: from <= k && k + 2 < pos ==> !CrlfAt(data, k)
    requires !(pos - from >= 2 && data[pos - 2] == CR && data[pos - 1] == LF)
    ensures FindCrlf(data, from).None?
  {
    FindIsFirst(data, from);
  }

  lemma TooLong(lines: LineReader, data: Bytes, from: nat, pos: nat)
    requires from <= pos <= |data| && pos - from == MAX_LINE + 1
    requires forall k :: from <= k && k + 2 < pos ==> !CrlfAt(data, k)
    ensures LineEnd(lines, data, from).None?
  {
    FindIsFirst(data, from);
  }
}
