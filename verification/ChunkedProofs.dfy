/** Decoding undoes encoding, and the two decoders agree within the limits of the stricter one. */
module ChunkedProofs {
  import opened Options
  import opened Storage
  import opened Chunked

  // ---- sizes -----------------------------------------------------------------------------------------------------

  function HexChar(d: nat): byte
    requires d < 16
  {
    if d < 10 then (48 + d) as byte else (87 + d) as byte
  }

  function HexOf(n: nat): (s: Bytes)
    ensures s != []
  {
    if n < 16 then [HexChar(n)] else HexOf(n / 16) + [HexChar(n % 16)]
  }

  lemma {:induction false} HexRoundTrip(n: nat)
    ensures HexDigits(HexOf(n)) == Some(n)
    ensures forall b :: b in HexOf(n) ==> HexDigit(b).Some?
  {
    if n < 16 {
      assert [HexChar(n)][..0] == [];
    } else {
      HexRoundTrip(n / 16);
      assert HexOf(n)[..|HexOf(n)| - 1] == HexOf(n / 16);
    }
  }

  lemma {:induction false} FirstFieldIs(s: Bytes, extension: Bytes)
    requires SEMICOLON !in s && (extension == [] || extension[0] == SEMICOLON)
    ensures FirstField(s + extension) == s
    decreases |s|
  {
    if s == [] {
      assert s + extension == extension;
    } else {
      assert s[0] in s;
      assert (s + extension)[0] == s[0] && (s + extension)[1..] == s[1..] + extension;
      FirstFieldIs(s[1..], extension);
    }
  }

  /** A size in hexadecimal, with or without an extension, is read back. */
  lemma SizeRoundTrip(n: nat, extension: Bytes)
    requires n < USIZE_LIMIT && (extension == [] || extension[0] == SEMICOLON)
    ensures ChunkSize(HexOf(n) + extension) == Some(n)
  {
    var s := HexOf(n);
    HexRoundTrip(n);
    assert s[0] in s && s[|s| - 1] in s;
    FirstFieldIs(s, extension);
    NothingToTrim(s);
    NoPlus(s, n);
  }

  lemma NothingToTrim(s: Bytes)
    requires s != [] && HexDigit(s[0]).Some? && HexDigit(s[|s| - 1]).Some?
    ensures TrimEnd(TrimStart(s)) == s
  {
    NoSpaceAround(s);
  }

  lemma NoSpaceAround(s: Bytes)
    requires s != [] && 33 <= s[0] < 0x80 && 33 <= s[|s| - 1] < 0x80
    ensures SpaceAtStart(s) == 0 && SpaceAtEnd(s) == 0
  {
  }

  lemma NoPlus(s: Bytes, n: nat)
    requires s != [] && HexDigit(s[0]).Some? && HexDigits(s) == Some(n) && n < USIZE_LIMIT
    ensures FromHex(s) == Some(n)
  {
  }

  // ---- round trip --------------------------------------------------------------------------------------------------

  datatype Chunk = Chunk(line: Bytes, data: Bytes)

  ghost predicate NoCrlf(line: Bytes) {
    forall k :: 0 <= k ==> !CrlfAt(line, k)
  }

  ghost predicate GoodChunk(lines: LineReader, c: Chunk) {
    c.data != [] && NoCrlf(c.line) && lines.size(c.line) == Some(|c.data|)
  }

  ghost predicate GoodChunks(lines: LineReader, chunks: seq<Chunk>) {
    forall i :: 0 <= i < |chunks| ==> GoodChunk(lines, chunks[i])
  }

  /** The chunks, the last line and whatever follows. */
  function Encode(chunks: seq<Chunk>, last: Bytes, trailer: Bytes): Bytes
    decreases |chunks|
  {
    if chunks == [] then last + CRLF + trailer
    else chunks[0].line + CRLF + chunks[0].data + CRLF + Encode(chunks[1..], last, trailer)
  }

  function Data(chunks: seq<Chunk>): Bytes
    decreases |chunks|
  {
    if chunks == [] then [] else chunks[0].data + Data(chunks[1..])
  }

  /** A line without CRLF, followed by one, is found as the next line. */
  lemma LineFound(bytes: Bytes, i: nat, line: Bytes, rest: Bytes)
    requires i <= |bytes| && bytes[i..] == line + CRLF + rest && NoCrlf(line)
    ensures FindCrlf(bytes, i) == Some(i + |line|) && bytes[i..i + |line|] == line
    ensures bytes[i + |line| + 2..] == rest
  {
    var tail := bytes[i..];
    var e := i + |line|;
    assert bytes[e] == tail[|line|] == CR && bytes[e + 1] == tail[|line| + 1] == LF;
    forall k | i <= k < e ensures !CrlfAt(bytes, k) {
      assert bytes[k] == tail[k - i] == line[k - i];
      assert bytes[k + 1] == tail[k - i + 1];
      assert !CrlfAt(line, k - i);
    }
    FindFirst(bytes, i, e);
    assert bytes[i..e] == tail[..|line|] == line;
    assert bytes[e + 2..] == tail[|line| + 2..];
  }

  lemma ChunkFound(bytes: Bytes, e: nat, data: Bytes, rest: Bytes)
    requires e + 2 <= |bytes| && bytes[e + 2..] == data + CRLF + rest
    ensures ChunkAfter(bytes, e, |data|) == More(data, e + |data| + 4) && bytes[e + |data| + 4..] == rest
  {
    var tail := bytes[e + 2..];
    var end := e + 2 + |data|;
    assert bytes[end] == tail[|data|] == CR && bytes[end + 1] == tail[|data| + 1] == LF;
    assert bytes[e + 2..end] == tail[..|data|] == data;
    assert bytes[end + 2..] == tail[|data| + 2..];
  }

  lemma Reassociate(a: Bytes, b: Bytes, c: Bytes, d: Bytes, e: Bytes)
    ensures a + b + c + d + e == a + b + (c + d + e)
  {
  }

  lemma EncodeStep(chunks: seq<Chunk>, last: Bytes, trailer: Bytes)
    requires chunks != []
    ensures Encode(chunks, last, trailer) == chunks[0].line + CRLF + chunks[0].data + CRLF + Encode(chunks[1..], last, trailer)
    ensures Data(chunks) == chunks[0].data + Data(chunks[1..])
  {
  }

  lemma {:induction false} DecodeEncoded(lines: LineReader, bytes: Bytes, i: nat, chunks: seq<Chunk>, last: Bytes, trailer: Bytes)
    requires i <= |bytes| && bytes[i..] == Encode(chunks, last, trailer)
    requires GoodChunks(lines, chunks) && NoCrlf(last) && lines.size(last) == Some(0)
    ensures Decode(lines, bytes, i) == Some(Data(chunks))
    decreases |chunks|
  {
    if chunks == [] {
      LineFound(bytes, i, last, trailer);
      DecodeStops(lines, bytes, i);
    } else {
      var c, next := chunks[0], i + |chunks[0].line| + |chunks[0].data| + 4;
      assert GoodChunk(lines, c);
      EncodeStep(chunks, last, trailer);
      FirstChunkFound(lines, bytes, i, c, Encode(chunks[1..], last, trailer));
      DecodeStep(lines, bytes, i, c.data, next);
      DecodeEncoded(lines, bytes, next, chunks[1..], last, trailer);
    }
  }

  lemma FirstChunkFound(lines: LineReader, bytes: Bytes, i: nat, c: Chunk, rest: Bytes)
    requires i <= |bytes| && bytes[i..] == c.line + CRLF + c.data + CRLF + rest && GoodChunk(lines, c)
    ensures var next := i + |c.line| + |c.data| + 4;
      DecodeTurn(lines, bytes, i) == More(c.data, next) && next <= |bytes| && bytes[next..] == rest
  {
    Reassociate(c.line, CRLF, c.data, CRLF, rest);
    LineFound(bytes, i, c.line, c.data + CRLF + rest);
    ChunkFound(bytes, i + |c.line|, c.data, rest);
  }

  /** Decoding an encoded body gives the data of its chunks, whatever follows the last line. */
  lemma RoundTrip(lines: LineReader, chunks: seq<Chunk>, last: Bytes, trailer: Bytes)
    requires GoodChunks(lines, chunks) && NoCrlf(last) && lines.size(last) == Some(0)
    ensures Decode(lines, Encode(chunks, last, trailer), 0) == Some(Data(chunks))
  {
    var bytes := Encode(chunks, last, trailer);
    assert bytes[0..] == bytes;
    DecodeEncoded(lines, bytes, 0, chunks, last, trailer);
  }

  // ---- agreement --------------------------------------------------------------------------------------------------------

  /** The limits of the stream decoder, met by every chunk from position `i` on. */
  ghost predicate WithinLimits(lines: LineReader, bytes: Bytes, i: nat, sofar: nat)
    requires i <= |bytes|
    decreases |bytes| - i
  {
    match LineEnd(lines, bytes, i)
    case None => false
    case Some(e) =>
      match DecodeTurn(lines, bytes, i)
      case Bad => true
      case Last => TrailersEnd(lines, bytes, e + 2)
      case More(data, next) => sofar + |data| <= MAX_BODY && WithinLimits(lines, bytes, next, sofar + |data|)
  }

  /** What the stream decoder makes of a turn of the buffer decoder. */
  function Limited(lines: LineReader, bytes: Bytes, i: nat, sofar: nat): Turn
    requires i <= |bytes|
  {
    match LineEnd(lines, bytes, i)
    case None => Bad
    case Some(e) =>
      match DecodeTurn(lines, bytes, i)
      case Bad => Bad
      case Last => if TrailersEnd(lines, bytes, e + 2) then Last else Bad
      case More(data, next) => if sofar + |data| <= MAX_BODY then More(data, next) else Bad
  }

  lemma TurnsAgree(lines: LineReader, bytes: Bytes, i: nat, sofar: nat)
    requires i <= |bytes|
    ensures BodyTurn(lines, bytes, i, sofar) == Limited(lines, bytes, i, sofar)
  {
  }

  lemma AgreeAtEnd(lines: LineReader, bytes: Bytes, i: nat, sofar: nat)
    requires i <= |bytes| && !DecodeTurn(lines, bytes, i).More?
    ensures ReadBody(lines, bytes, i, sofar) == if WithinLimits(lines, bytes, i, sofar) then Decode(lines, bytes, i) else None
  {
    TurnsAgree(lines, bytes, i, sofar);
    ReadStops(lines, bytes, i, sofar);
    DecodeStops(lines, bytes, i);
  }

  lemma AgreeAtChunk(lines: LineReader, bytes: Bytes, i: nat, sofar: nat, data: Bytes, next: nat, n: nat)
    requires i <= |bytes| && DecodeTurn(lines, bytes, i) == More(data, next) && n == sofar + |data|
    requires ReadBody(lines, bytes, next, n) == if WithinLimits(lines, bytes, next, n) then Decode(lines, bytes, next) else None
    ensures ReadBody(lines, bytes, i, sofar) == if WithinLimits(lines, bytes, i, sofar) then Decode(lines, bytes, i) else None
  {
    TurnsAgree(lines, bytes, i, sofar);
    DecodeStep(lines, bytes, i, data, next);
    if BodyTurn(lines, bytes, i, sofar).More? {
      ReadUnfold(lines, bytes, i, sofar, data, next, n);
    } else {
      ReadStops(lines, bytes, i, sofar);
    }
  }

  /** The stream decoder reads exactly what the buffer decoder decodes, as long as its limits are met,
      and fails otherwise. */
  lemma {:induction false} DecodersAgree(lines: LineReader, bytes: Bytes, i: nat, sofar: nat)
    requires i <= |bytes|
    ensures ReadBody(lines, bytes, i, sofar) == if WithinLimits(lines, bytes, i, sofar) then Decode(lines, bytes, i) else None
    decreases |bytes| - i
  {
    match DecodeTurn(lines, bytes, i)
    case More(data, next) =>
      DecodersAgree(lines, bytes, next, sofar + |data|);
      AgreeAtChunk(lines, bytes, i, sofar, data, next, sofar + |data|);
    case _ => AgreeAtEnd(lines, bytes, i, sofar);
  }

  // ---- bodies within the limits ---------------------------------------------------------------------------------------------

  /** A line of text that fits, with its CRLF, into 8 KB. */
  ghost predicate ShortLine(lines: LineReader, line: Bytes) {
    NoCrlf(line) && lines.isText(line) && |line| + 2 <= MAX_LINE
  }

  /** Trailer fields, ended by an empty line. */
  function Trailer(fields: seq<Bytes>, rest: Bytes): Bytes {
    if fields == [] then CRLF + rest else fields[0] + CRLF + Trailer(fields[1..], rest)
  }

  ghost predicate GoodFields(lines: LineReader, fields: seq<Bytes>) {
    forall k :: 0 <= k < |fields| ==> fields[k] != [] && ShortLine(lines, fields[k])
  }

  lemma {:induction false} TrailersFound(lines: LineReader, bytes: Bytes, i: nat, fields: seq<Bytes>, rest: Bytes)
    requires i <= |bytes| && bytes[i..] == Trailer(fields, rest) && GoodFields(lines, fields) && lines.isText([])
    ensures TrailersEnd(lines, bytes, i)
    decreases |fields|
  {
    if fields == [] {
      assert [] + CRLF + rest == CRLF + rest;
      LineFound(bytes, i, [], rest);
      TrailersStep(lines, bytes, i, i);
    } else {
      LineFound(bytes, i, fields[0], Trailer(fields[1..], rest));
      TrailersFound(lines, bytes, i + |fields[0]| + 2, fields[1..], rest);
      TrailersStep(lines, bytes, i, i + |fields[0]|);
    }
  }

  lemma TrailersStep(lines: LineReader, bytes: Bytes, i: nat, e: nat)
    requires i <= e && FindCrlf(bytes, i) == Some(e) && e + 2 - i <= MAX_LINE && lines.isText(bytes[i..e])
    requires e > i ==> TrailersEnd(lines, bytes, e + 2)
    ensures TrailersEnd(lines, bytes, i)
  {
  }

  /** What a caller can check of a body: short lines, at most 1 MB of data, good trailer fields. */
  ghost predicate SmallBody(lines: LineReader, chunks: seq<Chunk>, last: Bytes, fields: seq<Bytes>) {
    && GoodChunks(lines, chunks) && (forall k :: 0 <= k < |chunks| ==> ShortLine(lines, chunks[k].line))
    && ShortLine(lines, last) && lines.size(last) == Some(0)
    && GoodFields(lines, fields) && lines.isText([])
  }

  lemma LastLineRead(lines: LineReader, bytes: Bytes, i: nat, sofar: nat, last: Bytes, fields: seq<Bytes>, rest: Bytes)
    requires i <= |bytes| && bytes[i..] == last + CRLF + Trailer(fields, rest)
    requires ShortLine(lines, last) && lines.size(last) == Some(0) && GoodFields(lines, fields) && lines.isText([])
    ensures ReadBody(lines, bytes, i, sofar) == Some([])
  {
    LineFound(bytes, i, last, Trailer(fields, rest));
    TrailersFound(lines, bytes, i + |last| + 2, fields, rest);
    LastTurn(lines, bytes, i, sofar, i + |last|);
    ReadStops(lines, bytes, i, sofar);
  }

  lemma LastTurn(lines: LineReader, bytes: Bytes, i: nat, sofar: nat, e: nat)
    requires i <= |bytes| && FindCrlf(bytes, i) == Some(e) && e + 2 - i <= MAX_LINE
    requires lines.isText(bytes[i..e]) && lines.size(bytes[i..e]) == Some(0) && TrailersEnd(lines, bytes, e + 2)
    ensures BodyTurn(lines, bytes, i, sofar) == Last
  {
  }

  lemma ChunkRead(lines: LineReader, bytes: Bytes, i: nat, sofar: nat, c: Chunk, rest: Bytes)
    requires i <= |bytes| && bytes[i..] == c.line + CRLF + c.data + CRLF + rest
    requires GoodChunk(lines, c) && ShortLine(lines, c.line) && sofar + |c.data| <= MAX_BODY
    ensures var next := i + |c.line| + |c.data| + 4;
      BodyTurn(lines, bytes, i, sofar) == More(c.data, next) && next <= |bytes| && bytes[next..] == rest
  {
    Reassociate(c.line, CRLF, c.data, CRLF, rest);
    LineFound(bytes, i, c.line, c.data + CRLF + rest);
    FirstChunkFound(lines, bytes, i, c, rest);
    TurnsAgree(lines, bytes, i, sofar);
  }

  lemma SmallRest(lines: LineReader, chunks: seq<Chunk>, last: Bytes, fields: seq<Bytes>)
    requires SmallBody(lines, chunks, last, fields) && chunks != []
    ensures GoodChunk(lines, chunks[0]) && ShortLine(lines, chunks[0].line) && SmallBody(lines, chunks[1..], last, fields)
  {
  }

  lemma OneChunkRead(lines: LineReader, bytes: Bytes, i: nat, sofar: nat, c: Chunk, tail: Bytes, next: nat, n: nat)
    requires i <= |bytes| && bytes[i..] == c.line + CRLF + c.data + CRLF + tail
    requires GoodChunk(lines, c) && ShortLine(lines, c.line) && n == sofar + |c.data| <= MAX_BODY
    requires next == i + |c.line| + |c.data| + 4
    ensures next <= |bytes| && bytes[next..] == tail
    ensures ReadBody(lines, bytes, i, sofar) == Continue(c.data, ReadBody(lines, bytes, next, n))
  {
    ChunkRead(lines, bytes, i, sofar, c, tail);
    ReadUnfold(lines, bytes, i, sofar, c.data, next, n);
  }

  /** The body from position `i` on is `chunks`, a last line and a trailer. */
  ghost predicate BodyAt(lines: LineReader, bytes: Bytes, i: nat, chunks: seq<Chunk>, last: Bytes, fields: seq<Bytes>, rest: Bytes) {
    i <= |bytes| && bytes[i..] == Encode(chunks, last, Trailer(fields, rest)) && SmallBody(lines, chunks, last, fields)
  }

  lemma {:induction false} ReadEncoded(lines: LineReader, bytes: Bytes, i: nat, sofar: nat, chunks: seq<Chunk>, last: Bytes,
                                       fields: seq<Bytes>, rest: Bytes)
    requires BodyAt(lines, bytes, i, chunks, last, fields, rest) && sofar + |Data(chunks)| <= MAX_BODY
    ensures ReadBody(lines, bytes, i, sofar) == Some(Data(chunks))
    decreases |chunks|
  {
    if chunks == [] {
      LastLineRead(lines, bytes, i, sofar, last, fields, rest);
    } else {
      var next, n := i + |chunks[0].line| + |chunks[0].data| + 4, sofar + |chunks[0].data|;
      BodyStep(lines, bytes, i, sofar, chunks, last, fields, rest, next, n);
      ReadEncoded(lines, bytes, next, n, chunks[1..], last, fields, rest);
      EncodeStep(chunks, last, []);
    }
  }

  lemma BodyStep(lines: LineReader, bytes: Bytes, i: nat, sofar: nat, chunks: seq<Chunk>, last: Bytes,
                 fields: seq<Bytes>, rest: Bytes, next: nat, n: nat)
    requires BodyAt(lines, bytes, i, chunks, last, fields, rest) && chunks != [] && sofar + |Data(chunks)| <= MAX_BODY
    requires next == i + |chunks[0].line| + |chunks[0].data| + 4 && n == sofar + |chunks[0].data|
    ensures BodyAt(lines, bytes, next, chunks[1..], last, fields, rest) && n + |Data(chunks[1..])| <= MAX_BODY
    ensures ReadBody(lines, bytes, i, sofar) == Continue(chunks[0].data, ReadBody(lines, bytes, next, n))
  {
    SmallRest(lines, chunks, last, fields);
    EncodeStep(chunks, last, Trailer(fields, rest));
    OneChunkRead(lines, bytes, i, sofar, chunks[0], Encode(chunks[1..], last, Trailer(fields, rest)), next, n);
  }

  /** A body within the limits that is ended by its trailer is read back by the stream decoder, whatever
      follows. */
  lemma StreamRoundTrip(lines: LineReader, chunks: seq<Chunk>, last: Bytes, fields: seq<Bytes>, rest: Bytes)
    requires SmallBody(lines, chunks, last, fields) && |Data(chunks)| <= MAX_BODY
    ensures ReadBody(lines, Encode(chunks, last, Trailer(fields, rest)), 0, 0) == Some(Data(chunks))
  {
    var bytes := Encode(chunks, last, Trailer(fields, rest));
    assert bytes[0..] == bytes;
    ReadEncoded(lines, bytes, 0, 0, chunks, last, fields, rest);
  }

  // ---- bodies framed with hexadecimal sizes -----------------------------------------------------------------------------------

  /** Data with the extension of its size line, empty or begun by a semicolon. */
  datatype Framed = Framed(data: Bytes, extension: Bytes)

  ghost predicate GoodExtension(extension: Bytes) {
    (extension == [] || extension[0] == SEMICOLON) && NoCrlf(extension) && IsUtf8(extension)
  }

  ghost predicate GoodFrames(frames: seq<Framed>) {
    forall k :: 0 <= k < |frames| ==> frames[k].data != [] && |frames[k].data| < USIZE_LIMIT && GoodExtension(frames[k].extension)
  }

  function HexLine(n: nat, extension: Bytes): Bytes {
    HexOf(n) + extension
  }

  function HttpChunks(frames: seq<Framed>): (chunks: seq<Chunk>)
    ensures |chunks| == |frames|
  {
    seq(|frames|, k requires 0 <= k < |frames| => Chunk(HexLine(|frames[k].data|, frames[k].extension), frames[k].data))
  }

  lemma {:induction false} AsciiInFront(s: Bytes, rest: Bytes)
    requires forall b :: b in s ==> b < 0x80
    ensures IsUtf8(s + rest) <==> IsUtf8(rest)
  {
    if s == [] {
      assert s + rest == rest;
    } else {
      assert s[0] in s && forall b :: b in s[1..] ==> b in s;
      assert (s + rest)[1..] == s[1..] + rest;
      AsciiInFront(s[1..], rest);
    }
  }

  /** A size line is text, holds no CRLF and names its size. */
  lemma HexLineGood(n: nat, extension: Bytes)
    requires n < USIZE_LIMIT && GoodExtension(extension)
    ensures NoCrlf(HexLine(n, extension)) && IsUtf8(HexLine(n, extension)) && HttpLines().size(HexLine(n, extension)) == Some(n)
  {
    var s := HexOf(n);
    HexRoundTrip(n);
    SizeRoundTrip(n, extension);
    forall b | b in s ensures b < 0x80 && b != CR && b != LF {
      assert HexDigit(b).Some?;
    }
    AsciiInFront(s, extension);
    forall k | 0 <= k ensures !CrlfAt(s + extension, k) {
      if k < |s| {
        assert (s + extension)[k] == s[k] && s[k] in s;
      } else {
        assert !CrlfAt(extension, k - |s|);
      }
    }
  }

  lemma HttpChunksGood(frames: seq<Framed>)
    requires GoodFrames(frames)
    ensures GoodChunks(HttpLines(), HttpChunks(frames))
  {
    forall k | 0 <= k < |frames| ensures GoodChunk(HttpLines(), HttpChunks(frames)[k]) {
      HexLineGood(|frames[k].data|, frames[k].extension);
    }
  }

  /** Data framed with hexadecimal sizes and any extensions is decoded, whatever follows the last line. */
  lemma HttpRoundTrip(frames: seq<Framed>, extension: Bytes, trailer: Bytes)
    requires GoodFrames(frames) && GoodExtension(extension)
    ensures Decode(HttpLines(), Encode(HttpChunks(frames), HexLine(0, extension), trailer), 0) == Some(Data(HttpChunks(frames)))
  {
    HttpChunksGood(frames);
    HexLineGood(0, extension);
    RoundTrip(HttpLines(), HttpChunks(frames), HexLine(0, extension), trailer);
  }
}
