/** The decoders accept nothing but encoded bodies. */
module ChunkedLaws {
  import opened Options
  import opened Storage
  import opened Chunked
  import opened ChunkedProofs

  // ---- what a turn has read ---------------------------------------------------------------------------------------

  lemma LineHasNoCrlf(bytes: Bytes, i: nat)
    requires FindCrlf(bytes, i).Some?
    ensures var e := FindCrlf(bytes, i).value;
      && NoCrlf(bytes[i..e]) && bytes[i..] == bytes[i..e] + CRLF + bytes[e + 2..]
  {
    FindIsFirst(bytes, i);
    var e := FindCrlf(bytes, i).value;
    forall k | 0 <= k ensures !CrlfAt(bytes[i..e], k) {
      assert i + k < e ==> !CrlfAt(bytes, i + k);
    }
    assert bytes[e..e + 2] == CRLF;
    assert bytes[i..] == bytes[i..e] + bytes[e..e + 2] + bytes[e + 2..];
  }

  lemma DataCut(bytes: Bytes, e: nat, size: nat)
    requires e + 2 <= |bytes| && ChunkAfter(bytes, e, size).More?
    ensures var t := ChunkAfter(bytes, e, size);
      && |t.data| == size && t.next <= |bytes| && bytes[e + 2..] == t.data + CRLF + bytes[t.next..]
  {
    var end := e + 2 + size;
    assert bytes[end..end + 2] == CRLF;
    assert bytes[e + 2..] == bytes[e + 2..end] + bytes[end..end + 2] + bytes[end + 2..];
  }

  /** The chunk a turn has read. */
  lemma TurnIsChunk(lines: LineReader, bytes: Bytes, i: nat) returns (c: Chunk)
    requires i <= |bytes| && DecodeTurn(lines, bytes, i).More?
    ensures var t := DecodeTurn(lines, bytes, i);
      && GoodChunk(lines, c) && c.data == t.data && FindCrlf(bytes, i).Some? && c.line == bytes[i..FindCrlf(bytes, i).value]
      && bytes[i..] == c.line + CRLF + c.data + CRLF + bytes[t.next..]
  {
    var t, e := DecodeTurn(lines, bytes, i), FindCrlf(bytes, i).value;
    c := Chunk(bytes[i..e], t.data);
    LineHasNoCrlf(bytes, i);
    DataCut(bytes, e, lines.size(c.line).value);
    Reassociate(c.line, CRLF, c.data, CRLF, bytes[t.next..]);
  }

  lemma LastIsLine(lines: LineReader, bytes: Bytes, i: nat) returns (last: Bytes, trailer: Bytes)
    requires i <= |bytes| && DecodeTurn(lines, bytes, i).Last?
    ensures FindCrlf(bytes, i).Some? && last == bytes[i..FindCrlf(bytes, i).value] && trailer == bytes[FindCrlf(bytes, i).value + 2..]
    ensures NoCrlf(last) && lines.size(last) == Some(0) && bytes[i..] == last + CRLF + trailer
  {
    var e := FindCrlf(bytes, i).value;
    LineHasNoCrlf(bytes, i);
    last, trailer := bytes[i..e], bytes[e + 2..];
  }

  lemma ConsChunk(lines: LineReader, c: Chunk, rest: seq<Chunk>, last: Bytes, trailer: Bytes)
    requires GoodChunk(lines, c) && GoodChunks(lines, rest)
    ensures GoodChunks(lines, [c] + rest) && Data([c] + rest) == c.data + Data(rest)
    ensures Encode([c] + rest, last, trailer) == c.line + CRLF + c.data + CRLF + Encode(rest, last, trailer)
  {
    assert ([c] + rest)[1..] == rest;
  }

  // ---- the buffer decoder ----------------------------------------------------------------------------------------------

  /** The bytes are these chunks, a last line and a trailer, and hold this data. */
  ghost predicate IsBody(lines: LineReader, bytes: Bytes, chunks: seq<Chunk>, last: Bytes, trailer: Bytes, data: Bytes) {
    && GoodChunks(lines, chunks) && NoCrlf(last) && lines.size(last) == Some(0)
    && bytes == Encode(chunks, last, trailer) && data == Data(chunks)
  }

  lemma {:induction false} DecodedWasEncoded(lines: LineReader, bytes: Bytes, i: nat) returns (chunks: seq<Chunk>, last: Bytes, trailer: Bytes)
    requires i <= |bytes| && Decode(lines, bytes, i).Some?
    ensures IsBody(lines, bytes[i..], chunks, last, trailer, Decode(lines, bytes, i).value)
    decreases |bytes| - i
  {
    if DecodeTurn(lines, bytes, i).Last? {
      last, trailer := LastIsLine(lines, bytes, i);
      chunks := [];
      DecodeStops(lines, bytes, i);
    } else {
      var t := DecodeTurn(lines, bytes, i);
      var c := TurnIsChunk(lines, bytes, i);
      DecodeStep(lines, bytes, i, t.data, t.next);
      var rest;
      rest, last, trailer := DecodedWasEncoded(lines, bytes, t.next);
      ConsChunk(lines, c, rest, last, trailer);
      chunks := [c] + rest;
    }
  }

  /** The buffer decoder gives this data exactly for the bodies that hold it. */
  lemma DecodesIff(lines: LineReader, bytes: Bytes, data: Bytes)
    ensures Decode(lines, bytes, 0) == Some(data) <==> exists chunks, last, trailer :: IsBody(lines, bytes, chunks, last, trailer, data)
  {
    assert bytes[0..] == bytes;
    if Decode(lines, bytes, 0) == Some(data) {
      var chunks, last, trailer := DecodedWasEncoded(lines, bytes, 0);
      assert IsBody(lines, bytes, chunks, last, trailer, data);
    }
    if exists chunks, last, trailer :: IsBody(lines, bytes, chunks, last, trailer, data) {
      var chunks, last, trailer :| IsBody(lines, bytes, chunks, last, trailer, data);
      DecodeEncoded(lines, bytes, 0, chunks, last, trailer);
    }
  }

  // ---- the stream decoder ----------------------------------------------------------------------------------------------

  lemma {:induction false} TrailersWere(lines: LineReader, bytes: Bytes, i: nat) returns (fields: seq<Bytes>, rest: Bytes)
    requires i <= |bytes| && TrailersEnd(lines, bytes, i)
    ensures bytes[i..] == Trailer(fields, rest) && GoodFields(lines, fields) && lines.isText([])
    decreases |bytes| - i
  {
    var e := LineEnd(lines, bytes, i).value;
    LineHasNoCrlf(bytes, i);
    if e == i {
      fields, rest := [], bytes[e + 2..];
      assert bytes[i..e] == [];
      assert [] + CRLF + rest == CRLF + rest;
    } else {
      fields, rest := TrailersWere(lines, bytes, e + 2);
      var field := bytes[i..e];
      assert ([field] + fields)[1..] == fields;
      fields := [field] + fields;
    }
  }

  /** The bytes are a body of short lines that ends with its trailer fields. */
  ghost predicate IsSmallBody(lines: LineReader, bytes: Bytes, chunks: seq<Chunk>, last: Bytes, fields: seq<Bytes>, rest: Bytes, data: Bytes) {
    SmallBody(lines, chunks, last, fields) && bytes == Encode(chunks, last, Trailer(fields, rest)) && data == Data(chunks)
  }

  lemma {:induction false} ReadWasEncoded(lines: LineReader, bytes: Bytes, i: nat, sofar: nat)
      returns (chunks: seq<Chunk>, last: Bytes, fields: seq<Bytes>, rest: Bytes)
    requires i <= |bytes| && sofar <= MAX_BODY && ReadBody(lines, bytes, i, sofar).Some?
    ensures IsSmallBody(lines, bytes[i..], chunks, last, fields, rest, ReadBody(lines, bytes, i, sofar).value)
    ensures sofar + |Data(chunks)| <= MAX_BODY
    decreases |bytes| - i
  {
    TurnsAgree(lines, bytes, i, sofar);
    if BodyTurn(lines, bytes, i, sofar).Last? {
      var trailer;
      last, trailer := LastIsLine(lines, bytes, i);
      fields, rest := TrailersWere(lines, bytes, FindCrlf(bytes, i).value + 2);
      chunks := [];
      ReadStops(lines, bytes, i, sofar);
    } else {
      var t := BodyTurn(lines, bytes, i, sofar);
      var n := sofar + |t.data|;
      var c := TurnIsChunk(lines, bytes, i);
      ReadUnfold(lines, bytes, i, sofar, t.data, t.next, n);
      var more;
      more, last, fields, rest := ReadWasEncoded(lines, bytes, t.next, n);
      ConsChunk(lines, c, more, last, Trailer(fields, rest));
      chunks := [c] + more;
    }
  }

  /** The stream decoder gives this data exactly for the small bodies that hold it. */
  lemma ReadsIff(lines: LineReader, bytes: Bytes, data: Bytes)
    ensures ReadBody(lines, bytes, 0, 0) == Some(data)
       <==> |data| <= MAX_BODY && exists chunks, last, fields, rest :: IsSmallBody(lines, bytes, chunks, last, fields, rest, data)
  {
    assert bytes[0..] == bytes;
    if ReadBody(lines, bytes, 0, 0) == Some(data) {
      var chunks, last, fields, rest := ReadWasEncoded(lines, bytes, 0, 0);
      assert IsSmallBody(lines, bytes, chunks, last, fields, rest, data);
    }
    if |data| <= MAX_BODY && exists chunks, last, fields, rest :: IsSmallBody(lines, bytes, chunks, last, fields, rest, data) {
      var chunks, last, fields, rest :| IsSmallBody(lines, bytes, chunks, last, fields, rest, data);
      StreamRoundTrip(lines, chunks, last, fields, rest);
    }
  }

  // ---- size lines --------------------------------------------------------------------------------------------------------

  /** A hexadecimal digit in either case. */
  function DigitOf(d: nat, upper: bool): byte
    requires d < 16
  {
    if d < 10 then (48 + d) as byte else if upper then (65 + d - 10) as byte else (97 + d - 10) as byte
  }

  datatype Digit = Digit(value: nat, upper: bool)

  predicate GoodDigits(ds: seq<Digit>) {
    forall k :: 0 <= k < |ds| ==> ds[k].value < 16
  }

  function WrittenDigits(ds: seq<Digit>): (s: Bytes)
    requires GoodDigits(ds)
    ensures |s| == |ds|
  {
    seq(|ds|, k requires 0 <= k < |ds| => DigitOf(ds[k].value, ds[k].upper))
  }

  function ValueOf(ds: seq<Digit>): nat {
    if ds == [] then 0 else 16 * ValueOf(ds[..|ds| - 1]) + ds[|ds| - 1].value
  }

  lemma {:induction false} DigitsRead(ds: seq<Digit>)
    requires GoodDigits(ds)
    ensures HexDigits(WrittenDigits(ds)) == Some(ValueOf(ds))
    decreases |ds|
  {
    if ds != [] {
      var init := ds[..|ds| - 1];
      DigitsRead(init);
      assert WrittenDigits(ds)[..|ds| - 1] == WrittenDigits(init);
    }
  }

  predicate Spaces(s: Bytes) {
    forall k :: 0 <= k < |s| ==> s[k] == 32 || 9 <= s[k] <= 13
  }

  predicate Printed(b: byte) {
    33 <= b < 0x80
  }

  lemma {:induction false} TrimsStart(pre: Bytes, s: Bytes)
    requires Spaces(pre) && s != [] && Printed(s[0])
    ensures TrimStart(pre + s) == s
    decreases |pre|
  {
    if pre == [] {
      assert pre + s == s;
    } else {
      assert (pre + s)[0] == pre[0] && (pre + s)[1..] == pre[1..] + s;
      TrimsStart(pre[1..], s);
    }
  }

  lemma {:induction false} TrimsEnd(s: Bytes, post: Bytes)
    requires Spaces(post) && s != [] && Printed(s[|s| - 1])
    ensures TrimEnd(s + post) == s
    decreases |post|
  {
    if post == [] {
      assert s + post == s;
    } else {
      var init := post[..|post| - 1];
      assert (s + post)[|s + post| - 1] == post[|post| - 1] && (s + post)[..|s + post| - 1] == s + init;
      TrimsEnd(s, init);
    }
  }

  function Number(plus: bool, ds: seq<Digit>): Bytes
    requires GoodDigits(ds)
  {
    (if plus then [PLUS] else []) + WrittenDigits(ds)
  }

  /** A number that fits into 64 bits. */
  function Fitting(n: Option<nat>): Option<nat> {
    match n case None => None case Some(k) => if k < 0x1_0000_0000_0000_0000 then Some(k) else None
  }

  lemma PlusSkipped(digits: Bytes)
    requires digits != []
    ensures FromHex([PLUS] + digits) == Fitting(HexDigits(digits))
  {
    assert ([PLUS] + digits)[1..] == digits;
  }

  lemma NoPlusToSkip(digits: Bytes)
    requires digits != [] && digits[0] != PLUS
    ensures FromHex(digits) == Fitting(HexDigits(digits))
  {
  }

  lemma NumberRead(plus: bool, ds: seq<Digit>)
    requires GoodDigits(ds) && ds != []
    ensures FromHex(Number(plus, ds)) == Fitting(Some(ValueOf(ds)))
  {
    var digits := WrittenDigits(ds);
    DigitsRead(ds);
    if plus {
      PlusSkipped(digits);
    } else {
      assert digits[0] == DigitOf(ds[0].value, ds[0].upper);
      assert [] + digits == digits;
      NoPlusToSkip(digits);
    }
  }

  lemma NumberIsPrinted(plus: bool, ds: seq<Digit>)
    requires GoodDigits(ds) && ds != []
    ensures var s := Number(plus, ds); s != [] && SEMICOLON !in s && Printed(s[0]) && Printed(s[|s| - 1])
  {
    var digits, number := WrittenDigits(ds), Number(plus, ds);
    forall k | 0 <= k < |digits| ensures Printed(digits[k]) && digits[k] != SEMICOLON {
      assert digits[k] == DigitOf(ds[k].value, ds[k].upper);
    }
    assert number[|number| - 1] == digits[|digits| - 1];
  }

  lemma Trimmed(pre: Bytes, s: Bytes, post: Bytes)
    requires Spaces(pre) && Spaces(post) && s != [] && Printed(s[0]) && Printed(s[|s| - 1])
    ensures TrimEnd(TrimStart(pre + s + post)) == s
  {
    assert pre + s + post == pre + (s + post);
    TrimsStart(pre, s + post);
    TrimsEnd(s, post);
  }

  /** White space around it, a plus, leading zeros, digits of either case and an extension do not change a size;
      one that does not fit into 64 bits is refused. */
  lemma SizeIs(pre: Bytes, plus: bool, ds: seq<Digit>, post: Bytes, extension: Bytes)
    requires Spaces(pre) && Spaces(post) && GoodDigits(ds) && ds != []
    requires extension == [] || extension[0] == SEMICOLON
    ensures ChunkSize(pre + Number(plus, ds) + post + extension)
         == if ValueOf(ds) < 0x1_0000_0000_0000_0000 then Some(ValueOf(ds)) else None
  {
    var number := Number(plus, ds);
    NumberIsPrinted(plus, ds);
    FirstFieldIs(pre + number + post, extension);
    Trimmed(pre, number, post);
    NumberRead(plus, ds);
  }
}
