/** Splitting a stream of any chunking into upload parts (object-storage-s3.ts). */
module Multipart {
  import opened Arith
  import opened Storage

  type Bytes = seq<byte>

  /** The content of a stream that arrives in chunks. */
  function Content(chunks: seq<Bytes>): Bytes {
    if chunks == [] then [] else Content(chunks[..|chunks| - 1]) + chunks[|chunks| - 1]
  }

  datatype Part = Part(number: nat, body: Bytes)

  function Joined(parts: seq<Part>): Bytes {
    if parts == [] then [] else Joined(parts[..|parts| - 1]) + parts[|parts| - 1].body
  }

  /** Numbered from 1 in order, every one of full size. */
  ghost predicate FullParts(parts: seq<Part>, partSize: nat) {
    forall i :: 0 <= i < |parts| ==> parts[i].number == i + 1 && |parts[i].body| == partSize
  }

  lemma JoinedSnoc(parts: seq<Part>, p: Part)
    ensures Joined(parts + [p]) == Joined(parts) + p.body
  {
    assert (parts + [p])[..|parts|] == parts;
  }

  lemma {:induction false} FullPartsLength(parts: seq<Part>, partSize: nat)
    requires FullParts(parts, partSize)
    ensures |Joined(parts)| == Times(|parts|, partSize)
  {
    if parts != [] {
      FullPartsLength(parts[..|parts| - 1], partSize);
    }
  }

  /** The inner loop: cut full parts off the front of what is pending. */
  method CutParts(pending0: Bytes, parts0: seq<Part>, partSize: nat) returns (pending: Bytes, parts: seq<Part>)
    requires partSize > 0 && FullParts(parts0, partSize)
    ensures |pending| < partSize && FullParts(parts, partSize)
    ensures Joined(parts) + pending == Joined(parts0) + pending0
  {
    pending, parts := pending0, parts0;
    var partNumber := |parts| + 1;
    while |pending| >= partSize
      invariant FullParts(parts, partSize) && partNumber == |parts| + 1
      invariant Joined(parts) + pending == Joined(parts0) + pending0
      decreases |pending|
    {
      var part := pending[..partSize];
      JoinedSnoc(parts, Part(partNumber, part));
      assert Joined(parts) + pending == Joined(parts) + part + pending[partSize..];
      pending := pending[partSize..];
      parts := parts + [Part(partNumber, part)];
      partNumber := partNumber + 1;
    }
  }

  /** What was uploaded for a stream: all of it, in order, in full parts but for the last. */
  ghost predicate Uploaded(parts: seq<Part>, content: Bytes, partSize: nat)
    requires partSize > 0
  {
    && Joined(parts) == content
    && (forall i :: 0 <= i < |parts| ==> parts[i].number == i + 1)
    && (forall i :: 0 <= i < |parts| - 1 ==> |parts[i].body| == partSize)
    && (parts != [] ==> 1 <= |parts[|parts| - 1].body| <= partSize)
    && |parts| == CeilDiv(|content|, partSize)
  }

  lemma CountParts(n: nat, rest: nat, partSize: nat)
    requires partSize > 0 && rest < partSize
    ensures CeilDiv(Times(n, partSize) + rest, partSize) == n + if rest > 0 then 1 else 0
  {
    TimesIsProduct(n, partSize);
    var total := n * partSize + rest;
    if rest > 0 {
      assert total + partSize - 1 == (n + 1) * partSize + (rest - 1) by {
        assert (n + 1) * partSize == n * partSize + partSize;
      }
      DivUnique(total + partSize - 1, partSize, n + 1, rest - 1);
    } else {
      DivUnique(total + partSize - 1, partSize, n, partSize - 1);
    }
  }

  function WithRest(parts: seq<Part>, pending: Bytes): seq<Part> {
    if |pending| > 0 then parts + [Part(|parts| + 1, pending)] else parts
  }

  lemma RestCounted(parts: seq<Part>, pending: Bytes, partSize: nat)
    requires partSize > 0 && FullParts(parts, partSize) && |pending| < partSize
    ensures |WithRest(parts, pending)| == CeilDiv(|Joined(parts) + pending|, partSize)
  {
    FullPartsLength(parts, partSize);
    CountParts(|parts|, |pending|, partSize);
  }

  lemma RestJoined(parts: seq<Part>, pending: Bytes)
    ensures Joined(WithRest(parts, pending)) == Joined(parts) + pending
  {
    if |pending| > 0 {
      JoinedSnoc(parts, Part(|parts| + 1, pending));
    } else {
      assert Joined(parts) + pending == Joined(parts);
    }
  }

  lemma LastPart(parts: seq<Part>, pending: Bytes, content: Bytes, partSize: nat)
    requires partSize > 0 && FullParts(parts, partSize) && |pending| < partSize && Joined(parts) + pending == content
    ensures Uploaded(WithRest(parts, pending), content, partSize)
  {
    RestCounted(parts, pending, partSize);
    RestJoined(parts, pending);
  }

  /** The split loop of `#putObjectStreamMultipart`. An empty stream uploads no part. */
  method UploadStream(chunks: seq<Bytes>, partSize: nat) returns (parts: seq<Part>)
    requires partSize > 0
    ensures Uploaded(parts, Content(chunks), partSize)
    ensures parts == [] <==> Content(chunks) == []
  {
    var pending: Bytes := [];
    parts := [];
    var i := 0;
    while i < |chunks|
      invariant 0 <= i <= |chunks|
      invariant |pending| < partSize && FullParts(parts, partSize)
      invariant Joined(parts) + pending == Content(chunks[..i])
    {
      var chunk := chunks[i];
      assert chunks[..i + 1][..i] == chunks[..i];
      assert Joined(parts) + pending + chunk == Joined(parts) + (pending + chunk);
      pending, parts := CutParts(pending + chunk, parts, partSize);
      i := i + 1;
    }
    assert chunks[..i] == chunks;
    LastPart(parts, pending, Content(chunks), partSize);
    if |pending| > 0 {
      parts := parts + [Part(|parts| + 1, pending)];
    }
    NoParts(parts, partSize, Content(chunks));
  }

  lemma NoParts(parts: seq<Part>, partSize: nat, content: Bytes)
    requires partSize > 0 && Uploaded(parts, content, partSize)
    ensures parts == [] <==> content == []
  {
    if parts != [] {
      assert |Joined(parts)| >= |parts[|parts| - 1].body|;
    }
  }
}
