/** Reading the output of `git cat-file --batch`: length-prefixed records whose contents may look like
    records themselves (benchmarks/performance/run.ts). */
module GitBatch {
  import opened Wrappers

  type Byte = b: int | 0 <= b < 256
  type Bytes = seq<Byte>

  const NEWLINE: Byte := 10

  /** " blob " */
  const BLOB: Bytes := [32, 98, 108, 111, 98, 32]

  predicate Digit(b: Byte) { 48 <= b <= 57 }

  predicate Hex(b: Byte) { Digit(b) || 97 <= b <= 102 }

  function Number(digits: Bytes): nat
    requires forall d | d in digits :: Digit(d)
  {
    if digits == [] then 0
    else
      var n := |digits| - 1;
      assert forall d | d in digits[..n] :: d in digits;
      var last: int := digits[n];
      assert Digit(digits[n]);
      Number(digits[..n]) * 10 + (last - 48)
  }

  function Decimal(n: nat): (s: Bytes)
    ensures |s| > 0 && forall d | d in s :: Digit(d)
  {
    if n < 10 then [48 + n] else Decimal(n / 10) + [48 + n % 10]
  }

  lemma {:induction false} DecimalReadsBack(n: nat)
    ensures Number(Decimal(n)) == n
  {
    var s := Decimal(n);
    if n < 10 {
      assert s[..0] == [];
    } else {
      DecimalReadsBack(n / 10);
      assert s[..|s| - 1] == Decimal(n / 10);
    }
  }

  /** The regular expression of line 131. */
  predicate IsHeader(h: Bytes) {
    && |h| > 46
    && (forall i | 0 <= i < 40 :: Hex(h[i]))
    && h[40..46] == BLOB
    && (forall d | d in h[46..] :: Digit(d))
  }

  function Size(h: Bytes): nat
    requires IsHeader(h)
  {
    Number(h[46..])
  }

  /** Buffer.indexOf. */
  function IndexOf(bytes: Bytes, b: Byte): (k: int)
    ensures -1 <= k < |bytes|
    ensures k < 0 ==> b !in bytes
    ensures k >= 0 ==> bytes[k] == b && b !in bytes[..k]
  {
    if bytes == [] then -1
    else if bytes[0] == b then 0
    else
      var k := IndexOf(bytes[1..], b);
      assert k >= 0 ==> bytes[..k + 1] == [bytes[0]] + bytes[1..][..k];
      if k < 0 then -1 else k + 1
  }

  /** Lines 129-137: the content of the first record, and what follows it. */
  function First(bytes: Bytes): Option<(Bytes, Bytes)> {
    var end := IndexOf(bytes, NEWLINE);
    if end < 0 || !IsHeader(bytes[..end]) then None
    else
      var start, size := end + 1, Size(bytes[..end]);
      if start + size < |bytes| && bytes[start + size] == NEWLINE then
        Some((bytes[start..start + size], bytes[start + size + 1..]))
      else None
  }

  /** As many records as there are paths, and nothing after them. */
  function Parse(bytes: Bytes, paths: nat): Option<seq<Bytes>> {
    if paths == 0 then (if bytes == [] then Some([]) else None)
    else match First(bytes)
      case None => None
      case Some((content, rest)) =>
        match Parse(rest, paths - 1)
        case None => None
        case Some(contents) => Some([content] + contents)
  }

  lemma ParseStep(bytes: Bytes, content: Bytes, rest: Bytes, paths: nat)
    requires First(bytes) == Some((content, rest))
    ensures Parse(bytes, paths + 1) == match Parse(rest, paths)
                                       case None => None
                                       case Some(contents) => Some([content] + contents)
  {
  }

  /** Lines 129-137, on the buffer itself: the content and the new offset. */
  method Next(output: Bytes, offset: nat) returns (r: Option<(Bytes, nat)>)
    requires offset <= |output|
    ensures r.Some? ==> r.value.1 <= |output|
    ensures First(output[offset..]) == match r case None => None case Some((content, next)) => Some((content, output[next..]))
  {
    ghost var tail := output[offset..];
    var k := IndexOf(output[offset..], NEWLINE);
    if k < 0 {
      return None;
    }
    var end := offset + k;
    var header := output[offset..end];
    assert header == tail[..k];
    if !IsHeader(header) {
      return None;
    }
    var size := Size(header);
    var start := end + 1;
    assert start + size < |output| ==> output[start + size] == tail[k + 1 + size];
    if start + size >= |output| || output[start + size] != NEWLINE {
      return None;
    }
    assert output[start + size + 1..] == tail[k + 1 + size + 1..];
    assert output[start..start + size] == tail[k + 1..k + 1 + size];
    r := Some((output[start..start + size], start + size + 1));
  }

  /** What is still to be read, put behind what has been. */
  function Joined(found: seq<Bytes>, rest: Option<seq<Bytes>>): Option<seq<Bytes>> {
    match rest case None => None case Some(contents) => Some(found + contents)
  }

  lemma JoinedToNothing(rest: Option<seq<Bytes>>)
    ensures Joined([], rest) == rest
  {
    assert rest.Some? ==> [] + rest.value == rest.value;
  }

  lemma JoinedStep(found: seq<Bytes>, bytes: Bytes, paths: nat)
    requires paths > 0
    ensures Joined(found, Parse(bytes, paths)) ==
              match First(bytes)
              case None => None
              case Some((content, rest)) => Joined(found + [content], Parse(rest, paths - 1))
  {
    if First(bytes).Some? {
      var (content, rest) := First(bytes).value;
      if Parse(rest, paths - 1).Some? {
        assert found + ([content] + Parse(rest, paths - 1).value) == (found + [content]) + Parse(rest, paths - 1).value;
      }
    }
  }

  lemma JoinedEnds(found: seq<Bytes>, bytes: Bytes)
    ensures Joined(found, Parse(bytes, 0)) == if bytes == [] then Some(found) else None
  {
    assert found + [] == found;
  }

  /** Buffer.toString("utf8"): it replaces what is not valid text. */
  type Decoder = Bytes -> string

  function Decoded(decode: Decoder, contents: seq<Bytes>): seq<string> {
    seq(|contents|, i requires 0 <= i < |contents| => decode(contents[i]))
  }

  /** Lines 127-140: the contents, each decoded on its own. */
  method Batch(output: Bytes, paths: nat, decode: Decoder) returns (texts: Option<seq<string>>)
    ensures texts == match Parse(output, paths) case None => None case Some(contents) => Some(Decoded(decode, contents))
  {
    var offset := 0;
    var read: seq<string> := [];
    ghost var found: seq<Bytes> := [];
    ghost var left, expected := output, Parse(output, paths);
    assert output[0..] == output;
    JoinedToNothing(expected);
    for i := 0 to paths
      invariant 0 <= offset <= |output| && left == output[offset..]
      invariant expected == Joined(found, Parse(left, paths - i)) && read == Decoded(decode, found)
    {
      JoinedStep(found, left, paths - i);
      var next := Next(output, offset);
      if next.None? {
        return None;
      }
      read, offset := read + [decode(next.value.0)], next.value.1;
      found := found + [next.value.0];
      left := output[offset..];
    }
    JoinedEnds(found, left);
    texts := if offset == |output| then Some(read) else None;
  }

  // ---------------------------------------------------------------- what git prints

  datatype Blob = Blob(oid: Bytes, content: Bytes)
  {
    predicate Valid() { |oid| == 40 && forall b | b in oid :: Hex(b) }

    function Header(): Bytes { oid + BLOB + Decimal(|content|) }
  }

  function Record(header: Bytes, content: Bytes): Bytes { header + [NEWLINE] + content + [NEWLINE] }

  function Print(blobs: seq<Blob>): Bytes {
    if blobs == [] then [] else Record(blobs[0].Header(), blobs[0].content) + Print(blobs[1..])
  }

  function Contents(blobs: seq<Blob>): seq<Bytes> { seq(|blobs|, i requires 0 <= i < |blobs| => blobs[i].content) }

  lemma HeaderIsWellFormed(blob: Blob)
    requires blob.Valid()
    ensures IsHeader(blob.Header()) && Size(blob.Header()) == |blob.content|
  {
    var h := blob.Header();
    var digits := Decimal(|blob.content|);
    assert h[..40] == blob.oid && h[40..46] == BLOB && h[46..] == digits;
    assert forall i | 0 <= i < 40 :: h[i] == blob.oid[i] && blob.oid[i] in blob.oid;
    DecimalReadsBack(|blob.content|);
  }

  lemma HeaderHasNoNewline(h: Bytes)
    requires IsHeader(h)
    ensures NEWLINE !in h
  {
    forall i | 0 <= i < |h| ensures h[i] != NEWLINE {
      assert 40 <= i < 46 ==> h[i] == BLOB[i - 40];
      assert i >= 46 ==> h[i] in h[46..];
    }
  }

  lemma NewlineEndsHeader(h: Bytes, tail: Bytes)
    requires NEWLINE !in h
    ensures IndexOf(h + [NEWLINE] + tail, NEWLINE) == |h|
  {
    var bytes := h + [NEWLINE] + tail;
    var k := IndexOf(bytes, NEWLINE);
    assert bytes[|h|] == NEWLINE;
    assert forall i | 0 <= i < |h| :: bytes[i] == h[i];
    forall i | 0 <= i < k ensures bytes[i] != NEWLINE {
      assert bytes[..k][i] == bytes[i];
    }
  }

  /** The length decides where a record ends, whatever its content looks like. */
  lemma FirstReadsRecord(h: Bytes, content: Bytes, tail: Bytes)
    requires IsHeader(h) && Size(h) == |content|
    ensures First(Record(h, content) + tail) == Some((content, tail))
  {
    var bytes := Record(h, content) + tail;
    HeaderHasNoNewline(h);
    NewlineEndsHeader(h, content + [NEWLINE] + tail);
    assert bytes == h + [NEWLINE] + (content + [NEWLINE] + tail);
    assert bytes[..|h|] == h;
    var start := |h| + 1;
    assert bytes[start..start + |content|] == content;
    assert bytes[start + |content| + 1..] == tail;
  }

  /** Conversely, an accepted record is a header, its newline, that many bytes and a newline. */
  lemma FirstIsRecord(bytes: Bytes)
    requires First(bytes).Some?
    ensures exists h :: IsHeader(h) && Size(h) == |First(bytes).value.0|
                        && bytes == Record(h, First(bytes).value.0) + First(bytes).value.1
  {
    var h := bytes[..IndexOf(bytes, NEWLINE)];
    assert bytes == Record(h, First(bytes).value.0) + First(bytes).value.1;
  }

  /** A record cut short is rejected, so its own prefix never passes for another one. */
  lemma CutRecordIsRejected(h: Bytes, content: Bytes, cut: Bytes)
    requires IsHeader(h) && Size(h) == |content| && cut < Record(h, content)
    ensures First(cut).None?
  {
    HeaderHasNoNewline(h);
    var whole := Record(h, content);
    if |cut| <= |h| {
      assert cut == h[..|cut|];
    } else {
      assert cut[..|h|] == h && cut[|h|] == NEWLINE;
      NewlineEndsHeader(h, cut[|h| + 1..]);
      assert cut == h + [NEWLINE] + cut[|h| + 1..];
    }
  }

  /** A cut inside the first record, or a cut of what follows it. */
  lemma CutFirst(bytes: Bytes, cut: Bytes)
    requires First(bytes).Some? && cut < bytes
    ensures First(cut).None? || (exists rest :: First(cut) == Some((First(bytes).value.0, rest)) && rest < First(bytes).value.1)
  {
    FirstIsRecord(bytes);
    var (content, rest) := First(bytes).value;
    var h :| IsHeader(h) && Size(h) == |content| && bytes == Record(h, content) + rest;
    var n := |Record(h, content)|;
    if |cut| < n {
      assert cut == Record(h, content)[..|cut|];
      CutRecordIsRejected(h, content, cut);
    } else {
      assert cut == Record(h, content) + cut[n..];
      assert cut[n..] == rest[..|cut| - n];
      FirstReadsRecord(h, content, cut[n..]);
    }
  }

  /** No proper prefix of an accepted output is accepted for the same number of paths. */
  lemma {:induction false} ProperPrefixIsRejected(bytes: Bytes, paths: nat, cut: Bytes)
    requires Parse(bytes, paths).Some? && cut < bytes
    ensures Parse(cut, paths).None?
    decreases paths
  {
    if paths > 0 {
      CutFirst(bytes, cut);
      if First(cut).Some? {
        ProperPrefixIsRejected(First(bytes).value.1, paths - 1, First(cut).value.1);
      }
    }
  }

  ghost predicate RecordAt(bytes: Bytes, h: Bytes, content: Bytes, rest: Bytes) {
    IsHeader(h) && Size(h) == |content| && bytes == Record(h, content) + rest
  }

  ghost predicate Records(bytes: Bytes, contents: seq<Bytes>)
    decreases |contents|
  {
    if contents == [] then bytes == []
    else exists h, rest :: RecordAt(bytes, h, contents[0], rest) && Records(rest, contents[1..])
  }

  /** What is accepted at all: exactly a sequence of well-formed records with these contents. */
  lemma {:induction false} AcceptedAreRecords(bytes: Bytes, contents: seq<Bytes>)
    requires Parse(bytes, |contents|) == Some(contents)
    ensures Records(bytes, contents)
    decreases |contents|
  {
    if contents != [] {
      AcceptedHead(bytes, contents);
      AcceptedAreRecords(First(bytes).value.1, contents[1..]);
    }
  }

  lemma {:induction false} RecordsAreAccepted(bytes: Bytes, contents: seq<Bytes>)
    requires Records(bytes, contents)
    ensures Parse(bytes, |contents|) == Some(contents)
    decreases |contents|
  {
    if contents != [] {
      var first, others := contents[0], contents[1..];
      assert contents == [first] + others && |contents| == |others| + 1;
      var h, rest :| RecordAt(bytes, h, first, rest) && Records(rest, others);
      RecordsAreAccepted(rest, others);
      RecordIsAccepted(bytes, h, first, rest, others);
    }
  }

  lemma RecordIsAccepted(bytes: Bytes, h: Bytes, content: Bytes, rest: Bytes, contents: seq<Bytes>)
    requires RecordAt(bytes, h, content, rest) && Parse(rest, |contents|) == Some(contents)
    ensures Parse(bytes, |contents| + 1) == Some([content] + contents)
  {
    FirstReadsRecord(h, content, rest);
    ParseStep(bytes, content, rest, |contents|);
  }

  lemma AcceptedIffRecords(bytes: Bytes, contents: seq<Bytes>)
    ensures Parse(bytes, |contents|) == Some(contents) <==> Records(bytes, contents)
  {
    if Parse(bytes, |contents|) == Some(contents) {
      AcceptedAreRecords(bytes, contents);
    }
    if Records(bytes, contents) {
      RecordsAreAccepted(bytes, contents);
    }
  }

  lemma AcceptedHead(bytes: Bytes, contents: seq<Bytes>)
    requires contents != [] && Parse(bytes, |contents|) == Some(contents)
    ensures First(bytes).Some? && First(bytes).value.0 == contents[0]
    ensures Parse(First(bytes).value.1, |contents| - 1) == Some(contents[1..])
    ensures exists h :: RecordAt(bytes, h, contents[0], First(bytes).value.1)
  {
    FirstIsRecord(bytes);
    var (content, rest) := First(bytes).value;
    var tail := Parse(rest, |contents| - 1).value;
    assert contents == [content] + tail && contents[1..] == tail;
    var h :| IsHeader(h) && Size(h) == |content| && bytes == Record(h, content) + rest;
    assert RecordAt(bytes, h, contents[0], rest);
  }

  lemma {:induction false} PrintedAreRecords(blobs: seq<Blob>)
    requires forall b | b in blobs :: b.Valid()
    ensures Records(Print(blobs), Contents(blobs))
    decreases |blobs|
  {
    var contents := Contents(blobs);
    if blobs == [] {
      assert contents == [];
    } else {
      PrintedAreRecords(blobs[1..]);
      HeaderIsWellFormed(blobs[0]);
      assert contents[0] == blobs[0].content && contents[1..] == Contents(blobs[1..]);
      assert RecordAt(Print(blobs), blobs[0].Header(), contents[0], Print(blobs[1..]));
    }
  }

  /** Whatever git prints for a list of blobs is read back as their contents, to the last byte. */
  lemma PrintedIsReadBack(blobs: seq<Blob>)
    requires forall b | b in blobs :: b.Valid()
    ensures Parse(Print(blobs), |blobs|) == Some(Contents(blobs))
  {
    PrintedAreRecords(blobs);
    RecordsAreAccepted(Print(blobs), Contents(blobs));
  }

  function BlobsOf(oids: seq<Bytes>, texts: seq<string>, encode: string -> Bytes): seq<Blob>
    requires |oids| == |texts|
  {
    seq(|texts|, i requires 0 <= i < |texts| => Blob(oids[i], encode(texts[i])))
  }

  lemma BlobsAreValid(oids: seq<Bytes>, texts: seq<string>, encode: string -> Bytes)
    requires |oids| == |texts| && forall oid | oid in oids :: |oid| == 40 && forall b | b in oid :: Hex(b)
    ensures forall b | b in BlobsOf(oids, texts, encode) :: b.Valid()
  {
    var blobs := BlobsOf(oids, texts, encode);
    forall b | b in blobs ensures b.Valid() {
      var i :| 0 <= i < |blobs| && blobs[i] == b;
      assert oids[i] in oids;
    }
  }

  lemma ContentsDecode(oids: seq<Bytes>, texts: seq<string>, encode: string -> Bytes, decode: Decoder)
    requires |oids| == |texts| && forall text | text in texts :: decode(encode(text)) == text
    ensures Decoded(decode, Contents(BlobsOf(oids, texts, encode))) == texts
  {
    var decoded := Decoded(decode, Contents(BlobsOf(oids, texts, encode)));
    forall i | 0 <= i < |texts| ensures decoded[i] == texts[i] {
      assert texts[i] in texts;
    }
  }

  /** Texts that git stores as encoded are read back as they were, even when they look like records. */
  lemma PrintedTextsAreReadBack(oids: seq<Bytes>, texts: seq<string>, encode: string -> Bytes, decode: Decoder)
    requires |oids| == |texts| && forall oid | oid in oids :: |oid| == 40 && forall b | b in oid :: Hex(b)
    requires forall text | text in texts :: decode(encode(text)) == text
    ensures var parsed := Parse(Print(BlobsOf(oids, texts, encode)), |texts|);
            parsed.Some? && Decoded(decode, parsed.value) == texts
  {
    BlobsAreValid(oids, texts, encode);
    ContentsDecode(oids, texts, encode, decode);
    PrintedIsReadBack(BlobsOf(oids, texts, encode));
  }
}
