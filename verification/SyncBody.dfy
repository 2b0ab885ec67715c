/** The body a sync is answered with: a header length, a header, and every file's bytes end to end. */
module SyncBody {
  import opened Sequences
  import opened SandboxSync

  datatype FileHeader = FileHeader(path: string, absPath: string, mtime: real, len: nat)

  datatype Header = Header(toSync: seq<FileHeader>, deleted: seq<string>, skipped: seq<SyncSkipped>, workdirAbs: string)

  const TWO_TO_THE_32: nat := 0x1_0000_0000

  function HeaderOf(f: SyncFile): FileHeader {
    FileHeader(f.path, f.absPath, f.mtime, |f.bytes|)
  }

  function HeadersOf(files: seq<SyncFile>): seq<FileHeader> {
    seq(|files|, i requires 0 <= i < |files| => HeaderOf(files[i]))
  }

  function HeaderFor(r: SyncResult): Header {
    Header(HeadersOf(r.toSync), r.deleted, r.skipped, r.workdirAbs)
  }

  function LittleEndian(n: nat): Bytes
    requires n < TWO_TO_THE_32
  {
    [n % 256, n / 256 % 256, n / 65536 % 256, n / 16777216]
  }

  function FromLittleEndian(s: Bytes): nat
    requires |s| == 4
  {
    var b0: nat, b1: nat, b2: nat, b3: nat := s[0], s[1], s[2], s[3];
    b0 + 256 * b1 + 65536 * b2 + 16777216 * b3
  }

  function Bodies(files: seq<SyncFile>): Bytes {
    if files == [] then [] else Bodies(files[..|files| - 1]) + files[|files| - 1].bytes
  }

  /** `json` writes a header and may fail; a header of 2^32 bytes or more does not fit its length. */
  method EncodeSync(json: Header -> Option<Bytes>, r: SyncResult) returns (out: Option<Bytes>)
    ensures out == Encoded(json, r)
    ensures out.Some? <==> json(HeaderFor(r)).Some? && |json(HeaderFor(r)).value| < 0x1_0000_0000
    ensures out.Some? ==>
            var header, body := json(HeaderFor(r)).value, out.value;
            && |body| >= 4 + |header|
            && body[0] as int + 0x100 * body[1] as int + 0x1_0000 * body[2] as int + 0x100_0000 * body[3] as int == |header|
            && body[4..4 + |header|] == header
  {
    var header := json(HeaderFor(r));
    if header.None? || |header.value| >= TWO_TO_THE_32 {
      return None;
    }
    var body := LittleEndian(|header.value|) + header.value;
    for i := 0 to |r.toSync|
      invariant body == LittleEndian(|header.value|) + header.value + Bodies(r.toSync[..i])
    {
      assert r.toSync[..i + 1][..i] == r.toSync[..i];
      body := body + r.toSync[i].bytes;
    }
    assert r.toSync[..|r.toSync|] == r.toSync;
    BodyBegins(header.value, Bodies(r.toSync));
    return Some(body);
  }

  /** A body begins with the length of its header, the low byte first, and then the header. */
  lemma {:induction false} BodyBegins(header: Bytes, bodies: Bytes)
    requires |header| < TWO_TO_THE_32
    ensures
      var body := LittleEndian(|header|) + header + bodies;
      && body[0] as int + 0x100 * body[1] as int + 0x1_0000 * body[2] as int + 0x100_0000 * body[3] as int == |header|
      && body[4..4 + |header|] == header
  {
    LittleEndianRoundTrip(|header|);
    var body := LittleEndian(|header|) + header + bodies;
    assert body[..4] == LittleEndian(|header|);
  }

  function Encoded(json: Header -> Option<Bytes>, r: SyncResult): Option<Bytes> {
    var header := json(HeaderFor(r));
    if header.None? || |header.value| >= TWO_TO_THE_32 then None
    else Some(LittleEndian(|header.value|) + header.value + Bodies(r.toSync))
  }

  // Reading it back.

  /** The files of a header, each with its part of `body` from `offset` on; `None` when a part is not there. */
  function Cut(headers: seq<FileHeader>, body: Bytes, offset: nat): Option<seq<SyncFile>> {
    if headers == [] then Some([])
    else if offset + headers[0].len > |body| then None
    else
      match Cut(headers[1..], body, offset + headers[0].len)
      case None => None
      case Some(rest) =>
        Some([SyncFile(headers[0].path, headers[0].absPath, body[offset..offset + headers[0].len], headers[0].mtime)] + rest)
  }

  /** What the reader of a body makes of it; `parse` reads a header. */
  function DecodeSync(parse: Bytes -> Option<Header>, body: Bytes): Option<SyncResult> {
    if |body| < 4 then None else
    var end := 4 + FromLittleEndian(body[..4]);
    if end > |body| then None else
    match parse(body[4..end])
    case None => None
    case Some(header) =>
      match Cut(header.toSync, body, end)
      case None => None
      case Some(files) => Some(SyncResult(files, header.deleted, header.skipped, header.workdirAbs))
  }

  lemma {:induction false} LittleEndianRoundTrip(n: nat)
    requires n < TWO_TO_THE_32
    ensures FromLittleEndian(LittleEndian(n)) == n
  {
    assert n / 0x1_0000 == n / 0x100 / 0x100;
    assert n / 0x100_0000 == n / 0x1_0000 / 0x100;
  }

  lemma {:induction false} BodiesFront(files: seq<SyncFile>)
    requires files != []
    ensures Bodies(files) == files[0].bytes + Bodies(files[1..])
  {
    if |files| > 1 {
      var before := files[..|files| - 1];
      BodiesFront(before);
      assert before[1..] == files[1..][..|files| - 2];
      assert files[1..][|files| - 2] == files[|files| - 1];
    }
  }

  lemma {:induction false} HeadersFront(files: seq<SyncFile>)
    requires files != []
    ensures HeadersOf(files) == [HeaderOf(files[0])] + HeadersOf(files[1..])
  {
  }

  /** The headers of the files cut their bytes back out of the body that carries them. */
  lemma {:induction false} CutFindsFiles(files: seq<SyncFile>, front: Bytes)
    ensures Cut(HeadersOf(files), front + Bodies(files), |front|) == Some(files)
  {
    if files != [] {
      hide Bodies, HeadersOf;
      var first, rest := files[0], files[1..];
      HeadersFront(files);
      BodiesFront(files);
      CutFindsFiles(rest, front + first.bytes);
      assert front + Bodies(files) == (front + first.bytes) + Bodies(rest);
      assert (front + Bodies(files))[|front|..|front| + |first.bytes|] == first.bytes;
      assert [first] + rest == files;
    }
  }

  /** Whatever is encoded decodes to what it was, given that headers do. */
  lemma {:induction false} DecodeUndoesEncode(json: Header -> Option<Bytes>, parse: Bytes -> Option<Header>, r: SyncResult)
    requires Encoded(json, r).Some?
    requires json(HeaderFor(r)).Some? ==> parse(json(HeaderFor(r)).value) == Some(HeaderFor(r))
    ensures DecodeSync(parse, Encoded(json, r).value) == Some(r)
  {
    var header := json(HeaderFor(r)).value;
    var front := LittleEndian(|header|) + header;
    var body := front + Bodies(r.toSync);
    LittleEndianRoundTrip(|header|);
    assert body[..4] == LittleEndian(|header|);
    assert body[4..4 + |header|] == header;
    assert HeaderFor(r).toSync == HeadersOf(r.toSync);
    CutFindsFiles(r.toSync, front);
  }
}
