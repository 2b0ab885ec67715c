/** Resumable downloads: attempts that may resume, restart, be cancelled or fail, and the hash check before the real name. */
module Download {
  import opened Sequences

  /** The two files of a download: the `.partial` and the real name. */
  datatype Files = Files(partial: Option<Bytes>, final: Option<Bytes>)

  datatype Read = Chunk(bytes: Bytes) | ReadFailed

  /** How a write of a chunk goes: all of it, or an error after some of it. */
  datatype Write = WroteAll | WroteSome(n: nat)

  /** One turn of the receive loop as the world has it: the cancel flag, what the stream gives, how the write goes. */
  datatype Item = Item(cancelled: bool, read: Read, write: Write)

  /** Everything one attempt meets outside the program. */
  datatype World = World(
    sizeReadable: bool, sent: bool, status: nat, contentLength: Option<nat>, openable: bool,
    items: seq<Item>, flushed: bool, hashReadable: bool, removable: bool, renamed: bool)

  datatype Outcome =
    | Finished
    | RequestFailed
    | BadStatus(status: nat)
    | OpenFailed
    | Cancelled
    | StreamFailed
    | WriteFailed
    | FlushFailed
    | HashFailed
    | HashMismatch
    | RenameFailed

  // One attempt.

  function SaturatingSub(a: nat, b: nat): nat { if a < b then 0 else a - b }

  function ResumeTotalSize(existingSize: nat, contentLength: Option<nat>, expectedSize: nat): nat {
    var remaining := if existingSize > 0 then SaturatingSub(expectedSize, existingSize) else expectedSize;
    existingSize + if contentLength.Some? then contentLength.value else remaining
  }

  predicate IsSuccess(status: nat) { 200 <= status < 300 }

  function ExistingSize(files: Files, w: World): nat {
    if files.partial.Some? && w.sizeReadable then |files.partial.value| else 0
  }

  /** A resume only when the server honoured the range. */
  predicate Resumes(files: Files, w: World) {
    ExistingSize(files, w) > 0 && w.status == 206
  }

  function Written(item: Item): Bytes
    requires item.read.Chunk?
  {
    match item.write
    case WroteAll => item.read.bytes
    case WroteSome(n) => if n <= |item.read.bytes| then item.read.bytes[..n] else item.read.bytes
  }

  /** The stream written to the end of `file`: the file, the bytes counted, and how it ended. */
  function Receive(items: seq<Item>, file: Bytes, downloaded: nat): (Bytes, nat, Outcome)
  {
    if items == [] then (file, downloaded, Finished)
    else if items[0].cancelled then (file, downloaded, Cancelled)
    else if items[0].read.ReadFailed? then (file, downloaded, StreamFailed)
    else if items[0].write.WroteSome? then (file + Written(items[0]), downloaded, WriteFailed)
    else Receive(items[1..], file + items[0].read.bytes, downloaded + |items[0].read.bytes|)
  }

  lemma {:induction false} ReceiveAt(items: seq<Item>, i: nat, file: Bytes, downloaded: nat)
    requires i < |items|
    ensures
      var item := items[i];
      Receive(items[i..], file, downloaded) ==
        if item.cancelled then (file, downloaded, Cancelled)
        else if item.read.ReadFailed? then (file, downloaded, StreamFailed)
        else if item.write.WroteSome? then (file + Written(item), downloaded, WriteFailed)
        else Receive(items[i + 1..], file + Written(item), downloaded + |item.read.bytes|)
  {
    assert items[i..][0] == items[i] && items[i..][1..] == items[i + 1..];
  }

  lemma {:induction false} ReceiveNothing(file: Bytes, downloaded: nat)
    ensures Receive([], file, downloaded) == (file, downloaded, Finished)
  {
  }

  function LowerAscii(c: char): char {
    if 'A' <= c <= 'Z' then c + ('a' - 'A') else c
  }

  predicate EqIgnoreAsciiCase(a: string, b: string) {
    |a| == |b| && forall i :: 0 <= i < |a| ==> LowerAscii(a[i]) == LowerAscii(b[i])
  }

  /** What is done with a complete partial: checked when there is a hash to check, then renamed. */
  function Promote(hash: Bytes -> string, files: Files, w: World, sha: Option<string>): (Files, Outcome)
    requires files.partial.Some?
  {
    if sha.Some? && !w.hashReadable then (files, HashFailed)
    else if sha.Some? && !EqIgnoreAsciiCase(hash(files.partial.value), sha.value) then
      (if w.removable then files.(partial := None) else files, HashMismatch)
    else if !w.renamed then (files, RenameFailed)
    else (Files(None, files.partial), Finished)
  }

  /** One call of the core download: the files after it, how it ended, and the progress it had counted. */
  function Attempt(hash: Bytes -> string, files: Files, w: World, expectedSize: nat, sha: Option<string>)
    : (Files, Outcome, nat, nat)
  {
    if !w.sent then (files, RequestFailed, 0, 0)
    else if !IsSuccess(w.status) then (files, BadStatus(w.status), 0, 0)
    else
      var base := if Resumes(files, w) then ExistingSize(files, w) else 0;
      var total := ResumeTotalSize(base, w.contentLength, expectedSize);
      if !w.openable then (files, OpenFailed, base, total)
      else
        var start := if Resumes(files, w) then files.partial.value else [];
        var (file, downloaded, outcome) := Receive(w.items, start, base);
        var received := files.(partial := Some(file));
        if outcome != Finished then (received, outcome, downloaded, total)
        else if !w.flushed then (received, FlushFailed, downloaded, total)
        else
          var (promoted, end) := Promote(hash, received, w, sha);
          (promoted, end, downloaded, total)
  }

  function AttemptInto(hash: Bytes -> string, files: Files, w: World, expectedSize: nat, sha: string): (Files, Outcome) {
    if files.final.Some? then (files, Finished) else
    var (after, outcome, _, _) := Attempt(hash, files, w, expectedSize, Some(sha));
    (after, outcome)
  }

  /** The files after a series of attempts. */
  function Attempts(hash: Bytes -> string, files: Files, ws: seq<World>, expectedSize: nat, sha: string): Files {
    if ws == [] then files
    else AttemptInto(hash, Attempts(hash, files, ws[..|ws| - 1], expectedSize, sha), ws[|ws| - 1], expectedSize, sha).0
  }

  // The remote file.

  function Body(items: seq<Item>): Bytes {
    if items == [] then []
    else (if items[0].read.Chunk? then items[0].read.bytes else []) + Body(items[1..])
  }

  /** Whether the request asks for a range: there is something to resume from, and its size can be read. */
  predicate AsksForRange(files: Files, w: World) {
    files.partial.Some? && files.partial.value != [] && w.sizeReadable
  }

  /**
   An answer about the fixed file `content`: a 206 to a range request carries
   bytes from the requested offset on (section 15.3.7 of RFC 9110), any other
   success carries them from the start. The stream may stop early.
   */
  ghost predicate Honest(content: Bytes, files: Files, w: World) {
    w.sent && 200 <= w.status < 300 ==>
      if w.status == 206 && AsksForRange(files, w)
      then |files.partial.value| <= |content| && Body(w.items) <= content[|files.partial.value|..]
      else Body(w.items) <= content
  }

  ghost predicate PartialIsPrefix(content: Bytes, files: Files) {
    files.partial.Some? ==> files.partial.value <= content
  }

  lemma {:induction false} ReceiveExtends(items: seq<Item>, file: Bytes, downloaded: nat)
    ensures file <= Receive(items, file, downloaded).0 <= file + Body(items)
    ensures downloaded <= Receive(items, file, downloaded).1
    ensures Receive(items, file, downloaded).2 == Finished ==> Receive(items, file, downloaded).0 == file + Body(items)
    ensures Receive(items, file, downloaded).2 != WriteFailed ==>
            Receive(items, file, downloaded).1 - downloaded == |Receive(items, file, downloaded).0| - |file|
  {
    if items != [] {
      var item := items[0];
      if !item.cancelled && item.read.Chunk? {
        assert file + (item.read.bytes + Body(items[1..])) == (file + item.read.bytes) + Body(items[1..]);
        if item.write.WroteAll? {
          ReceiveExtends(items[1..], file + item.read.bytes, downloaded + |item.read.bytes|);
        }
      }
    }
  }

  lemma {:induction false} ReceiveStaysPrefix(content: Bytes, items: seq<Item>, file: Bytes, downloaded: nat)
    requires file <= content && Body(items) <= content[|file|..]
    ensures Receive(items, file, downloaded).0 <= content
  {
    ReceiveExtends(items, file, downloaded);
    assert content == file + content[|file|..];
    assert file + Body(items) <= content;
  }

  /** An attempt keeps the partial a prefix of the content, however it is answered, cut short, cancelled or broken. */
  lemma {:induction false} AttemptKeepsPrefix(hash: Bytes -> string, content: Bytes, files: Files, w: World, expectedSize: nat, sha: Option<string>)
    requires PartialIsPrefix(content, files) && Honest(content, files, w)
    ensures PartialIsPrefix(content, Attempt(hash, files, w, expectedSize, sha).0)
  {
    if w.sent && IsSuccess(w.status) && w.openable {
      if Resumes(files, w) {
        ReceiveStaysPrefix(content, w.items, files.partial.value, |files.partial.value|);
      } else {
        assert content[0..] == content;
        ReceiveStaysPrefix(content, w.items, [], 0);
      }
    }
  }

  ghost predicate HonestRun(hash: Bytes -> string, content: Bytes, files: Files, ws: seq<World>, expectedSize: nat, sha: string) {
    forall i :: 0 <= i < |ws| ==> Honest(content, Attempts(hash, files, ws[..i], expectedSize, sha), ws[i])
  }

  /** Any series of attempts keeps the partial a prefix of the content. */
  lemma {:induction false} AttemptsKeepPrefix(hash: Bytes -> string, content: Bytes, files: Files, ws: seq<World>,
                                              expectedSize: nat, sha: string)
    requires PartialIsPrefix(content, files) && HonestRun(hash, content, files, ws, expectedSize, sha)
    ensures PartialIsPrefix(content, Attempts(hash, files, ws, expectedSize, sha))
  {
    if ws != [] {
      var before := ws[..|ws| - 1];
      assert forall i :: 0 <= i <= |before| ==> before[..i] == ws[..i];
      AttemptsKeepPrefix(hash, content, files, before, expectedSize, sha);
      AttemptKeepsPrefix(hash, content, Attempts(hash, files, before, expectedSize, sha), ws[|ws| - 1], expectedSize, Some(sha));
    }
  }

  /** Once an attempt is past its stream, the bytes it counted are the bytes of the file. */
  lemma {:induction false} CountedIsWritten(hash: Bytes -> string, files: Files, w: World, expectedSize: nat, sha: Option<string>)
    requires w.sent && IsSuccess(w.status) && w.openable
    ensures
      var (after, outcome, downloaded, _) := Attempt(hash, files, w, expectedSize, sha);
      && (outcome == Finished ==> after.final.Some? && |after.final.value| == downloaded)
      && (outcome != Finished && outcome != WriteFailed && after.partial.Some? ==> |after.partial.value| == downloaded)
  {
    ReceiveExtends(w.items, if Resumes(files, w) then files.partial.value else [],
                   if Resumes(files, w) then ExistingSize(files, w) else 0);
  }

  /** What sits under the real name was there before, or has the expected hash; whatever the servers answered. */
  lemma {:induction false} FinalIsVerified(hash: Bytes -> string, files: Files, ws: seq<World>, expectedSize: nat, sha: string)
    ensures
      var after := Attempts(hash, files, ws, expectedSize, sha);
      && (files.final.Some? ==> after == files)
      && (after.final.Some? ==> after.final == files.final || EqIgnoreAsciiCase(hash(after.final.value), sha))
  {
    if ws != [] {
      FinalIsVerified(hash, files, ws[..|ws| - 1], expectedSize, sha);
    }
  }

  // An undisturbed attempt.

  ghost predicate Undisturbed(w: World) {
    && w.sizeReadable && w.sent && w.openable && w.flushed && w.hashReadable && w.renamed
    && forall i :: 0 <= i < |w.items| ==> !w.items[i].cancelled && w.items[i].read.Chunk? && w.items[i].write.WroteAll?
  }

  /**
   A server that has `content`: all of it with a 200, which it may answer to a
   range request as well; the rest from an offset inside it with a 206; and 416
   for an offset at or past its end (sections 14.2 and 15.5.17 of RFC 9110).
   */
  ghost predicate Serves(content: Bytes, files: Files, w: World) {
    var n := if files.partial.Some? then |files.partial.value| else 0;
    || (w.status == 200 && Body(w.items) == content && w.contentLength == Some(|content|))
    || (w.status == 206 && 0 < n < |content| && Body(w.items) == content[n..] && w.contentLength == Some(|content| - n))
    || (w.status == 416 && 0 < n && |content| <= n)
  }

  lemma {:induction false} ReceiveAll(items: seq<Item>, file: Bytes, downloaded: nat)
    requires forall i :: 0 <= i < |items| ==> !items[i].cancelled && items[i].read.Chunk? && items[i].write.WroteAll?
    ensures Receive(items, file, downloaded).2 == Finished
  {
    if items != [] {
      ReceiveAll(items[1..], file + items[0].read.bytes, downloaded + |items[0].read.bytes|);
    }
  }

  /**
   What is left when one attempt is not disturbed: exactly the content, whether
   the server serves the range or ignores it, or after a 416 the files as they were.
   */
  lemma {:induction false} UndisturbedAttempt(hash: Bytes -> string, content: Bytes, files: Files, w: World, expectedSize: nat,
                                              sha: Option<string>)
    requires PartialIsPrefix(content, files) && (sha.Some? ==> EqIgnoreAsciiCase(hash(content), sha.value))
    requires Undisturbed(w) && Serves(content, files, w)
    ensures
      var (after, outcome, downloaded, total) := Attempt(hash, files, w, expectedSize, sha);
      if w.status == 416
      then after == files && outcome == BadStatus(416)
      else after == Files(None, Some(content)) && outcome == Finished && downloaded == total == |content|
  {
    if w.status != 416 {
      var start: Bytes := if w.status == 206 then files.partial.value else [];
      ReceiveAll(w.items, start, |start|);
      ReceiveExtends(w.items, start, |start|);
      assert start + content[|start|..] == content;
      assert start + Body(w.items) == content;
    }
  }

  /**
   Resuming works from every prefix but the whole: an undisturbed attempt
   finishes the download exactly when the partial is not complete already, or
   the server ignores the range. Otherwise a complete partial asks for a range
   past the end, and the answer is an error.
   */
  lemma {:induction false} ResumeFinishesExactly(hash: Bytes -> string, content: Bytes, files: Files, w: World, expectedSize: nat, sha: string)
    requires files.final.None? && PartialIsPrefix(content, files) && EqIgnoreAsciiCase(hash(content), sha)
    requires Undisturbed(w) && Serves(content, files, w) && content != []
    ensures AttemptInto(hash, files, w, expectedSize, sha).0.final == Some(content) <==>
            files.partial != Some(content) || w.status == 200
  {
    UndisturbedAttempt(hash, content, files, w, expectedSize, Some(sha));
    assert w.status == 416 ==> files.partial.value == content;
  }

  /** And it stays that way: from a complete partial, no number of undisturbed attempts at a server that serves ranges changes anything. */
  lemma {:induction false} CompletePartialIsStuck(hash: Bytes -> string, content: Bytes, ws: seq<World>, expectedSize: nat, sha: string)
    requires EqIgnoreAsciiCase(hash(content), sha) && content != []
    requires forall i :: 0 <= i < |ws| ==>
      Undisturbed(ws[i]) && Serves(content, Files(Some(content), None), ws[i]) && ws[i].status != 200
    ensures Attempts(hash, Files(Some(content), None), ws, expectedSize, sha) == Files(Some(content), None)
  {
    if ws != [] {
      CompletePartialIsStuck(hash, content, ws[..|ws| - 1], expectedSize, sha);
      UndisturbedAttempt(hash, content, Files(Some(content), None), ws[|ws| - 1], expectedSize, Some(sha));
    }
  }

  // What goes wrong, and what then stays.

  /** An answer that is no success leaves both files as they were. */
  lemma {:induction false} RefusalChangesNothing(hash: Bytes -> string, files: Files, w: World, expectedSize: nat, sha: Option<string>)
    requires !w.sent || w.status < 200 || 300 <= w.status
    ensures
      var (after, outcome, _, _) := Attempt(hash, files, w, expectedSize, sha);
      after == files && outcome == if w.sent then BadStatus(w.status) else RequestFailed
  {
  }

  /** Nothing is wrong with the item: not cancelled, read, and written whole. */
  predicate IsGood(item: Item) {
    !item.cancelled && item.read.Chunk? && item.write.WroteAll?
  }

  /**
   The receive loop stops at the first item that something is wrong with and
   says what: everything before it is in the file, and of its own bytes no more
   than a failing write got out.
   */
  lemma {:induction false} StopsAtFirstBadItem(items: seq<Item>, k: nat, file: Bytes, downloaded: nat)
    requires k <= |items| && (forall i :: 0 <= i < k ==> IsGood(items[i])) && (k < |items| ==> !IsGood(items[k]))
    ensures
      var (received, counted, outcome) := Receive(items, file, downloaded);
      && file + Body(items[..k]) <= received
      && counted == downloaded + |Body(items[..k])|
      && (outcome == Finished <==> k == |items|)
      && (k < |items| ==> (outcome == Cancelled <==> items[k].cancelled))
      && (k < |items| && !items[k].cancelled ==> (outcome == StreamFailed <==> items[k].read.ReadFailed?))
      && (outcome != WriteFailed ==> received == file + Body(items[..k]))
      && (outcome == WriteFailed ==>
            && k < |items| && items[k].read.Chunk? && items[k].write.WroteSome?
            && received == file + Body(items[..k])
                           + items[k].read.bytes[..if items[k].write.n < |items[k].read.bytes| then items[k].write.n else |items[k].read.bytes|])
  {
    if k > 0 {
      var rest, bytes := items[1..], items[0].read.bytes;
      StopsAtFirstBadItem(rest, k - 1, file + bytes, downloaded + |bytes|);
      assert items[..k][1..] == rest[..k - 1];
      assert file + (bytes + Body(rest[..k - 1])) == (file + bytes) + Body(rest[..k - 1]);
    }
  }

  lemma {:induction false} FinishedIsGood(items: seq<Item>, file: Bytes, downloaded: nat)
    requires Receive(items, file, downloaded).2 == Finished
    ensures forall i :: 0 <= i < |items| ==> IsGood(items[i])
  {
    if items != [] {
      FinishedIsGood(items[1..], file + items[0].read.bytes, downloaded + |items[0].read.bytes|);
      assert forall i :: 1 <= i < |items| ==> items[i] == items[1..][i - 1];
    }
  }

  /** What an attempt that goes through leaves: the body, after the old partial for a 206 to a range request. */
  function Whole(files: Files, w: World): Bytes {
    (if w.status == 206 && AsksForRange(files, w) then files.partial.value else []) + Body(w.items)
  }

  /**
   An attempt finishes exactly when nothing goes wrong on the way, and the whole
   has the hash if one is asked for. Then the whole is under the real name;
   otherwise the real name is untouched.
   */
  lemma {:induction false} FinishedMeansWhole(hash: Bytes -> string, files: Files, w: World, expectedSize: nat, sha: Option<string>)
    ensures
      var (after, outcome, _, _) := Attempt(hash, files, w, expectedSize, sha);
      && (outcome == Finished <==>
            && w.sent && 200 <= w.status < 300 && w.openable
            && (forall i :: 0 <= i < |w.items| ==> IsGood(w.items[i])) && w.flushed
            && (sha.Some? ==> w.hashReadable && EqIgnoreAsciiCase(hash(Whole(files, w)), sha.value)) && w.renamed)
      && (if outcome == Finished then after == Files(None, Some(Whole(files, w))) else after.final == files.final)
  {
    var start: Bytes := if w.status == 206 && AsksForRange(files, w) then files.partial.value else [];
    ReceiveExtends(w.items, start, |start|);
    if Receive(w.items, start, |start|).2 == Finished {
      FinishedIsGood(w.items, start, |start|);
    } else if forall i :: 0 <= i < |w.items| ==> IsGood(w.items[i]) {
      ReceiveAll(w.items, start, |start|);
    }
  }

  /** Without a content length the total is what the registry expects, and never less than what is there already. */
  lemma {:induction false} TotalWithoutLength(existingSize: nat, expectedSize: nat)
    ensures ResumeTotalSize(existingSize, None, expectedSize) == if existingSize < expectedSize then expectedSize else existingSize
    ensures forall length: nat :: ResumeTotalSize(existingSize, Some(length), expectedSize) == existingSize + length
  {
  }

  // Hashes.

  predicate IsLowerHex(c: char) {
    '0' <= c <= '9' || 'a' <= c <= 'f'
  }

  /** Between two hashes in lower-case digits, ignoring case is equality. */
  lemma {:induction false} LowerHexIsExact(a: string, b: string)
    requires (forall i :: 0 <= i < |a| ==> IsLowerHex(a[i])) && (forall i :: 0 <= i < |b| ==> IsLowerHex(b[i]))
    ensures EqIgnoreAsciiCase(a, b) <==> a == b
  {
  }

  /** And letters agree exactly with themselves and their other case. */
  lemma {:induction false} CaseDoesNotMatter(a: string, b: string)
    ensures EqIgnoreAsciiCase(a, b) <==>
            |a| == |b| && forall i :: 0 <= i < |a| ==>
              || a[i] == b[i]
              || ('A' <= a[i] <= 'Z' && a[i] as int + 32 == b[i] as int)
              || ('A' <= b[i] <= 'Z' && b[i] as int + 32 == a[i] as int)
  {
  }

  /** From nothing under the real name, what gets there has the hash asked for, when both are in lower-case digits. */
  lemma {:induction false} FinalHasTheHash(hash: Bytes -> string, files: Files, ws: seq<World>, expectedSize: nat, sha: string)
    requires files.final.None? && (forall i :: 0 <= i < |sha| ==> IsLowerHex(sha[i]))
    requires forall b: Bytes, i :: 0 <= i < |hash(b)| ==> IsLowerHex(hash(b)[i])
    ensures
      var final := Attempts(hash, files, ws, expectedSize, sha).final;
      final.Some? ==> hash(final.value) == sha
  {
    FinalIsVerified(hash, files, ws, expectedSize, sha);
    var final := Attempts(hash, files, ws, expectedSize, sha).final;
    if final.Some? {
      LowerHexIsExact(hash(final.value), sha);
    }
  }

  // The program.

  class Downloader {
    const hash: Bytes -> string
    var partial: Option<Bytes>
    var final: Option<Bytes>
    /** The last progress counted: bytes, and the total they were measured against. */
    var downloaded: nat
    var totalSize: nat

    constructor (hash: Bytes -> string, files: Files)
      ensures this.hash == hash && State() == files
    {
      this.hash := hash;
      partial, final := files.partial, files.final;
      downloaded, totalSize := 0, 0;
    }

    function State(): Files
      reads this
    {
      Files(partial, final)
    }

    /** Compare the partial against its expected hash, and delete it on a mismatch. */
    method VerifySha256(w: World, expected: string) returns (outcome: Outcome)
      requires partial.Some?
      modifies this`partial
      ensures !w.hashReadable ==> outcome == HashFailed && partial == old(partial)
      ensures w.hashReadable ==> (outcome == Finished <==> EqIgnoreAsciiCase(hash(old(partial).value), expected))
      ensures outcome == Finished ==> partial == old(partial)
      ensures outcome != Finished && w.hashReadable ==>
              outcome == HashMismatch && partial == if w.removable then None else old(partial)
    {
      if !w.hashReadable {
        return HashFailed;
      }
      if !EqIgnoreAsciiCase(hash(partial.value), expected) {
        if w.removable {
          partial := None;
        }
        return HashMismatch;
      }
      return Finished;
    }

    /** Stream into the partial, resuming when the server honours the range, verify it, and give it its real name. */
    method DownloadToPartial(w: World, expectedSize: nat, sha: Option<string>) returns (outcome: Outcome)
      modifies this
      ensures
        var (after, end, counted, total) := Attempt(hash, old(State()), w, expectedSize, sha);
        State() == after && outcome == end && downloaded == counted && totalSize == total
    {
      hide Receive;
      var existingSize := if partial.Some? && w.sizeReadable then |partial.value| else 0;
      downloaded, totalSize := 0, 0;
      if !w.sent {
        return RequestFailed;
      }
      if !IsSuccess(w.status) && w.status != 206 {
        return BadStatus(w.status);
      }
      var resumed := existingSize > 0 && w.status == 206;
      var baseOffset := if resumed then existingSize else 0;
      totalSize := ResumeTotalSize(baseOffset, w.contentLength, expectedSize);
      downloaded := baseOffset;
      if !w.openable {
        return OpenFailed;
      }
      if !resumed {
        partial := Some([]);
      }
      ghost var start, total := partial.value, totalSize;
      for i := 0 to |w.items|
        invariant partial.Some? && final == old(final) && totalSize == total
        invariant Receive(w.items[i..], partial.value, downloaded) == Receive(w.items, start, baseOffset)
      {
        var item := w.items[i];
        ReceiveAt(w.items, i, partial.value, downloaded);
        if item.cancelled {
          return Cancelled;
        }
        if item.read.ReadFailed? {
          return StreamFailed;
        }
        partial := Some(partial.value + Written(item));
        if item.write.WroteSome? {
          return WriteFailed;
        }
        downloaded := downloaded + |item.read.bytes|;
      }
      ReceiveNothing(partial.value, downloaded);
      assert w.items[|w.items|..] == [];
      assert Receive(w.items, start, baseOffset) == (partial.value, downloaded, Finished);
      if !w.flushed {
        return FlushFailed;
      }
      if sha.Some? {
        outcome := VerifySha256(w, sha.value);
        if outcome != Finished {
          return outcome;
        }
      }
      if !w.renamed {
        return RenameFailed;
      }
      partial, final := None, partial;
      return Finished;
    }

    /** Download one verified file; an existing one is left alone. */
    method DownloadInto(w: World, expectedSize: nat, sha: string) returns (outcome: Outcome)
      modifies this
      ensures (State(), outcome) == AttemptInto(hash, old(State()), w, expectedSize, sha)
      ensures final.Some? ==> final == old(final) || EqIgnoreAsciiCase(hash(final.value), sha)
    {
      if final.Some? {
        return Finished;
      }
      outcome := DownloadToPartial(w, expectedSize, Some(sha));
    }
  }
}
