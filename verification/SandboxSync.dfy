/** Mirroring a working directory into the sandbox under two size caps, and the body a sync is sent as. */
module SandboxSync {
  import opened Sequences

  const U64_MAX: nat := 0xFFFF_FFFF_FFFF_FFFF
  const TOLERANCE: real := 0.001

  type U64 = n: nat | n <= U64_MAX

  /** A file of the directory; `content` is what reading it gives, `None` when that fails. */
  datatype DiskFile = DiskFile(path: string, absPath: string, size: U64, mtime: real, content: Option<Bytes>)

  datatype KnownFile = KnownFile(path: string, mtime: real)

  datatype SyncFile = SyncFile(path: string, absPath: string, bytes: Bytes, mtime: real)

  datatype Reason = OverFileCap | OverRunCap

  datatype SyncSkipped = SyncSkipped(path: string, reason: Reason)

  datatype SyncResult = SyncResult(toSync: seq<SyncFile>, deleted: seq<string>, skipped: seq<SyncSkipped>, workdirAbs: string)

  datatype Workdir = Workdir(abs: string, files: seq<DiskFile>)

  datatype Caps = Caps(file: U64, run: U64)

  // One file.

  function SaturatingAdd(a: nat, b: nat): nat { if a + b > U64_MAX then U64_MAX else a + b }

  /** Not known, or known with another modification time. */
  predicate Stale(known: map<string, real>, f: DiskFile) {
    !(f.path in known && -TOLERANCE < known[f.path] - f.mtime < TOLERANCE)
  }

  datatype Decision = Skip(reason: Reason) | Unchanged | Transfer

  function Decide(known: map<string, real>, caps: Caps, total: nat, f: DiskFile): Decision {
    if f.size > caps.file then Skip(OverFileCap)
    else if !Stale(known, f) then Unchanged
    else if SaturatingAdd(total, f.size) > caps.run then Skip(OverRunCap)
    else Transfer
  }

  // The decision loop.

  /** What the loop has gathered: files to send, files passed over, and the bytes counted. */
  datatype Gathered = Gathered(toSync: seq<SyncFile>, skipped: seq<SyncSkipped>, total: nat)

  function Sent(f: DiskFile): SyncFile
    requires f.content.Some?
  {
    SyncFile(f.path, f.absPath, f.content.value, f.mtime)
  }

  /** The loop over `files`; `None` when a file to send cannot be read. */
  function Gather(known: map<string, real>, caps: Caps, files: seq<DiskFile>): Option<Gathered> {
    if files == [] then Some(Gathered([], [], 0)) else
    match Gather(known, caps, files[..|files| - 1])
    case None => None
    case Some(g) =>
      var f := files[|files| - 1];
      match Decide(known, caps, g.total, f)
      case Skip(reason) => Some(g.(skipped := g.skipped + [SyncSkipped(f.path, reason)]))
      case Unchanged => Some(g)
      case Transfer =>
        if f.content.None? then None
        else Some(g.(toSync := g.toSync + [Sent(f)], total := g.total + f.size))
  }

  lemma {:induction false} GatherFails(known: map<string, real>, caps: Caps, files: seq<DiskFile>, n: nat)
    requires n <= |files| && Gather(known, caps, files[..n]).None?
    ensures Gather(known, caps, files).None?
    decreases |files|
  {
    if n == |files| {
      assert files[..n] == files;
    } else {
      var before := files[..|files| - 1];
      assert before[..n] == files[..n];
      GatherFails(known, caps, before, n);
    }
  }

  function KnownMap(files: seq<KnownFile>): map<string, real> {
    if files == [] then map[]
    else KnownMap(files[..|files| - 1])[files[|files| - 1].path := files[|files| - 1].mtime]
  }

  function Paths(files: seq<DiskFile>): set<string> {
    set f | f in files :: f.path
  }

  /** The entry that counts for `p`: the last one with that path. */
  predicate LastFor(files: seq<KnownFile>, i: nat, p: string) {
    && i < |files| && files[i].path == p
    && forall j :: i < j < |files| ==> files[j].path != p
  }

  /** The map holds exactly the listed paths, each with the time of its last entry. */
  lemma {:induction false} KnownMapHoldsLast(files: seq<KnownFile>, p: string)
    ensures p in KnownMap(files) <==> exists k :: k in files && k.path == p
    ensures forall i: nat :: LastFor(files, i, p) ==> p in KnownMap(files) && KnownMap(files)[p] == files[i].mtime
  {
    if files != [] {
      var before, last := files[..|files| - 1], files[|files| - 1];
      assert files == before + [last];
      assert forall k :: k in files <==> k in before || k == last;
      KnownMapHoldsLast(before, p);
      forall i: nat | LastFor(files, i, p) ensures p in KnownMap(files) && KnownMap(files)[p] == files[i].mtime {
        assert i < |before| ==> LastFor(before, i, p);
      }
    }
  }

  predicate HasNoRepeats(s: seq<string>) {
    forall i, j :: 0 <= i < j < |s| ==> s[i] != s[j]
  }

  /** The known files by path; of two entries for a path the later one counts. */
  method CollectKnown(knownFiles: seq<KnownFile>) returns (known: map<string, real>)
    ensures known == KnownMap(knownFiles)
  {
    known := map[];
    for i := 0 to |knownFiles|
      invariant known == KnownMap(knownFiles[..i])
    {
      assert knownFiles[..i + 1][..i] == knownFiles[..i];
      known := known[knownFiles[i].path := knownFiles[i].mtime];
    }
    assert knownFiles[..|knownFiles|] == knownFiles;
  }

  /** The known paths that are not on disk any more, each once. */
  method Vanished(known: map<string, real>, currentPaths: set<string>) returns (deleted: seq<string>)
    ensures HasNoRepeats(deleted)
    ensures forall p :: p in deleted <==> p in known && p !in currentPaths
  {
    deleted := [];
    var rest := known.Keys - currentPaths;
    while rest != {}
      invariant rest <= known.Keys - currentPaths && HasNoRepeats(deleted)
      invariant forall p :: p in deleted <==> p in known.Keys - currentPaths && p !in rest
      decreases rest
    {
      var p :| p in rest;
      deleted := deleted + [p];
      rest := rest - {p};
    }
  }

  /** One more file goes through the loop. */
  lemma {:induction false} GatherNext(known: map<string, real>, caps: Caps, files: seq<DiskFile>, i: nat, g: Gathered)
    requires i < |files| && Gather(known, caps, files[..i]) == Some(g)
    ensures Paths(files[..i + 1]) == Paths(files[..i]) + {files[i].path}
    ensures Gather(known, caps, files[..i + 1]) ==
      match Decide(known, caps, g.total, files[i])
      case Skip(reason) => Some(g.(skipped := g.skipped + [SyncSkipped(files[i].path, reason)]))
      case Unchanged => Some(g)
      case Transfer =>
        if files[i].content.None? then None
        else Some(g.(toSync := g.toSync + [Sent(files[i])], total := g.total + files[i].size))
  {
    assert files[..i + 1][..i] == files[..i];
    assert files[..i + 1] == files[..i] + [files[i]];
  }

  /**
   `r` is the sync of a directory with what `knownFiles` lists: what the loop
   gathers, and exactly the listed paths that no file of the directory has, each
   once. No file is sent whose last entry has its modification time.
   */
  ghost predicate IsSyncOf(r: SyncResult, knownFiles: seq<KnownFile>, caps: Caps, workdir: Workdir) {
    && Gather(KnownMap(knownFiles), caps, workdir.files).Some?
    && r.toSync == Gather(KnownMap(knownFiles), caps, workdir.files).value.toSync
    && r.skipped == Gather(KnownMap(knownFiles), caps, workdir.files).value.skipped
    && r.workdirAbs == workdir.abs
    && HasNoRepeats(r.deleted)
    && (forall p :: p in r.deleted <==>
          (exists k :: k in knownFiles && k.path == p) && !(exists f :: f in workdir.files && f.path == p))
    && (forall s, i: nat :: s in r.toSync && LastFor(knownFiles, i, s.path) ==>
          knownFiles[i].mtime - s.mtime <= -0.001 || 0.001 <= knownFiles[i].mtime - s.mtime)
  }

  /** The working directory walked, compared with what is known, and gathered up to the caps. */
  method SyncWorkdir(workdir: Option<Workdir>, knownFiles: seq<KnownFile>, caps: Caps) returns (r: Option<SyncResult>)
    ensures r.None? <==> workdir.None? || Gather(KnownMap(knownFiles), caps, workdir.value.files).None?
    ensures r.Some? ==> IsSyncOf(r.value, knownFiles, caps, workdir.value)
  {
    hide HasNoRepeats, IsSyncOf;
    if workdir.None? {
      return None;
    }
    var files := workdir.value.files;
    var known := CollectKnown(knownFiles);
    var toSync, skipped := [], [];
    var totalBytes: nat := 0;
    var currentPaths: set<string> := {};
    for i := 0 to |files|
      invariant Gather(known, caps, files[..i]) == Some(Gathered(toSync, skipped, totalBytes))
      invariant currentPaths == Paths(files[..i])
    {
      hide Gather, Paths;
      var f := files[i];
      GatherNext(known, caps, files, i, Gathered(toSync, skipped, totalBytes));
      currentPaths := currentPaths + {f.path};
      if f.size > caps.file {
        skipped := skipped + [SyncSkipped(f.path, OverFileCap)];
        continue;
      }
      if f.path in known && -TOLERANCE < known[f.path] - f.mtime < TOLERANCE {
        continue;
      }
      if SaturatingAdd(totalBytes, f.size) > caps.run {
        skipped := skipped + [SyncSkipped(f.path, OverRunCap)];
        continue;
      }
      if f.content.None? {
        GatherFails(known, caps, files, i + 1);
        return None;
      }
      totalBytes := totalBytes + f.size;
      toSync := toSync + [SyncFile(f.path, f.absPath, f.content.value, f.mtime)];
    }
    assert files[..|files|] == files;
    var deleted := Vanished(known, currentPaths);
    r := Some(SyncResult(toSync, deleted, skipped, workdir.value.abs));
    IsWhatWasGathered(r.value, knownFiles, caps, workdir.value);
  }

  lemma {:induction false} IsWhatWasGathered(r: SyncResult, knownFiles: seq<KnownFile>, caps: Caps, workdir: Workdir)
    requires Gather(KnownMap(knownFiles), caps, workdir.files).Some? && r.workdirAbs == workdir.abs
    requires r.toSync == Gather(KnownMap(knownFiles), caps, workdir.files).value.toSync
    requires r.skipped == Gather(KnownMap(knownFiles), caps, workdir.files).value.skipped
    requires HasNoRepeats(r.deleted)
    requires forall p :: p in r.deleted <==> p in KnownMap(knownFiles) && p !in Paths(workdir.files)
    ensures IsSyncOf(r, knownFiles, caps, workdir)
  {
    hide Gather, KnownMap, HasNoRepeats, LastFor;
    forall p
      ensures p in r.deleted <==>
              (exists k :: k in knownFiles && k.path == p) && !(exists f :: f in workdir.files && f.path == p)
    {
      KnownMapHoldsLast(knownFiles, p);
    }
    SentDiffers(knownFiles, caps, workdir.files);
  }

  /** What is sent differs in its time from the last entry for its path, by a millisecond or more. */
  lemma {:induction false} SentDiffers(knownFiles: seq<KnownFile>, caps: Caps, files: seq<DiskFile>)
    requires Gather(KnownMap(knownFiles), caps, files).Some?
    ensures forall s, i: nat :: s in Gather(KnownMap(knownFiles), caps, files).value.toSync && LastFor(knownFiles, i, s.path) ==>
              knownFiles[i].mtime - s.mtime <= -0.001 || 0.001 <= knownFiles[i].mtime - s.mtime
  {
    hide Gather, SentFiles;
    var known := KnownMap(knownFiles);
    var toSync, sent := Gather(known, caps, files).value.toSync, SentFiles(known, caps, files);
    SentIsMeant(known, caps, files);
    forall s, i: nat | s in toSync && LastFor(knownFiles, i, s.path)
      ensures knownFiles[i].mtime - s.mtime <= -0.001 || 0.001 <= knownFiles[i].mtime - s.mtime
    {
      var k :| 0 <= k < |toSync| && toSync[k] == s;
      KnownMapHoldsLast(knownFiles, s.path);
      assert Pending(known, caps, sent[k]);
    }
  }

  // What one run does.

  /** The files that are sent, in the order of the directory. */
  function SentFiles(known: map<string, real>, caps: Caps, files: seq<DiskFile>): seq<DiskFile>
    requires Gather(known, caps, files).Some?
  {
    if files == [] then [] else
    var before, f := files[..|files| - 1], files[|files| - 1];
    if Decide(known, caps, Gather(known, caps, before).value.total, f).Transfer?
    then SentFiles(known, caps, before) + [f] else SentFiles(known, caps, before)
  }

  function SizeSum(files: seq<DiskFile>): nat {
    if files == [] then 0 else SizeSum(files[..|files| - 1]) + files[|files| - 1].size
  }

  /** A file that both caps let through, on its own. */
  predicate FitsCaps(caps: Caps, f: DiskFile) {
    f.size <= caps.file && f.size <= caps.run
  }

  /** A file that is yet to be sent, and can be. */
  predicate Pending(known: map<string, real>, caps: Caps, f: DiskFile) {
    Stale(known, f) && FitsCaps(caps, f)
  }

  lemma {:induction false} SizeSumSnoc(files: seq<DiskFile>, f: DiskFile)
    ensures SizeSum(files + [f]) == SizeSum(files) + f.size
  {
    assert (files + [f])[..|files|] == files;
  }

  /** The last file is sent or passed over. */
  lemma {:induction false} SentOneMore(known: map<string, real>, caps: Caps, files: seq<DiskFile>)
    requires Gather(known, caps, files).Some? && files != []
    ensures Gather(known, caps, files[..|files| - 1]).Some?
    ensures
      var before, f := files[..|files| - 1], files[|files| - 1];
      var g, was := Gather(known, caps, files).value, Gather(known, caps, before).value;
      var sent, sentBefore := SentFiles(known, caps, files), SentFiles(known, caps, before);
      || (sent == sentBefore && g.toSync == was.toSync && g.total == was.total)
      || (&& f.content.Some? && Pending(known, caps, f)
          && sent == sentBefore + [f] && g.toSync == was.toSync + [Sent(f)] && g.total == was.total + f.size)
  {
  }

  /** What is sent is pending and readable; its bytes are those on disk, and its sizes add up to the bytes counted. */
  lemma {:induction false} SentIsMeant(known: map<string, real>, caps: Caps, files: seq<DiskFile>)
    requires Gather(known, caps, files).Some?
    ensures
      var g, sent := Gather(known, caps, files).value, SentFiles(known, caps, files);
      && |g.toSync| == |sent|
      && g.total == SizeSum(sent)
      && (forall i :: 0 <= i < |sent| ==>
            && sent[i] in files && sent[i].content.Some? && Pending(known, caps, sent[i])
            && g.toSync[i] == SyncFile(sent[i].path, sent[i].absPath, sent[i].content.value, sent[i].mtime))
  {
    if files != [] {
      hide Gather, SentFiles, Pending, Sent, SizeSum;
      var before, f := files[..|files| - 1], files[|files| - 1];
      SentIsMeant(known, caps, before);
      SentOneMore(known, caps, files);
      SizeSumSnoc(SentFiles(known, caps, before), f);
      assert forall x :: x in before ==> x in files;
    }
  }

  /**
   A run stays within both caps. A per-run cap of the largest word is the one
   that saturation cannot tell from an overflow, and is never exceeded as counted.
   */
  lemma {:induction false} RunStaysWithinCaps(known: map<string, real>, caps: Caps, files: seq<DiskFile>)
    requires Gather(known, caps, files).Some?
    ensures
      var sent := SentFiles(known, caps, files);
      && (forall i :: 0 <= i < |sent| ==> sent[i].size <= caps.file)
      && SaturatingAdd(0, SizeSum(sent)) <= caps.run
      && (caps.run < U64_MAX ==> SizeSum(sent) <= caps.run)
  {
    SentIsMeant(known, caps, files);
    if files != [] {
      var before, f := files[..|files| - 1], files[|files| - 1];
      SentIsMeant(known, caps, before);
      RunStaysWithinCaps(known, caps, before);
    }
  }

  /** Every file that is not sent is passed over for a reason that holds, or is known as it is. */
  lemma {:induction false} EveryFileIsAccountedFor(known: map<string, real>, caps: Caps, files: seq<DiskFile>, f: DiskFile)
    requires Gather(known, caps, files).Some? && f in files
    ensures
      var g := Gather(known, caps, files).value;
      || f in SentFiles(known, caps, files)
      || (f.size > caps.file && SyncSkipped(f.path, OverFileCap) in g.skipped)
      || (f.size <= caps.file && !Stale(known, f))
      || (f.size <= caps.file && Stale(known, f) && SyncSkipped(f.path, OverRunCap) in g.skipped
          && SaturatingAdd(g.total, f.size) > caps.run)
  {
    var before, last := files[..|files| - 1], files[|files| - 1];
    assert files == before + [last];
    if f in before {
      EveryFileIsAccountedFor(known, caps, before, f);
    }
  }

  /** What makes it right to pass over `f`, once `sent` bytes are to be sent. */
  predicate PassedOverRightly(known: map<string, real>, caps: Caps, f: DiskFile, reason: Reason, sent: nat) {
    match reason
    case OverFileCap => f.size > caps.file
    case OverRunCap => f.size <= caps.file && Stale(known, f) && sent + f.size > caps.run
  }

  lemma {:induction false} SkippedOneMore(known: map<string, real>, caps: Caps, files: seq<DiskFile>)
    requires Gather(known, caps, files).Some? && files != []
    ensures Gather(known, caps, files[..|files| - 1]).Some?
    ensures
      var f := files[|files| - 1];
      var g, was := Gather(known, caps, files).value, Gather(known, caps, files[..|files| - 1]).value;
      && was.total <= g.total
      && (g.skipped == was.skipped
          || exists reason :: g.skipped == was.skipped + [SyncSkipped(f.path, reason)]
                              && PassedOverRightly(known, caps, f, reason, g.total))
  {
    var f, was := files[|files| - 1], Gather(known, caps, files[..|files| - 1]).value;
    if Decide(known, caps, was.total, f).Skip? {
      assert PassedOverRightly(known, caps, f, Decide(known, caps, was.total, f).reason, was.total);
    }
  }

  /** What is passed over is named for a reason that holds of a file of the directory. */
  lemma {:induction false} SkippedIsMeant(known: map<string, real>, caps: Caps, files: seq<DiskFile>, s: SyncSkipped)
    requires Gather(known, caps, files).Some? && s in Gather(known, caps, files).value.skipped
    ensures exists f :: f in files && f.path == s.path
                        && PassedOverRightly(known, caps, f, s.reason, SizeSum(SentFiles(known, caps, files)))
  {
    SkippedIsCounted(known, caps, files, s);
    SentIsMeant(known, caps, files);
  }

  lemma {:induction false} SkippedIsCounted(known: map<string, real>, caps: Caps, files: seq<DiskFile>, s: SyncSkipped)
    requires Gather(known, caps, files).Some? && s in Gather(known, caps, files).value.skipped
    ensures exists f :: f in files && f.path == s.path
                        && PassedOverRightly(known, caps, f, s.reason, Gather(known, caps, files).value.total)
  {
    if files != [] {
      hide Gather;
      var before, f := files[..|files| - 1], files[|files| - 1];
      assert files == before + [f];
      SkippedOneMore(known, caps, files);
      if s in Gather(known, caps, before).value.skipped {
        SkippedIsCounted(known, caps, before, s);
        var x :| x in before && x.path == s.path
                 && PassedOverRightly(known, caps, x, s.reason, Gather(known, caps, before).value.total);
        assert x in files;
      } else {
        assert f in files;
      }
    }
  }

  /** While a pending file is left, a run sends one. */
  lemma {:induction false} PendingMakesProgress(known: map<string, real>, caps: Caps, files: seq<DiskFile>, f: DiskFile)
    requires Gather(known, caps, files).Some? && f in files && Pending(known, caps, f)
    ensures Gather(known, caps, files).value.toSync != []
  {
    EveryFileIsAccountedFor(known, caps, files, f);
    SentIsMeant(known, caps, files);
  }

  /** Whether the loop, once it has gathered `g`, has to read `f`. */
  predicate IsRead(known: map<string, real>, caps: Caps, g: Gathered, f: DiskFile) {
    f.size <= caps.file && Stale(known, f) && (g.total + f.size <= caps.run || caps.run == U64_MAX)
  }

  /** At the `i`th file the loop gets to one that it has to read and cannot. */
  ghost predicate FailsAt(known: map<string, real>, caps: Caps, files: seq<DiskFile>, i: nat) {
    && i < |files| && Gather(known, caps, files[..i]).Some?
    && IsRead(known, caps, Gather(known, caps, files[..i]).value, files[i]) && files[i].content.None?
  }

  lemma {:induction false} CauseFails(known: map<string, real>, caps: Caps, files: seq<DiskFile>, i: nat)
    requires FailsAt(known, caps, files, i)
    ensures Gather(known, caps, files).None?
  {
    GatherNext(known, caps, files, i, Gather(known, caps, files[..i]).value);
    GatherFails(known, caps, files, i + 1);
  }

  lemma {:induction false} FailureHasCause(known: map<string, real>, caps: Caps, files: seq<DiskFile>)
    requires Gather(known, caps, files).None?
    ensures exists i: nat :: FailsAt(known, caps, files, i)
  {
    var n := |files| - 1;
    var before := files[..n];
    if Gather(known, caps, before).None? {
      FailureHasCause(known, caps, before);
      var i: nat :| FailsAt(known, caps, before, i);
      assert before[..i] == files[..i];
      assert FailsAt(known, caps, files, i);
    } else {
      assert FailsAt(known, caps, files, n);
    }
  }

  /** A run fails exactly when a file that it has to read cannot be read; what it does not send it does not read. */
  lemma {:induction false} FailsExactly(known: map<string, real>, caps: Caps, files: seq<DiskFile>)
    ensures Gather(known, caps, files).None? <==> exists i: nat :: FailsAt(known, caps, files, i)
  {
    hide Gather, FailsAt;
    if Gather(known, caps, files).None? {
      FailureHasCause(known, caps, files);
    }
    if i: nat :| FailsAt(known, caps, files, i) {
      CauseFails(known, caps, files, i);
    }
  }

  /** Reading only what can be read, a run does not fail. */
  lemma {:induction false} ReadableNeverFails(known: map<string, real>, caps: Caps, files: seq<DiskFile>)
    requires forall f :: f in files && FitsCaps(caps, f) ==> f.content.Some?
    ensures Gather(known, caps, files).Some?
  {
    if files != [] {
      var before, f := files[..|files| - 1], files[|files| - 1];
      assert files == before + [f];
      ReadableNeverFails(known, caps, before);
    }
  }

  // Many runs over an unchanged directory.

  /** What the sandbox holds of a file: its bytes, and the modification time they were sent with. */
  datatype Entry = Entry(mtime: real, bytes: Bytes)

  type Mirror = map<string, Entry>

  function KnownIn(m: Mirror): map<string, real> {
    map p | p in m :: m[p].mtime
  }

  /** The sandbox after it wrote the files of a sync. */
  function WriteAll(m: Mirror, toSync: seq<SyncFile>): Mirror {
    if toSync == [] then m
    else WriteAll(m, toSync[..|toSync| - 1])
           [toSync[|toSync| - 1].path := Entry(toSync[|toSync| - 1].mtime, toSync[|toSync| - 1].bytes)]
  }

  /** The sandbox after one run: the files sent are written, the vanished ones unlinked. */
  function Synced(m: Mirror, caps: Caps, files: seq<DiskFile>): Mirror
    requires Gather(KnownIn(m), caps, files).Some?
  {
    WriteAll(m, Gather(KnownIn(m), caps, files).value.toSync) - (m.Keys - Paths(files))
  }

  /** A directory as it is walked: no path twice, and every file the caps let through can be read. */
  ghost predicate Directory(caps: Caps, files: seq<DiskFile>) {
    && (forall i, j :: 0 <= i < j < |files| ==> files[i].path != files[j].path)
    && (forall f :: f in files && FitsCaps(caps, f) ==> f.content.Some?)
  }

  ghost function AfterRuns(m: Mirror, caps: Caps, files: seq<DiskFile>, n: nat): Mirror
    requires Directory(caps, files)
  {
    if n == 0 then m else
    var before := AfterRuns(m, caps, files, n - 1);
    ReadableNeverFails(KnownIn(before), caps, files);
    Synced(before, caps, files)
  }

  function IsPending(m: Mirror, caps: Caps): DiskFile -> bool {
    (f: DiskFile) => Pending(KnownIn(m), caps, f)
  }

  lemma {:induction false} WriteAllAt(m: Mirror, toSync: seq<SyncFile>, p: string)
    ensures (forall s :: s in toSync ==> s.path != p) ==>
            (p in WriteAll(m, toSync) <==> p in m) && (p in m ==> WriteAll(m, toSync)[p] == m[p])
    ensures (exists s :: s in toSync && s.path == p) ==>
            p in WriteAll(m, toSync)
            && exists s :: s in toSync && s.path == p && WriteAll(m, toSync)[p] == Entry(s.mtime, s.bytes)
  {
    if toSync != [] {
      var before, last := toSync[..|toSync| - 1], toSync[|toSync| - 1];
      assert toSync == before + [last];
      WriteAllAt(m, before, p);
    }
  }

  lemma {:induction false} SamePathSameFile(caps: Caps, files: seq<DiskFile>, f: DiskFile, g: DiskFile)
    requires Directory(caps, files) && f in files && g in files && f.path == g.path
    ensures f == g
  {
    var i :| 0 <= i < |files| && files[i] == f;
    var j :| 0 <= j < |files| && files[j] == g;
    assert i <= j && j <= i;
  }

  /** A run gives each file of the directory what it has on disk, or leaves its entry as it was. */
  lemma {:induction false} SyncedAt(m: Mirror, caps: Caps, files: seq<DiskFile>, f: DiskFile)
    requires Directory(caps, files) && f in files && Gather(KnownIn(m), caps, files).Some?
    ensures
      var r := Synced(m, caps, files);
      if f in SentFiles(KnownIn(m), caps, files)
      then f.content.Some? && f.path in r && r[f.path] == Entry(f.mtime, f.content.value)
      else (f.path in r <==> f.path in m) && (f.path in m ==> r[f.path] == m[f.path])
  {
    var g, sent := Gather(KnownIn(m), caps, files).value, SentFiles(KnownIn(m), caps, files);
    SentIsMeant(KnownIn(m), caps, files);
    WriteAllAt(m, g.toSync, f.path);
    assert f.path in Paths(files);
    forall s | s in g.toSync && s.path == f.path ensures f in sent && s == Sent(f) {
      var i :| 0 <= i < |g.toSync| && g.toSync[i] == s;
      SamePathSameFile(caps, files, f, sent[i]);
    }
    if f in sent {
      var i :| 0 <= i < |sent| && sent[i] == f;
      assert g.toSync[i] in g.toSync;
    }
  }

  lemma {:induction false} CountDrops(files: seq<DiskFile>, p: DiskFile -> bool, q: DiskFile -> bool, f: DiskFile)
    requires forall g :: g in files && q(g) ==> p(g)
    requires f in files && p(f) && !q(f)
    ensures Count(files, q) < Count(files, p)
  {
    var before, last := files[..|files| - 1], files[|files| - 1];
    assert files == before + [last];
    assert forall i :: 0 <= i < |before| ==> before[i] in files;
    if f in before {
      CountDrops(before, p, q, f);
    } else {
      CountPointwise(before, before, q, p);
    }
  }

  /** A run leaves nothing pending that was not, and while anything is pending one file fewer. */
  lemma {:induction false} RunDropsPending(m: Mirror, caps: Caps, files: seq<DiskFile>)
    requires Directory(caps, files) && Gather(KnownIn(m), caps, files).Some?
    ensures
      var r := Synced(m, caps, files);
      && (forall f :: f in files && Pending(KnownIn(r), caps, f) ==> Pending(KnownIn(m), caps, f))
      && Count(files, IsPending(r, caps)) <= Count(files, IsPending(m, caps))
      && (Count(files, IsPending(m, caps)) > 0 ==>
            Count(files, IsPending(r, caps)) < Count(files, IsPending(m, caps)))
  {
    hide Filter;
    var r, sent := Synced(m, caps, files), SentFiles(KnownIn(m), caps, files);
    SentIsMeant(KnownIn(m), caps, files);
    forall f | f in files && Pending(KnownIn(r), caps, f) ensures Pending(KnownIn(m), caps, f) {
      SyncedAt(m, caps, files, f);
    }
    CountPointwise(files, files, IsPending(r, caps), IsPending(m, caps));
    if Count(files, IsPending(m, caps)) > 0 {
      var f := Filter(files, IsPending(m, caps))[0];
      assert f in files && Pending(KnownIn(m), caps, f);
      PendingMakesProgress(KnownIn(m), caps, files, f);
      SyncedAt(m, caps, files, sent[0]);
      CountDrops(files, IsPending(m, caps), IsPending(r, caps), sent[0]);
    }
  }

  lemma {:induction false} PendingRunsOut(m: Mirror, caps: Caps, files: seq<DiskFile>, n: nat)
    requires Directory(caps, files) && n >= Count(files, IsPending(m, caps))
    ensures Count(files, IsPending(AfterRuns(m, caps, files, n), caps)) == 0
  {
    hide Filter, Gather, Synced;
    PendingAfter(m, caps, files, n);
  }

  lemma {:induction false} PendingAfter(m: Mirror, caps: Caps, files: seq<DiskFile>, n: nat)
    requires Directory(caps, files)
    ensures
      var left := Count(files, IsPending(AfterRuns(m, caps, files, n), caps));
      left == 0 || left + n <= Count(files, IsPending(m, caps))
  {
    hide Filter, Gather, Synced;
    if n > 0 {
      var before := AfterRuns(m, caps, files, n - 1);
      PendingAfter(m, caps, files, n - 1);
      ReadableNeverFails(KnownIn(before), caps, files);
      RunDropsPending(before, caps, files);
    }
  }

  /** Entries that are not stale have the bytes on disk. */
  ghost predicate Faithful(m: Mirror, files: seq<DiskFile>) {
    forall f :: f in files && f.path in m && f.content.Some? && -0.001 < m[f.path].mtime - f.mtime < 0.001 ==>
      m[f.path].bytes == f.content.value
  }

  lemma {:induction false} RunStaysFaithful(m: Mirror, caps: Caps, files: seq<DiskFile>)
    requires Directory(caps, files) && Gather(KnownIn(m), caps, files).Some? && Faithful(m, files)
    ensures Faithful(Synced(m, caps, files), files)
    ensures Synced(m, caps, files).Keys <= Paths(files)
  {
    hide Gather;
    var r := Synced(m, caps, files);
    forall f | f in files && f.path in r && f.content.Some? && -0.001 < r[f.path].mtime - f.mtime < 0.001
      ensures r[f.path].bytes == f.content.value
    {
      SyncedAt(m, caps, files, f);
    }
    forall p | p in r ensures p in Paths(files) {
      var g := Gather(KnownIn(m), caps, files).value;
      SentIsMeant(KnownIn(m), caps, files);
      WriteAllAt(m, g.toSync, p);
      if s :| s in g.toSync && s.path == p {
        var i :| 0 <= i < |g.toSync| && g.toSync[i] == s;
      }
    }
  }

  lemma {:induction false} RunsStayFaithful(m: Mirror, caps: Caps, files: seq<DiskFile>, n: nat)
    requires Directory(caps, files) && Faithful(m, files)
    ensures Faithful(AfterRuns(m, caps, files, n), files)
    ensures n > 0 ==> AfterRuns(m, caps, files, n).Keys <= Paths(files)
  {
    hide Gather, Synced, Faithful;
    if n > 0 {
      var before := AfterRuns(m, caps, files, n - 1);
      RunsStayFaithful(m, caps, files, n - 1);
      ReadableNeverFails(KnownIn(before), caps, files);
      RunStaysFaithful(before, caps, files);
    }
  }

  lemma {:induction false} NothingLeftToSend(m: Mirror, caps: Caps, files: seq<DiskFile>, n: nat)
    requires Directory(caps, files) && Faithful(m, files)
    requires n > 0 && n >= Count(files, IsPending(m, caps))
    ensures
      var r := AfterRuns(m, caps, files, n);
      && (forall f :: f in files && FitsCaps(caps, f) ==>
            f.path in r && r[f.path].bytes == f.content.value && -0.001 < r[f.path].mtime - f.mtime < 0.001)
      && r.Keys <= Paths(files)
      && Gather(KnownIn(r), caps, files).Some?
      && Gather(KnownIn(r), caps, files).value.toSync == []
  {
    hide Filter, Gather, AfterRuns;
    var r := AfterRuns(m, caps, files, n);
    PendingRunsOut(m, caps, files, n);
    RunsStayFaithful(m, caps, files, n);
    ReadableNeverFails(KnownIn(r), caps, files);
    forall f | f in files ensures !Pending(KnownIn(r), caps, f) {
      assert f in Filter(files, IsPending(r, caps)) <==> Pending(KnownIn(r), caps, f);
    }
    SentIsMeant(KnownIn(r), caps, files);
    assert SentFiles(KnownIn(r), caps, files) == [];
  }

  // Runs as the sandbox sees them.

  /** `knownFiles` lists what the sandbox holds, each path with its time, in any order. */
  ghost predicate Lists(knownFiles: seq<KnownFile>, m: Mirror) {
    && (forall k :: k in knownFiles ==> k.path in m && k.mtime == m[k.path].mtime)
    && (forall p :: p in m ==> exists k :: k in knownFiles && k.path == p)
  }

  /** The sandbox after it wrote the files of a sync and unlinked the deleted paths. */
  function Applied(m: Mirror, r: SyncResult): Mirror {
    WriteAll(m, r.toSync) - (set p | p in r.deleted)
  }

  /** One run: the sandbox lists what it holds, the directory is synced with that list, and the result is folded back. */
  ghost predicate RunsTo(m: Mirror, next: Mirror, caps: Caps, workdir: Workdir) {
    exists knownFiles, r :: Lists(knownFiles, m) && IsSyncOf(r, knownFiles, caps, workdir) && next == Applied(m, r)
  }

  lemma {:induction false} LastOf(files: seq<KnownFile>, p: string)
    requires exists k :: k in files && k.path == p
    ensures exists i: nat :: LastFor(files, i, p)
  {
    var before, last := files[..|files| - 1], files[|files| - 1];
    assert files == before + [last];
    if last.path == p {
      assert LastFor(files, |files| - 1, p);
    } else {
      LastOf(before, p);
      var i: nat :| LastFor(before, i, p);
      assert LastFor(files, i, p);
    }
  }

  lemma {:induction false} ListedIsKnown(knownFiles: seq<KnownFile>, m: Mirror)
    requires Lists(knownFiles, m)
    ensures KnownMap(knownFiles) == KnownIn(m)
  {
    hide KnownMap;
    forall p ensures p in KnownMap(knownFiles) <==> p in m {
      KnownMapHoldsLast(knownFiles, p);
    }
    forall p | p in m ensures KnownMap(knownFiles)[p] == m[p].mtime {
      KnownMapHoldsLast(knownFiles, p);
      LastOf(knownFiles, p);
      var i: nat :| LastFor(knownFiles, i, p);
      assert knownFiles[i] in knownFiles;
    }
  }

  lemma {:induction false} SyncIsSynced(m: Mirror, knownFiles: seq<KnownFile>, r: SyncResult, caps: Caps, workdir: Workdir)
    requires Lists(knownFiles, m) && IsSyncOf(r, knownFiles, caps, workdir)
    ensures Gather(KnownIn(m), caps, workdir.files).Some?
    ensures r.toSync == Gather(KnownIn(m), caps, workdir.files).value.toSync
    ensures forall p :: p in r.deleted <==> p in m.Keys - Paths(workdir.files)
    ensures Applied(m, r) == Synced(m, caps, workdir.files)
  {
    hide Gather, KnownMap, HasNoRepeats, WriteAll, LastFor;
    ListedIsKnown(knownFiles, m);
    forall p ensures p in r.deleted <==> p in m.Keys - Paths(workdir.files) {
      if k :| k in knownFiles && k.path == p {
        assert p in m;
      }
    }
    assert (set p | p in r.deleted) == m.Keys - Paths(workdir.files);
  }

  lemma {:induction false} RunsAreAfterRuns(ms: seq<Mirror>, caps: Caps, workdir: Workdir, n: nat)
    requires Directory(caps, workdir.files) && n < |ms|
    requires forall i :: 0 <= i < |ms| - 1 ==> RunsTo(ms[i], ms[i + 1], caps, workdir)
    ensures ms[n] == AfterRuns(ms[0], caps, workdir.files, n)
  {
    hide Gather, KnownMap, WriteAll, Synced, Applied, IsSyncOf, Lists;
    if n > 0 {
      RunsAreAfterRuns(ms, caps, workdir, n - 1);
      assert RunsTo(ms[n - 1], ms[n - 1 + 1], caps, workdir);
      var knownFiles, r :| Lists(knownFiles, ms[n - 1]) && IsSyncOf(r, knownFiles, caps, workdir) && ms[n] == Applied(ms[n - 1], r);
      SyncIsSynced(ms[n - 1], knownFiles, r, caps, workdir);
    }
  }

  lemma {:induction false} EmptyOrNot(s: seq<string>)
    ensures s == [] || exists p :: p in s
  {
    if s != [] {
      assert s[0] in s;
    }
  }

  /** Whether the sandbox has each file of the directory that the caps let through, and no path that is not there. */
  ghost predicate Mirrors(m: Mirror, caps: Caps, files: seq<DiskFile>) {
    && (forall f :: f in files && f.size <= caps.file && f.size <= caps.run ==>
          && f.content.Some? && f.path in m && m[f.path].bytes == f.content.value
          && -0.001 < m[f.path].mtime - f.mtime < 0.001)
    && (forall p :: p in m ==> exists f :: f in files && f.path == p)
  }

  /**
   Convergence. Let the directory stay as it is while the sandbox runs syncs,
   each told what the sandbox holds. After as many runs as there are pending
   files, and at least one, the sandbox mirrors the directory, and a further
   sync sends nothing, deletes nothing and changes nothing.
   */
  lemma {:induction false} SyncConverges(ms: seq<Mirror>, caps: Caps, workdir: Workdir, knownFiles: seq<KnownFile>, r: SyncResult)
    requires |ms| > 1 && Directory(caps, workdir.files) && Faithful(ms[0], workdir.files)
    requires forall i :: 0 <= i < |ms| - 1 ==> RunsTo(ms[i], ms[i + 1], caps, workdir)
    requires |ms| > Count(workdir.files, IsPending(ms[0], caps))
    requires Lists(knownFiles, ms[|ms| - 1]) && IsSyncOf(r, knownFiles, caps, workdir)
    ensures Mirrors(ms[|ms| - 1], caps, workdir.files)
    ensures r.toSync == [] && r.deleted == [] && Applied(ms[|ms| - 1], r) == ms[|ms| - 1]
  {
    hide Filter, Gather, KnownMap, AfterRuns, Lists, IsSyncOf, RunsTo;
    var n := |ms| - 1;
    RunsAreAfterRuns(ms, caps, workdir, n);
    NothingLeftToSend(ms[0], caps, workdir.files, n);
    SyncIsSynced(ms[n], knownFiles, r, caps, workdir);
    EmptyOrNot(r.deleted);
    assert (set p | p in r.deleted) == {};
    assert ms[n] - {} == ms[n];
    forall p | p in ms[n] ensures exists f :: f in workdir.files && f.path == p {
      assert p in Paths(workdir.files);
    }
  }
}
