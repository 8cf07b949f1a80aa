/** The batch coordinator: discover the recordings under a directory, split
    them into chunks, and convert every chunk's files in order into one
    shared result. */
module Batch {
  import opened Wrappers
  import opened Errors
  import opened Cast
  import opened JsString

  /** The suffix a regular file needs to be found by the directory walk. */
  const CastSuffix: string := ".cast"
  /** The number of workers when `parallel` is absent or 0. */
  const DefaultWorkers: nat := 4
  const FindPrefix: string := "Failed to find cast files: "
  const BatchPrefix: string := "Batch processing failed: "

  /** One entry of `errors`: the file and the message it failed with. */
  datatype FileError = FileError(file: string, error: string)

  /** What converting one file does: it succeeds, or it throws with a message. */
  datatype FileOutcome = Converted | Failed(message: string)

  /** The per-file conversion, an oracle from path to outcome. */
  type Converter = string -> FileOutcome

  // ---------------------------------------------------------------------
  // Discovery
  // ---------------------------------------------------------------------

  /** One directory entry: a regular file, a sub-directory with its own
      listing, or anything else (a link, a socket, ...). */
  datatype Entry =
    | FileEntry(name: string)
    | DirEntry(name: string, listing: Listing)
    | OtherEntry(name: string)

  /** What reading a directory gives: its entries in order, or the message
      `readdir` fails with. */
  datatype Listing = Entries(entries: seq<Entry>) | Unreadable(message: string)

  /** One hit of the glob query, with whether `stat` calls it a regular file. */
  datatype GlobHit = GlobHit(path: string, isFile: bool)

  /** The file system as discovery sees it: the glob query's hits or failure
      when `fs.glob` exists (`None` when it does not), and the listing of the
      input directory for the fallback walk. */
  datatype FileSystem = FileSystem(glob: Option<Result<seq<GlobHit>, string>>, listing: Listing)

  /** `path.join(dir, name)`; `path.resolve` is taken to leave it unchanged. */
  function JoinPath(dir: string, name: string): string {
    dir + "/" + name
  }

  /** The files the walk of `listing` (the listing of `dir`) returns: every
      regular file whose name ends in `.cast`, depth first in entry order; the
      first unreadable directory makes the walk fail with its message. */
  function CastFiles(dir: string, listing: Listing): Result<seq<string>, string>
    decreases listing
  {
    match listing
    case Unreadable(m) => Err(m)
    case Entries(entries) => EntriesFiles(dir, entries, |entries|)
  }

  /** The files found under the first `k` entries. */
  function EntriesFiles(dir: string, entries: seq<Entry>, k: nat): Result<seq<string>, string>
    requires k <= |entries|
    decreases entries, k
  {
    if k == 0 then Ok([])
    else
      match EntriesFiles(dir, entries, k - 1)
      case Err(m) => Err(m)
      case Ok(found) =>
        match EntryFiles(dir, entries[k - 1])
        case Err(m) => Err(m)
        case Ok(more) => Ok(found + more)
  }

  /** The files found at one entry. */
  function EntryFiles(dir: string, e: Entry): Result<seq<string>, string>
    decreases e
  {
    match e
    case DirEntry(name, listing) => CastFiles(JoinPath(dir, name), listing)
    case FileEntry(name) => if EndsWith(name, CastSuffix) then Ok([JoinPath(dir, name)]) else Ok([])
    case OtherEntry(_) => Ok([])
  }

  /** `findCastFilesRecursive`: walks the entries in order, recursing into
      sub-directories and pushing `.cast` files.  The pattern argument is
      accepted and not used. */
  method FindCastFilesRecursive(dir: string, listing: Listing, pattern: string) returns (r: Result<seq<string>, string>)
    ensures r == CastFiles(dir, listing)
    decreases listing
  {
    if listing.Unreadable? {
      return Err(listing.message);
    }
    var entries := listing.entries;
    var files: seq<string> := [];
    for k := 0 to |entries|
      invariant EntriesFiles(dir, entries, k) == Ok(files)
    {
      var e := entries[k];
      if e.DirEntry? {
        var sub := FindCastFilesRecursive(JoinPath(dir, e.name), e.listing, pattern);
        assert EntryFiles(dir, e) == sub;
        if sub.Err? {
          EntriesFailureSticks(dir, entries, k + 1, sub.error);
          return Err(sub.error);
        }
        files := files + sub.value;
      } else if e.FileEntry? && EndsWith(e.name, CastSuffix) {
        assert EntryFiles(dir, e) == Ok([JoinPath(dir, e.name)]);
        files := files + [JoinPath(dir, e.name)];
      } else {
        assert EntryFiles(dir, e) == Ok([]);
        assert files + [] == files;
      }
    }
    return Ok(files);
  }

  /** Once the walk has failed, the later entries do not change its message. */
  lemma {:induction false} EntriesFailureSticks(dir: string, entries: seq<Entry>, k: nat, m: string)
    requires k <= |entries| && EntriesFiles(dir, entries, k) == Err(m)
    ensures EntriesFiles(dir, entries, |entries|) == Err(m)
    decreases |entries| - k
  {
    if k < |entries| {
      EntriesFailureSticks(dir, entries, k + 1, m);
    }
  }

  /** Every directory reachable from `listing` can be read. */
  predicate Readable(listing: Listing)
    decreases listing
  {
    match listing
    case Unreadable(_) => false
    case Entries(entries) => forall i :: 0 <= i < |entries| ==> EntryReadable(entries[i])
  }

  predicate EntryReadable(e: Entry)
    decreases e
  {
    e.DirEntry? ==> Readable(e.listing)
  }

  /** The walk succeeds exactly when every reachable directory is readable. */
  lemma {:induction false} CastFilesOk(dir: string, listing: Listing)
    ensures CastFiles(dir, listing).Ok? <==> Readable(listing)
    decreases listing
  {
    if listing.Entries? {
      EntriesFilesOk(dir, listing.entries, |listing.entries|);
    }
  }

  lemma {:induction false} EntriesFilesOk(dir: string, entries: seq<Entry>, k: nat)
    requires k <= |entries|
    ensures EntriesFiles(dir, entries, k).Ok? <==> forall i :: 0 <= i < k ==> EntryReadable(entries[i])
    decreases entries, k
  {
    if k > 0 {
      EntriesFilesOk(dir, entries, k - 1);
      var e := entries[k - 1];
      if e.DirEntry? {
        CastFilesOk(JoinPath(dir, e.name), e.listing);
      }
    }
  }

  /** Every file the walk returns ends in `.cast`. */
  lemma {:induction false} CastFilesSuffix(dir: string, listing: Listing)
    requires CastFiles(dir, listing).Ok?
    ensures forall p :: p in CastFiles(dir, listing).value ==> EndsWith(p, CastSuffix)
    decreases listing
  {
    EntriesFilesSuffix(dir, listing.entries, |listing.entries|);
  }

  lemma {:induction false} EntriesFilesSuffix(dir: string, entries: seq<Entry>, k: nat)
    requires k <= |entries| && EntriesFiles(dir, entries, k).Ok?
    ensures forall p :: p in EntriesFiles(dir, entries, k).value ==> EndsWith(p, CastSuffix)
    decreases entries, k
  {
    if k > 0 {
      EntriesFilesSuffix(dir, entries, k - 1);
      var e := entries[k - 1];
      match e
      case DirEntry(name, sub) =>
        CastFilesSuffix(JoinPath(dir, name), sub);
      case FileEntry(name) =>
        if EndsWith(name, CastSuffix) {
          JoinKeepsSuffix(dir, name);
        }
      case OtherEntry(_) =>
    }
  }

  /** A name's suffix survives the join with its directory. */
  lemma JoinKeepsSuffix(dir: string, name: string)
    requires EndsWith(name, CastSuffix)
    ensures EndsWith(JoinPath(dir, name), CastSuffix)
  {
    var p := JoinPath(dir, name);
    assert p[|p| - |CastSuffix|..] == name[|name| - |CastSuffix|..];
  }

  /** Depth first in entry order: the walk of a directory whose entries are
      `a` then `b` finds what `a` finds, then what `b` finds. */
  lemma {:induction false} CastFilesInOrder(dir: string, a: seq<Entry>, b: seq<Entry>)
    requires EntriesFiles(dir, a, |a|).Ok? && EntriesFiles(dir, b, |b|).Ok?
    ensures CastFiles(dir, Entries(a + b)) ==
      Ok(EntriesFiles(dir, a, |a|).value + EntriesFiles(dir, b, |b|).value)
  {
    EntriesAppend(dir, a, b, |b|);
  }

  lemma {:induction false} EntriesAppend(dir: string, a: seq<Entry>, b: seq<Entry>, k: nat)
    requires k <= |b|
    requires EntriesFiles(dir, a, |a|).Ok? && EntriesFiles(dir, b, k).Ok?
    ensures EntriesFiles(dir, a + b, |a| + k) ==
      Ok(EntriesFiles(dir, a, |a|).value + EntriesFiles(dir, b, k).value)
    decreases k
  {
    if k == 0 {
      EntriesPrefix(dir, a, b, |a|);
      assert EntriesFiles(dir, a, |a|).value + [] == EntriesFiles(dir, a, |a|).value;
    } else {
      EntriesAppend(dir, a, b, k - 1);
      assert (a + b)[|a| + k - 1] == b[k - 1];
      var x := EntriesFiles(dir, a, |a|).value;
      var y := EntriesFiles(dir, b, k - 1).value;
      var z := EntryFiles(dir, b[k - 1]).value;
      assert x + y + z == x + (y + z);
    }
  }

  /** The first `k` entries of `a + b`, for `k <= |a|`, are those of `a`. */
  lemma {:induction false} EntriesPrefix(dir: string, a: seq<Entry>, b: seq<Entry>, k: nat)
    requires k <= |a|
    ensures EntriesFiles(dir, a + b, k) == EntriesFiles(dir, a, k)
  {
    if k > 0 {
      EntriesPrefix(dir, a, b, k - 1);
      assert (a + b)[k - 1] == a[k - 1];
    }
  }

  /** The files the glob loop keeps: the hits `stat` calls regular files, in order. */
  function GlobFiles(hits: seq<GlobHit>): (r: seq<string>)
    ensures |r| <= |hits|
    ensures forall p :: p in r <==> exists i :: 0 <= i < |hits| && hits[i].isFile && hits[i].path == p
  {
    if hits == [] then []
    else
      var rest := GlobFiles(hits[..|hits| - 1]);
      var last := hits[|hits| - 1];
      assert forall i :: 0 <= i < |hits| - 1 ==> hits[..|hits| - 1][i] == hits[i];
      if last.isFile then rest + [last.path] else rest
  }

  /** What `findCastFiles` gives: the glob's regular files when `fs.glob`
      exists, otherwise the walk's files; either failure becomes
      BATCH_PROCESSING_FAILED with the discovery prefix. */
  function Discovered(dir: string, fs: FileSystem): Result<seq<string>, AsciinemaError> {
    var found := if fs.glob.Some? then
        (match fs.glob.value
         case Err(m) => Err(m)
         case Ok(hits) => Ok(GlobFiles(hits)))
      else CastFiles(dir, fs.listing);
    match found
    case Err(m) => Err(AsciinemaError(BatchProcessingFailed, FindPrefix + m))
    case Ok(files) => Ok(files)
  }

  /** `findCastFiles`: the glob loop when `fs.glob` exists, the recursive walk
      otherwise.  The pattern only shapes the glob query, whose answer is
      part of `fs`. */
  method FindCastFiles(dir: string, pattern: Option<string>, fs: FileSystem) returns (r: Result<seq<string>, AsciinemaError>)
    ensures r == Discovered(dir, fs)
  {
    var found: Result<seq<string>, string>;
    if fs.glob.Some? {
      if fs.glob.value.Err? {
        found := Err(fs.glob.value.error);
      } else {
        var hits := fs.glob.value.value;
        var files: seq<string> := [];
        for k := 0 to |hits|
          invariant files == GlobFiles(hits[..k])
        {
          assert hits[..k + 1][..k] == hits[..k];
          if hits[k].isFile {
            files := files + [hits[k].path];
          }
        }
        assert hits[..|hits|] == hits;
        found := Ok(files);
      }
    } else {
      var searchPattern := if pattern.Some? && pattern.value != "" then pattern.value else "*.cast";
      found := FindCastFilesRecursive(dir, fs.listing, searchPattern);
    }
    if found.Err? {
      return Err(AsciinemaError(BatchProcessingFailed, FindPrefix + found.error));
    }
    return Ok(found.value);
  }

  /** When discovery fails, the message the caller finally sees carries both
      prefixes, outer first. */
  lemma DiscoveryFailureMessage(dir: string, fs: FileSystem)
    requires Discovered(dir, fs).Err?
    ensures Discovered(dir, fs).error.kind == BatchProcessingFailed
    ensures exists m :: BatchPrefix + Discovered(dir, fs).error.message == BatchPrefix + FindPrefix + m
  {
    var m :| Discovered(dir, fs).error.message == FindPrefix + m;
    assert BatchPrefix + Discovered(dir, fs).error.message == BatchPrefix + FindPrefix + m;
  }

  // ---------------------------------------------------------------------
  // Chunking
  // ---------------------------------------------------------------------

  /** `Math.min(parallel || 4, n)`: an absent or zero `parallel` means 4. */
  function WorkerCount(parallel: Option<int>, n: nat): (w: int)
    requires parallel.None? || parallel.value >= 0
    ensures var asked := if parallel.None? || parallel.value == 0 then DefaultWorkers else parallel.value;
      w <= n && w <= asked && (w == n || w == asked)
    ensures n > 0 ==> 1 <= w
  {
    var asked := if parallel.None? || parallel.value == 0 then DefaultWorkers as int else parallel.value;
    if asked < n then asked else n
  }

  /** `Math.ceil(n / w)`. */
  function CeilDiv(n: nat, w: nat): (c: nat)
    requires w > 0
    ensures c * w >= n && (c == 0 || (c - 1) * w < n)
  {
    (n + w - 1) / w
  }

  /** `chunkArray`: consecutive slices of `size` elements; the last may be
      shorter. */
  function Chunks<T>(a: seq<T>, size: nat): seq<seq<T>>
    requires size > 0
    decreases |a|
  {
    if a == [] then []
    else if |a| <= size then [a]
    else [a[..size]] + Chunks(a[size..], size)
  }

  /** The concatenation of a sequence of sequences. */
  function Flatten<T>(parts: seq<seq<T>>): seq<T> {
    if parts == [] then [] else parts[0] + Flatten(parts[1..])
  }

  /** `chunkArray`: a `for` loop stepping by `size` and pushing
      `array.slice(i, i + size)`.  A size of 0 would never end the loop. */
  method ChunkArray<T>(items: seq<T>, size: nat) returns (chunks: seq<seq<T>>)
    requires size > 0
    ensures chunks == Chunks(items, size)
  {
    chunks := [];
    var i := 0;
    while i < |items|
      invariant chunks + Chunks(items[Min(i, |items|)..], size) == Chunks(items, size)
      decreases |items| - i
    {
      var j := Min(i + size, |items|);
      var rest := items[i..];
      ChunksStep(rest, size);
      assert rest[..j - i] == items[i..j];
      assert i + size < |items| ==> rest[size..] == items[i + size..];
      assert chunks + ([items[i..j]] + Chunks(items[Min(i + size, |items|)..], size))
        == chunks + [items[i..j]] + Chunks(items[Min(i + size, |items|)..], size);
      chunks := chunks + [items[i..j]];
      i := i + size;
    }
  }

  function Min(x: int, y: int): int {
    if x < y then x else y
  }

  /** One step of the chunking loop. */
  lemma ChunksStep<T>(a: seq<T>, size: nat)
    requires size > 0 && a != []
    ensures |a| <= size ==> Chunks(a, size) == [a[..Min(size, |a|)]] + Chunks(a[Min(size, |a|)..], size)
    ensures |a| > size ==> Chunks(a, size) == [a[..size]] + Chunks(a[size..], size)
  {
    if |a| <= size {
      assert a[..|a|] == a && a[|a|..] == [];
    }
  }

  /** The chunks, put back together, are the input. */
  lemma {:induction false} ChunksFlatten<T>(a: seq<T>, size: nat)
    requires size > 0
    ensures Flatten(Chunks(a, size)) == a
    decreases |a|
  {
    if a != [] && |a| > size {
      ChunksFlatten(a[size..], size);
      var c := Chunks(a, size);
      assert c[1..] == Chunks(a[size..], size);
      assert a[..size] + a[size..] == a;
    } else if a != [] {
      assert Flatten([a]) == a + Flatten([]);
    }
  }

  /** Every chunk is non-empty and at most `size` long, and every chunk but
      the last is exactly `size` long. */
  lemma {:induction false} ChunksShape<T>(a: seq<T>, size: nat)
    requires size > 0
    ensures forall i :: 0 <= i < |Chunks(a, size)| ==> 0 < |Chunks(a, size)[i]| <= size
    ensures forall i :: 0 <= i < |Chunks(a, size)| - 1 ==> |Chunks(a, size)[i]| == size
    decreases |a|
  {
    if |a| > size {
      ChunksShape(a[size..], size);
      var c := Chunks(a, size);
      var rest := Chunks(a[size..], size);
      assert c == [a[..size]] + rest;
      forall i | 1 <= i < |c| ensures c[i] == rest[i - 1] {
      }
    }
  }

  /** There are `ceil(|a| / size)` chunks. */
  lemma {:induction false} ChunksCount<T>(a: seq<T>, size: nat)
    requires size > 0
    ensures |Chunks(a, size)| == CeilDiv(|a|, size)
    decreases |a|
  {
    if |a| > size {
      ChunksCount(a[size..], size);
      CeilDivStep(|a|, size);
    } else if a != [] {
      DivUnique(|a| + size - 1, size, 1, |a| - 1);
    } else {
      DivUnique(size - 1, size, 0, size - 1);
    }
  }

  /** `ceil(n / w)` is one more than `ceil((n - w) / w)`. */
  lemma CeilDivStep(n: nat, w: nat)
    requires 0 < w < n
    ensures CeilDiv(n, w) == CeilDiv(n - w, w) + 1
  {
    var x := n - 1;
    var q := x / w;
    var r := x % w;
    assert x == q * w + r;
    assert x + w == (q + 1) * w + r;
    DivUnique(x + w, w, q + 1, r);
  }

  /** Integer division is determined by quotient and remainder. */
  lemma DivUnique(a: int, w: int, q: int, r: int)
    requires w > 0 && 0 <= r < w && a == q * w + r
    ensures a / w == q
  {
    var q' := a / w;
    var r' := a % w;
    assert (q - q') * w == r' - r;
    MulMono(1, q - q', w);
    MulMono(1, q' - q, w);
  }

  /** Multiplying by a non-negative number keeps order. */
  lemma MulMono(x: int, y: int, c: nat)
    ensures x <= y ==> x * c <= y * c
  {
    if x <= y {
      assert y * c - x * c == (y - x) * c;
    }
  }

  /** Chunks of `ceil(n / w)` elements number at most `w`: the batch never
      starts more chunks than it has workers. */
  lemma AtMostWorkers(n: nat, w: nat)
    requires 0 < w <= n
    ensures CeilDiv(n, w) > 0 && CeilDiv(n, CeilDiv(n, w)) <= w
  {
    var c := CeilDiv(n, w);
    var k := CeilDiv(n, c);
    MulMono(w, k - 1, c);
  }

  /** The plan `process` makes for `n > 0` files: at most `workers` chunks,
      all but the last `ceil(n / workers)` long, which together are the files. */
  lemma ChunkPlan(files: seq<string>, parallel: Option<int>)
    requires parallel.None? || parallel.value >= 0
    requires |files| > 0
    ensures var w := WorkerCount(parallel, |files|);
      var size := CeilDiv(|files|, w);
      var chunks := Chunks(files, size);
      && size > 0
      && |chunks| <= w
      && Flatten(chunks) == files
      && forall i :: 0 <= i < |chunks| - 1 ==> |chunks[i]| == size
  {
    var w := WorkerCount(parallel, |files|);
    AtMostWorkers(|files|, w);
    var size := CeilDiv(|files|, w);
    ChunksCount(files, size);
    ChunksFlatten(files, size);
    ChunksShape(files, size);
  }

  // ---------------------------------------------------------------------
  // Processing
  // ---------------------------------------------------------------------

  /** The counters and error list of a `BatchResult`, as a value. */
  datatype Tally = Tally(succeeded: nat, failed: nat, errors: seq<FileError>)

  const NoTally := Tally(0, 0, [])

  /** How a run over files ends: the tally reached, and the message thrown
      when a failure stopped it. */
  datatype ChunkRun = ChunkRun(tally: Tally, thrown: Option<string>)

  /** The tally after one file's outcome. */
  function Record(t: Tally, file: string, o: FileOutcome): (r: Tally)
    ensures o.Converted? ==> r == t.(succeeded := t.succeeded + 1)
    ensures o.Failed? ==> r == Tally(t.succeeded, t.failed + 1, t.errors + [FileError(file, o.message)])
  {
    match o
    case Converted => t.(succeeded := t.succeeded + 1)
    case Failed(m) => t.(failed := t.failed + 1, errors := t.errors + [FileError(file, m)])
  }

  /** `processChunk`'s loop from tally `t`: each file in order; a failure
      stops the run when errors are not skipped. */
  function RunChunk(t: Tally, files: seq<string>, convert: Converter, skipErrors: bool): ChunkRun
    decreases |files|
  {
    if files == [] then ChunkRun(t, None)
    else
      var o := convert(files[0]);
      var t' := Record(t, files[0], o);
      if o.Failed? && !skipErrors then ChunkRun(t', Some(o.message))
      else RunChunk(t', files[1..], convert, skipErrors)
  }

  /** The chunks one after another from tally `t`; the first chunk that
      throws ends the run. */
  function RunChunks(t: Tally, chunks: seq<seq<string>>, convert: Converter, skipErrors: bool): ChunkRun
    decreases |chunks|
  {
    if chunks == [] then ChunkRun(t, None)
    else
      var r := RunChunk(t, chunks[0], convert, skipErrors);
      if r.thrown.Some? then r else RunChunks(r.tally, chunks[1..], convert, skipErrors)
  }

  /** How many of the files convert. */
  function CountConverted(files: seq<string>, convert: Converter): (n: nat)
    ensures n <= |files|
    decreases |files|
  {
    if files == [] then 0
    else (if convert(files[0]).Converted? then 1 else 0) + CountConverted(files[1..], convert)
  }

  /** The failing files with their messages, in order. */
  function Failures(files: seq<string>, convert: Converter): seq<FileError>
    decreases |files|
  {
    if files == [] then []
    else
      var o := convert(files[0]);
      (if o.Failed? then [FileError(files[0], o.message)] else []) + Failures(files[1..], convert)
  }

  /** The index of the first failing file, or `|files|` when none fails. */
  function FirstFailed(files: seq<string>, convert: Converter): (k: nat)
    ensures k <= |files|
    ensures forall i :: 0 <= i < k ==> convert(files[i]).Converted?
    ensures k < |files| ==> convert(files[k]).Failed?
    decreases |files|
  {
    if files == [] || convert(files[0]).Failed? then 0
    else 1 + FirstFailed(files[1..], convert)
  }

  /** Skipping errors: every file is attempted, the successes and the
      failures are counted and the failures listed in order, and nothing is
      thrown. */
  lemma {:induction false} RunChunkSkipping(t: Tally, files: seq<string>, convert: Converter)
    ensures var r := RunChunk(t, files, convert, true);
      var ok := CountConverted(files, convert);
      && r.thrown.None?
      && r.tally.succeeded == t.succeeded + ok
      && r.tally.failed == t.failed + (|files| - ok)
      && r.tally.errors == t.errors + Failures(files, convert)
      && |Failures(files, convert)| == |files| - ok
    decreases |files|
  {
    if files != [] {
      var t' := Record(t, files[0], convert(files[0]));
      RunChunkSkipping(t', files[1..], convert);
      var rest := Failures(files[1..], convert);
      if convert(files[0]).Failed? {
        assert t.errors + [FileError(files[0], convert(files[0]).message)] + rest
          == t.errors + ([FileError(files[0], convert(files[0]).message)] + rest);
      } else {
        assert [] + rest == rest;
      }
    }
  }

  /** Not skipping errors: the files before the first failure succeed, the
      first failure is recorded and thrown, and nothing after it is
      attempted. */
  lemma {:induction false} RunChunkStrict(t: Tally, files: seq<string>, convert: Converter)
    ensures var r := RunChunk(t, files, convert, false);
      var k := FirstFailed(files, convert);
      && (r.thrown.Some? <==> k < |files|)
      && r.tally.succeeded == t.succeeded + k
      && (k == |files| ==> r.tally.failed == t.failed && r.tally.errors == t.errors)
      && (k < |files| ==> var m := convert(files[k]).message;
           r.thrown == Some(m)
           && r.tally.failed == t.failed + 1
           && r.tally.errors == t.errors + [FileError(files[k], m)])
    decreases |files|
  {
    if files != [] && convert(files[0]).Converted? {
      RunChunkStrict(Record(t, files[0], Converted), files[1..], convert);
    }
  }

  /** Running `a` then, unless it threw, `b` is running `a + b`. */
  lemma {:induction false} RunChunkAppend(t: Tally, a: seq<string>, b: seq<string>, convert: Converter, skipErrors: bool)
    ensures var r := RunChunk(t, a, convert, skipErrors);
      RunChunk(t, a + b, convert, skipErrors) ==
        (if r.thrown.Some? then r else RunChunk(r.tally, b, convert, skipErrors))
    decreases |a|
  {
    if a != [] {
      assert (a + b)[0] == a[0] && (a + b)[1..] == a[1..] + b;
      RunChunkAppend(Record(t, a[0], convert(a[0])), a[1..], b, convert, skipErrors);
    } else {
      assert a + b == b;
    }
  }

  /** Running the chunks one after another is running their concatenation. */
  lemma {:induction false} RunChunksFlatten(t: Tally, chunks: seq<seq<string>>, convert: Converter, skipErrors: bool)
    ensures RunChunks(t, chunks, convert, skipErrors) == RunChunk(t, Flatten(chunks), convert, skipErrors)
    decreases |chunks|
  {
    if chunks != [] {
      RunChunkAppend(t, chunks[0], Flatten(chunks[1..]), convert, skipErrors);
      var r := RunChunk(t, chunks[0], convert, skipErrors);
      if r.thrown.None? {
        RunChunksFlatten(r.tally, chunks[1..], convert, skipErrors);
      }
    }
  }

  /** The shared result object the chunks update. */
  class BatchResult {
    var processed: nat
    var succeeded: nat
    var failed: nat
    var errors: seq<FileError>

    function Counts(): Tally
      reads this
    {
      Tally(succeeded, failed, errors)
    }

    constructor()
      ensures processed == 0 && Counts() == NoTally
    {
      processed := 0;
      succeeded := 0;
      failed := 0;
      errors := [];
    }
  }

  /** `processChunk`: converts the files in order into `result`; with
      `skipErrors` false the first failure is recorded and re-thrown. */
  method ProcessChunk(files: seq<string>, skipErrors: bool, convert: Converter, result: BatchResult)
      returns (thrown: Option<string>)
    modifies result
    ensures result.processed == old(result.processed)
    ensures ChunkRun(result.Counts(), thrown) == RunChunk(old(result.Counts()), files, convert, skipErrors)
  {
    for i := 0 to |files|
      invariant result.processed == old(result.processed)
      invariant RunChunk(old(result.Counts()), files, convert, skipErrors)
        == RunChunk(result.Counts(), files[i..], convert, skipErrors)
    {
      assert files[i..][1..] == files[i + 1..];
      var file := files[i];
      match convert(file)
      case Converted =>
        result.succeeded := result.succeeded + 1;
      case Failed(m) =>
        result.failed := result.failed + 1;
        result.errors := result.errors + [FileError(file, m)];
        if !skipErrors {
          return Some(m);
        }
    }
    return None;
  }

  /** What `process` reports for discovered files: the run of all of them
      from an empty tally. */
  function Outcome(files: seq<string>, convert: Converter, skipErrors: bool): ChunkRun {
    RunChunk(NoTally, files, convert, skipErrors)
  }

  /** `process`: discover, count, chunk, and run the chunks one after
      another.  A failure of discovery or of a chunk becomes
      BATCH_PROCESSING_FAILED with the outer prefix. */
  method Process(options: BatchOptions, fs: FileSystem, convert: Converter)
      returns (r: Result<BatchResult, AsciinemaError>)
    requires options.parallel.None? || options.parallel.value >= 0
    ensures var d := Discovered(options.inputDir, fs);
      d.Err? ==> r == Err(AsciinemaError(BatchProcessingFailed, BatchPrefix + d.error.message))
    ensures var d := Discovered(options.inputDir, fs);
      d.Ok? ==> var run := Outcome(d.value, convert, options.skipErrors);
        && (r.Ok? <==> run.thrown.None?)
        && (r.Err? ==> r.error == AsciinemaError(BatchProcessingFailed, BatchPrefix + run.thrown.value))
        && (r.Ok? ==> fresh(r.value) && r.value.processed == |d.value| && r.value.Counts() == run.tally)
  {
    var result := new BatchResult();
    var found := FindCastFiles(options.inputDir, options.pattern, fs);
    if found.Err? {
      return Err(AsciinemaError(BatchProcessingFailed, BatchPrefix + found.error.message));
    }
    var files := found.value;
    result.processed := |files|;
    if |files| == 0 {
      return Ok(result);
    }
    var workers := WorkerCount(options.parallel, |files|);
    var chunks := ChunkArray(files, CeilDiv(|files|, workers));
    ChunksFlatten(files, CeilDiv(|files|, workers));
    RunChunksFlatten(NoTally, chunks, convert, options.skipErrors);
    // `Promise.all` over the chunks, one chunk after another.
    for c := 0 to |chunks|
      invariant result.processed == |files|
      invariant RunChunks(NoTally, chunks, convert, options.skipErrors)
        == RunChunks(result.Counts(), chunks[c..], convert, options.skipErrors)
    {
      assert chunks[c..][1..] == chunks[c + 1..];
      var thrown := ProcessChunk(chunks[c], options.skipErrors, convert, result);
      if thrown.Some? {
        return Err(AsciinemaError(BatchProcessingFailed, BatchPrefix + thrown.value));
      }
    }
    return Ok(result);
  }

  /** With no files, the result is all zeros and nothing is thrown. */
  lemma NothingFound(convert: Converter, skipErrors: bool)
    ensures Outcome([], convert, skipErrors) == ChunkRun(NoTally, None)
  {
  }

  /** Skipping errors, every discovered file is counted once:
      `succeeded + failed == processed` and `errors.length == failed`. */
  lemma SkippingCountsEveryFile(files: seq<string>, convert: Converter)
    ensures var run := Outcome(files, convert, true);
      && run.thrown.None?
      && run.tally.succeeded + run.tally.failed == |files|
      && |run.tally.errors| == run.tally.failed
  {
    RunChunkSkipping(NoTally, files, convert);
  }

  /** Not skipping errors, the batch fails exactly when some file fails, and
      then with the first failing file's message. */
  lemma StrictFailsOnFirstFailure(files: seq<string>, convert: Converter)
    ensures var run := Outcome(files, convert, false);
      var k := FirstFailed(files, convert);
      && (run.thrown.Some? <==> exists i :: 0 <= i < |files| && convert(files[i]).Failed?)
      && (run.thrown.Some? ==> run.thrown == Some(convert(files[k]).message))
  {
    RunChunkStrict(NoTally, files, convert);
    var k := FirstFailed(files, convert);
    if k < |files| {
      assert convert(files[k]).Failed?;
    }
  }
}
