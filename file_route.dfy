/**
 * The chunked upload of src/routes/file_route.rs (`upload_chunk` and
 * `cleanup_temp_files`) over an in-memory file store: a map from paths to
 * contents. A chunk is written to "temp/{uploadId}_chunk_{index}"; the
 * last index reassembles the chunks into "uploads/{uploadId}.{ext}" and
 * deletes them.
 */
module FileRoute {
  import opened Wrappers
  import opened Http
  import Text

  type Path = string

  type Files = map<Path, seq<byte>>

  /** The directory tree the handler reads and writes. */
  class FileStore {
    var files: Files

    constructor (initial: Files)
      ensures files == initial
    {
      files := initial;
    }
  }

  function ChunkPath(uploadId: string, index: nat): Path
  {
    "temp/" + uploadId + "_chunk_" + Text.Decimal(index)
  }

  function FinalPath(uploadId: string, ext: string): Path
  {
    "uploads/" + uploadId + "." + ext
  }

  /** The temporary chunk paths 0 .. total - 1 of one upload. */
  function ChunkPaths(uploadId: string, total: nat): set<Path>
  {
    set i | 0 <= i < total :: ChunkPath(uploadId, i)
  }

  /** How many digits a text ends with. */
  function TrailingDigits(s: string): nat
  {
    if s == [] || !Text.IsDigit(s[|s| - 1]) then 0 else 1 + TrailingDigits(s[..|s| - 1])
  }

  lemma {:induction false} TrailingDigitsOf(p: string, d: string)
    requires p != [] && !Text.IsDigit(p[|p| - 1]) && Text.AllDigits(d)
    ensures TrailingDigits(p + d) == |d|
  {
    if d == [] {
      assert p + d == p;
    } else {
      assert (p + d)[..|p + d| - 1] == p + d[..|d| - 1];
      TrailingDigitsOf(p, d[..|d| - 1]);
    }
  }

  /**
   * Different chunks, of the same upload or not, never share a path text
   * (the files those texts name: `SafeChunkFilesDistinct`).
   */
  lemma ChunkPathInjective(u1: string, i1: nat, u2: string, i2: nat)
    requires ChunkPath(u1, i1) == ChunkPath(u2, i2)
    ensures u1 == u2 && i1 == i2
  {
    var d1, d2 := Text.Decimal(i1), Text.Decimal(i2);
    var s1, s2 := u1 + "_chunk_" + d1, u2 + "_chunk_" + d2;
    assert s1 == ChunkPath(u1, i1)[5..] && s2 == ChunkPath(u2, i2)[5..];
    var n := |s1|;
    TrailingDigitsOf(u1 + "_chunk_", d1);
    TrailingDigitsOf(u2 + "_chunk_", d2);
    assert d1 == s1[n - |d1|..] && d2 == s2[n - |d2|..];
    Text.DecimalInjective(i1, i2);
    assert u1 == s1[..|u1|] && u2 == s2[..|u2|];
  }

  /** The final file is never a temporary chunk. */
  lemma FinalPathNotChunk(u: string, ext: string, v: string, i: nat)
    ensures FinalPath(u, ext) != ChunkPath(v, i)
  {
    assert FinalPath(u, ext)[0] == 'u' && ChunkPath(v, i)[0] == 't';
  }

  /** The query string's three parameters. */
  datatype Query = Query(index: nat, total: nat, uploadId: string)

  const OptionUnwrapPanic: string := "called `Option::unwrap()` on a `None` value"

  function ParseNumber(params: map<string, string>, key: string): Result<nat, string>
  {
    if key !in params then Err(OptionUnwrapPanic)
    else match Text.ParseUsize(params[key])
      case None => Err(UnwrapPanic)
      case Some(n) => Ok(n)
  }

  /**
   * `params.get(..).unwrap().parse().unwrap()` for the two counters and
   * `params.get("uploadId").unwrap()`: a missing or unparsable parameter
   * panics (the error carries the panic message).
   */
  function ParseQuery(params: map<string, string>): (r: Result<Query, string>)
    ensures r.Ok? <==> ("chunkIndex" in params && Text.ParseUsize(params["chunkIndex"]).Some?
                        && "totalChunks" in params && Text.ParseUsize(params["totalChunks"]).Some?
                        && "uploadId" in params)
    ensures r.Ok? ==> r.value.index == Text.ParseUsize(params["chunkIndex"]).value
                      && r.value.total == Text.ParseUsize(params["totalChunks"]).value
                      && r.value.index < Text.UsizeLimit && r.value.total < Text.UsizeLimit
                      && r.value.uploadId == params["uploadId"]
  {
    match ParseNumber(params, "chunkIndex")
    case Err(e) => Err(e)
    case Ok(index) =>
      match ParseNumber(params, "totalChunks")
      case Err(e) => Err(e)
      case Ok(total) =>
        if "uploadId" !in params then Err(OptionUnwrapPanic)
        else Ok(Query(index, total, params["uploadId"]))
  }

  /**
   * One multipart field as it arrives: its content disposition's file
   * name (absent when there is no disposition or no file name) and its
   * chunks; or an error in place of the field.
   */
  datatype Item = Field(filename: Option<string>, chunks: seq<Result<seq<byte>, string>>) | FieldFailed(error: string)

  datatype Failure = FieldError(e: string) | ChunkError(e: string) | NoFilename

  /** Where reading the payload stands: bytes written so far, the last file name seen, and the failure that stopped it. */
  datatype Reading = Reading(data: seq<byte>, filename: string, failure: Option<Failure>)

  const Start: Reading := Reading([], "", None)

  /** Append a field's chunks in order, stopping at the first chunk that fails. */
  function Chunks(st: Reading, chunks: seq<Result<seq<byte>, string>>): Reading
    decreases |chunks|
  {
    if st.failure.Some? || chunks == [] then st
    else match chunks[0]
      case Ok(bytes) => Chunks(st.(data := st.data + bytes), chunks[1..])
      case Err(e) => st.(failure := Some(ChunkError(e)))
  }

  /** Read the fields in order; each one's file name replaces the previous one. */
  function Fields(st: Reading, items: seq<Item>): Reading
    decreases |items|
  {
    if st.failure.Some? || items == [] then st
    else match items[0]
      case FieldFailed(e) => st.(failure := Some(FieldError(e)))
      case Field(name, chunks) =>
        if name.None? then st.(failure := Some(NoFilename))
        else Fields(Chunks(st.(filename := name.value), chunks), items[1..])
  }

  /** The last occurrence of `c` in `s`, if any. */
  function LastIndexOf(s: string, c: char): (k: Option<nat>)
    ensures k.Some? ==> k.value < |s| && s[k.value] == c && c !in s[k.value + 1..]
    ensures k.None? ==> c !in s
  {
    if s == [] then None
    else if s[|s| - 1] == c then Some(|s| - 1)
    else
      var k := LastIndexOf(s[..|s| - 1], c);
      assert s == s[..|s| - 1] + [s[|s| - 1]];
      k
  }

  /** The ensures of `LastIndexOf` determine it: an occurrence with none after it is the last one. */
  lemma {:induction false} LastIndexOfIs(s: string, c: char, k: nat)
    requires k < |s| && s[k] == c && c !in s[k + 1..]
    ensures LastIndexOf(s, c) == Some(k)
    decreases |s|
  {
    if k < |s| - 1 {
      assert s[|s| - 1] == s[k + 1..][|s| - k - 2];
      var front := s[..|s| - 1];
      assert c !in front[k + 1..] by {
        forall j | k + 1 <= j < |front| ensures front[j] != c {
          assert front[j] == s[k + 1..][j - k - 1];
        }
      }
      LastIndexOfIs(front, c, k);
    }
  }

  lemma {:induction false} LastIndexOfNone(s: string, c: char)
    requires c !in s
    ensures LastIndexOf(s, c) == None
    decreases |s|
  {
    if s != [] {
      assert s[|s| - 1] in s;
      var front := s[..|s| - 1];
      assert c !in front by {
        forall j | 0 <= j < |front| ensures front[j] != c {
          assert front[j] == s[j];
        }
      }
      LastIndexOfNone(front, c);
    }
  }

  /** `Path::file_name`: what follows the last '/', unless that is empty, "." or "..". */
  function FileName(p: string): Option<string>
  {
    var name := match LastIndexOf(p, '/') case None => p case Some(k) => p[k + 1..];
    if name == "" || name == "." || name == ".." then None else Some(name)
  }

  /** `Path::extension`: after the last '.', unless the name has no '.' or starts with its only one. */
  function Extension(p: string): Option<string>
  {
    match FileName(p)
    case None => None
    case Some(name) =>
      match LastIndexOf(name, '.')
      case None => None
      case Some(k) => if k == 0 then None else Some(name[k + 1..])
  }

  /** `original_extension`: the extension of the last file name, or empty. */
  function ExtensionOf(filename: string): string
  {
    match Extension(filename)
    case Some(e) => e
    case None => ""
  }

  /** The chunks of one upload that exist, concatenated in index order 0 .. total - 1. */
  function Reassembled(files: Files, uploadId: string, total: nat): seq<byte>
  {
    if total == 0 then []
    else
      Reassembled(files, uploadId, total - 1)
      + (if ChunkPath(uploadId, total - 1) in files then files[ChunkPath(uploadId, total - 1)] else [])
  }

  const AlreadyUploaded: string := "Chunk already uploaded."
  const Reassembled200: string := "All chunks uploaded and reassembled successfully"
  const Uploaded200: string := "Chunk uploaded successfully"
  const SubtractOverflow: string := "attempt to subtract with overflow"

  datatype Step = Step(outcome: Outcome, files: Files)

  /** The response to a payload whose reading failed. */
  function AfterReading(st: Reading): Outcome
    requires st.failure.Some?
  {
    match st.failure.value
    case FieldError(e) => Responded(Response(500, "Error processing file field: " + e))
    case ChunkError(e) => Responded(Response(500, "Error reading chunk: " + e))
    case NoFilename => Panicked(OptionUnwrapPanic)
  }

  /** `upload_chunk` on a file store: its response and the store it leaves. */
  function UploadChunkResult(files: Files, params: map<string, string>, items: seq<Item>): Step
  {
    match ParseQuery(params)
    case Err(e) => Step(Panicked(e), files)
    case Ok(q) =>
      var chunkPath := ChunkPath(q.uploadId, q.index);
      if chunkPath in files then Step(Responded(Response(200, AlreadyUploaded)), files)
      else
        var st := Fields(Start, items);
        var written := files[chunkPath := st.data];
        if st.failure.Some? then Step(AfterReading(st), written)
        else if q.total == 0 then Step(Panicked(SubtractOverflow), written)
        else if q.index == q.total - 1 then
          var assembled := written[FinalPath(q.uploadId, ExtensionOf(st.filename))
                                   := Reassembled(written, q.uploadId, q.total)];
          Step(Responded(Response(200, Reassembled200)), assembled - ChunkPaths(q.uploadId, q.total))
        else Step(Responded(Response(200, Uploaded200)), written)
  }

  lemma ChunkPathsStep(uploadId: string, k: nat)
    ensures ChunkPaths(uploadId, k + 1) == ChunkPaths(uploadId, k) + {ChunkPath(uploadId, k)}
  {
  }

  /** `cleanup_temp_files`: delete every temporary chunk 0 .. total - 1 that exists, and nothing else. */
  method CleanupTempFiles(store: FileStore, uploadId: string, total: nat)
    modifies store
    ensures store.files == old(store.files) - ChunkPaths(uploadId, total)
  {
    var i := 0;
    while i < total
      invariant 0 <= i <= total
      invariant store.files == old(store.files) - ChunkPaths(uploadId, i)
    {
      var chunkPath := ChunkPath(uploadId, i);
      ChunkPathsStep(uploadId, i);
      if chunkPath in store.files {
        store.files := store.files - {chunkPath};
      }
      i := i + 1;
    }
  }

  /** Append one field's chunks to the chunk file, stopping at the first chunk that fails. */
  method WriteField(store: FileStore, chunkPath: Path, written: seq<byte>, filename: string,
                    chunks: seq<Result<seq<byte>, string>>) returns (st: Reading)
    modifies store
    requires chunkPath in store.files && store.files[chunkPath] == written
    ensures st == Chunks(Reading(written, filename, None), chunks)
    ensures store.files == old(store.files)[chunkPath := st.data]
  {
    st := Reading(written, filename, None);
    var j := 0;
    while j < |chunks|
      invariant 0 <= j <= |chunks|
      invariant st.failure.None? && st.filename == filename
      invariant Chunks(st, chunks[j..]) == Chunks(Reading(written, filename, None), chunks)
      invariant store.files == old(store.files)[chunkPath := st.data]
    {
      match chunks[j]
      case Err(e) =>
        st := st.(failure := Some(ChunkError(e)));
        return;
      case Ok(bytes) =>
        assert chunks[j..][1..] == chunks[j + 1..];
        st := st.(data := st.data + bytes);
        store.files := store.files[chunkPath := st.data];
        j := j + 1;
    }
  }

  /** Read the whole payload into the chunk file. */
  method ReadPayload(store: FileStore, chunkPath: Path, items: seq<Item>) returns (st: Reading)
    modifies store
    requires chunkPath in store.files && store.files[chunkPath] == []
    ensures st == Fields(Start, items)
    ensures store.files == old(store.files)[chunkPath := st.data]
  {
    st := Start;
    var i := 0;
    while i < |items|
      invariant 0 <= i <= |items|
      invariant st.failure.None?
      invariant Fields(st, items[i..]) == Fields(Start, items)
      invariant store.files == old(store.files)[chunkPath := st.data]
    {
      match items[i]
      case FieldFailed(e) =>
        st := st.(failure := Some(FieldError(e)));
        return;
      case Field(name, chunks) =>
        if name.None? {
          st := st.(failure := Some(NoFilename));
          return;
        }
        assert items[i..][1..] == items[i + 1..];
        st := WriteField(store, chunkPath, st.data, name.value, chunks);
        if st.failure.Some? {
          return;
        }
        i := i + 1;
    }
  }

  /** Concatenate the existing chunks 0 .. total - 1 into the final file. */
  method Reassemble(store: FileStore, uploadId: string, total: nat, finalPath: Path)
    modifies store
    requires forall i :: finalPath != ChunkPath(uploadId, i)
    ensures store.files == old(store.files)[finalPath := Reassembled(old(store.files), uploadId, total)]
  {
    ghost var before := store.files;
    store.files := store.files[finalPath := []];
    var i := 0;
    while i < total
      invariant 0 <= i <= total
      invariant store.files == before[finalPath := Reassembled(before, uploadId, i)]
    {
      var chunkPath := ChunkPath(uploadId, i);
      assert finalPath != chunkPath;
      assert (chunkPath in store.files) == (chunkPath in before);
      assert Reassembled(before, uploadId, i + 1)
          == Reassembled(before, uploadId, i) + (if chunkPath in before then before[chunkPath] else []);
      if chunkPath in store.files {
        assert store.files[chunkPath] == before[chunkPath];
        var buffer := store.files[chunkPath];
        store.files := store.files[finalPath := store.files[finalPath] + buffer];
      } else {
        assert Reassembled(before, uploadId, i) + [] == Reassembled(before, uploadId, i);
      }
      assert store.files == before[finalPath := Reassembled(before, uploadId, i + 1)];
      i := i + 1;
    }
  }

  /** `upload_chunk`, step by step on the store. */
  method UploadChunk(store: FileStore, params: map<string, string>, items: seq<Item>) returns (outcome: Outcome)
    modifies store
    ensures Step(outcome, store.files) == UploadChunkResult(old(store.files), params, items)
  {
    var query := ParseQuery(params);
    if query.Err? {
      return Panicked(query.error);
    }
    var q := query.value;
    var chunkPath := ChunkPath(q.uploadId, q.index);
    if chunkPath in store.files {
      return Responded(Response(200, AlreadyUploaded));
    }
    store.files := store.files[chunkPath := []];
    var st := ReadPayload(store, chunkPath, items);
    assert store.files == old(store.files)[chunkPath := st.data];
    if st.failure.Some? {
      return AfterReading(st);
    }
    var ext := ExtensionOf(st.filename);
    if q.total == 0 {
      return Panicked(SubtractOverflow);
    }
    if q.index == q.total - 1 {
      var finalPath := FinalPath(q.uploadId, ext);
      forall i: nat
        ensures finalPath != ChunkPath(q.uploadId, i)
      {
        FinalPathNotChunk(q.uploadId, ext, q.uploadId, i);
      }
      Reassemble(store, q.uploadId, q.total, finalPath);
      CleanupTempFiles(store, q.uploadId, q.total);
      return Responded(Response(200, Reassembled200));
    }
    return Responded(Response(200, Uploaded200));
  }

  /** A chunk that is already on disk is answered at once and nothing changes, even for the last index. */
  lemma ExistingChunkUntouched(files: Files, params: map<string, string>, items: seq<Item>)
    requires ParseQuery(params).Ok?
    requires ChunkPath(ParseQuery(params).value.uploadId, ParseQuery(params).value.index) in files
    ensures UploadChunkResult(files, params, items) == Step(Responded(Response(200, AlreadyUploaded)), files)
  {
  }

  /**
   * A chunk other than the last, once uploaded, is answered "Chunk already
   * uploaded." when sent again with any payload, and nothing changes (for
   * the last chunk see `LastRetryReassemblesAgain`).
   */
  lemma UploadIdempotent(files: Files, params: map<string, string>, items: seq<Item>, again: seq<Item>)
    requires UploadChunkResult(files, params, items).outcome == Responded(Response(200, Uploaded200))
    ensures var after := UploadChunkResult(files, params, items).files;
      UploadChunkResult(after, params, again) == Step(Responded(Response(200, AlreadyUploaded)), after)
  {
  }

  predicate ChunksOk(chunks: seq<Result<seq<byte>, string>>)
  {
    forall j :: 0 <= j < |chunks| ==> chunks[j].Ok?
  }

  /** A payload that reads without error: every field names a file and every chunk arrives. */
  predicate WellFormed(items: seq<Item>)
  {
    forall i :: 0 <= i < |items| ==> items[i].Field? && items[i].filename.Some? && ChunksOk(items[i].chunks)
  }

  function ChunkData(chunks: seq<Result<seq<byte>, string>>): seq<byte>
    requires ChunksOk(chunks)
  {
    if chunks == [] then [] else chunks[0].value + ChunkData(chunks[1..])
  }

  /** All the bytes of a payload, field after field and chunk after chunk. */
  function PayloadData(items: seq<Item>): seq<byte>
    requires WellFormed(items)
  {
    if items == [] then [] else ChunkData(items[0].chunks) + PayloadData(items[1..])
  }

  lemma {:induction false} ChunksAppendAll(acc: seq<byte>, name: string, chunks: seq<Result<seq<byte>, string>>)
    requires ChunksOk(chunks)
    ensures Chunks(Reading(acc, name, None), chunks) == Reading(acc + ChunkData(chunks), name, None)
    decreases |chunks|
  {
    if chunks == [] {
      assert acc + [] == acc;
    } else {
      assert ChunksOk(chunks[1..]);
      ChunksAppendAll(acc + chunks[0].value, name, chunks[1..]);
      assert acc + chunks[0].value + ChunkData(chunks[1..]) == acc + (chunks[0].value + ChunkData(chunks[1..]));
    }
  }

  lemma {:induction false} FieldsAppendAll(acc: seq<byte>, name: string, items: seq<Item>)
    requires WellFormed(items)
    ensures Fields(Reading(acc, name, None), items)
         == Reading(acc + PayloadData(items), if items == [] then name else items[|items| - 1].filename.value, None)
    decreases |items|
  {
    if items == [] {
      assert acc + [] == acc;
    } else {
      var f := items[0];
      assert WellFormed(items[1..]);
      ChunksAppendAll(acc, f.filename.value, f.chunks);
      FieldsAppendAll(acc + ChunkData(f.chunks), f.filename.value, items[1..]);
      assert acc + ChunkData(f.chunks) + PayloadData(items[1..]) == acc + (ChunkData(f.chunks) + PayloadData(items[1..]));
      if items[1..] != [] {
        assert items[1..][|items[1..]| - 1] == items[|items| - 1];
      }
    }
  }

  /**
   * A well-formed payload is written whole: the chunk file holds every
   * field's data in arrival order, and the extension comes from the last
   * field's file name.
   */
  lemma ReadWellFormed(items: seq<Item>)
    requires WellFormed(items)
    ensures Fields(Start, items)
         == Reading(PayloadData(items), if items == [] then "" else items[|items| - 1].filename.value, None)
  {
    FieldsAppendAll([], "", items);
    assert [] + PayloadData(items) == PayloadData(items);
  }

  /** A chunk that is not the last adds its own temporary file and nothing else. */
  lemma NonLastChunkAddsOnlyItself(files: Files, params: map<string, string>, items: seq<Item>)
    requires ParseQuery(params).Ok?
    requires var q := ParseQuery(params).value; ChunkPath(q.uploadId, q.index) !in files && q.index + 1 != q.total
    requires WellFormed(items)
    ensures var q := ParseQuery(params).value;
      UploadChunkResult(files, params, items)
      == (if q.total == 0 then Step(Panicked(SubtractOverflow), files[ChunkPath(q.uploadId, q.index) := PayloadData(items)])
          else Step(Responded(Response(200, Uploaded200)), files[ChunkPath(q.uploadId, q.index) := PayloadData(items)]))
  {
    ReadWellFormed(items);
  }

  function Concat(parts: seq<seq<byte>>): seq<byte>
  {
    if parts == [] then [] else Concat(parts[..|parts| - 1]) + parts[|parts| - 1]
  }

  /** With every chunk present, reassembly is the chunks' concatenation in index order. */
  lemma {:induction false} ReassembledInOrder(files: Files, uploadId: string, parts: seq<seq<byte>>)
    requires forall i :: 0 <= i < |parts| ==>
      ChunkPath(uploadId, i) in files && files[ChunkPath(uploadId, i)] == parts[i]
    ensures Reassembled(files, uploadId, |parts|) == Concat(parts)
    decreases |parts|
  {
    if parts != [] {
      var front := parts[..|parts| - 1];
      assert forall i :: 0 <= i < |front| ==> front[i] == parts[i];
      ReassembledInOrder(files, uploadId, front);
    }
  }

  /**
   * The last chunk writes "uploads/{uploadId}.{ext}" with the reassembled
   * chunks, removes every temporary chunk 0 .. total - 1 (its own
   * included) and leaves every other path as it was.
   */
  lemma LastChunkReassembles(files: Files, params: map<string, string>, items: seq<Item>, other: Path)
    requires ParseQuery(params).Ok?
    requires var q := ParseQuery(params).value; ChunkPath(q.uploadId, q.index) !in files && q.index + 1 == q.total
    requires WellFormed(items)
    ensures var q := ParseQuery(params).value;
      var ext := ExtensionOf(Fields(Start, items).filename);
      var written := files[ChunkPath(q.uploadId, q.index) := PayloadData(items)];
      var r := UploadChunkResult(files, params, items);
      r.outcome == Responded(Response(200, Reassembled200))
      && FinalPath(q.uploadId, ext) in r.files
      && r.files[FinalPath(q.uploadId, ext)] == Reassembled(written, q.uploadId, q.total)
      && (forall i :: 0 <= i < q.total ==> ChunkPath(q.uploadId, i) !in r.files)
      && (other != FinalPath(q.uploadId, ext) && other !in ChunkPaths(q.uploadId, q.total) ==>
            (other in r.files <==> other in files) && (other in files ==> r.files[other] == files[other]))
  {
    ReadWellFormed(items);
    var q := ParseQuery(params).value;
    var st := Fields(Start, items);
    var fp := FinalPath(q.uploadId, ExtensionOf(st.filename));
    var written := files[ChunkPath(q.uploadId, q.index) := st.data];
    var assembled := written[fp := Reassembled(written, q.uploadId, q.total)];
    assert UploadChunkResult(files, params, items)
        == Step(Responded(Response(200, Reassembled200)), assembled - ChunkPaths(q.uploadId, q.total));
    assert fp !in ChunkPaths(q.uploadId, q.total) by {
      forall i: nat ensures fp != ChunkPath(q.uploadId, i) {
        FinalPathNotChunk(q.uploadId, ExtensionOf(st.filename), q.uploadId, i);
      }
    }
    assert ChunkPath(q.uploadId, q.index) in ChunkPaths(q.uploadId, q.total);
    forall i | 0 <= i < q.total ensures ChunkPath(q.uploadId, i) in ChunkPaths(q.uploadId, q.total) {
    }
  }

  /** Cleaning up one upload never deletes the path of a chunk of another, as path texts. */
  lemma CleanupSparesOtherUploads(files: Files, u: string, total: nat, v: string, j: nat)
    requires u != v && ChunkPath(v, j) in files
    ensures ChunkPath(v, j) in files - ChunkPaths(u, total)
  {
    if ChunkPath(v, j) in ChunkPaths(u, total) {
      var i :| 0 <= i < total && ChunkPath(u, i) == ChunkPath(v, j);
      ChunkPathInjective(u, i, v, j);
    }
  }

  /** The extension is what follows the name's last '.': "clip.mp4" has "mp4", "archive.tar.gz" has "gz". */
  lemma ExtensionAfterLastDot()
    ensures ExtensionOf("clip.mp4") == "mp4"
    ensures ExtensionOf("archive.tar.gz") == "gz"
  {
    LastIndexOfNone("clip.mp4", '/');
    LastIndexOfIs("clip.mp4", '.', 4);
    assert "clip.mp4"[5..] == "mp4";
    LastIndexOfNone("archive.tar.gz", '/');
    LastIndexOfIs("archive.tar.gz", '.', 11);
    assert "archive.tar.gz"[12..] == "gz";
  }

  /** Only the last path component counts: "dir/photo.png" has "png". */
  lemma ExtensionOfLastComponent()
    ensures ExtensionOf("dir/photo.png") == "png"
  {
    LastIndexOfIs("dir/photo.png", '/', 3);
    assert "dir/photo.png"[4..] == "photo.png";
    LastIndexOfNone("photo.png", '/');
    LastIndexOfIs("photo.png", '.', 5);
    assert "photo.png"[6..] == "png";
  }

  /** A name that starts with its only '.', or has none, gives the empty extension. */
  lemma NoExtension()
    ensures ExtensionOf(".bashrc") == ""
    ensures ExtensionOf("README") == ""
    ensures ExtensionOf("") == ""
  {
    LastIndexOfNone(".bashrc", '/');
    LastIndexOfIs(".bashrc", '.', 0);
    LastIndexOfNone("README", '/');
    LastIndexOfNone("README", '.');
  }

  /**
   * As written, a payload that fails part-way leaves the bytes read so far
   * in the chunk file, so every retry of that chunk is answered "Chunk
   * already uploaded." and the truncated chunk is what reassembly uses.
   */
  lemma FailedChunkBlocksRetry(files: Files, params: map<string, string>, items: seq<Item>, retry: seq<Item>)
    requires ParseQuery(params).Ok?
    requires var q := ParseQuery(params).value; ChunkPath(q.uploadId, q.index) !in files
    requires Fields(Start, items).failure.Some?
    ensures var q := ParseQuery(params).value;
      var after := UploadChunkResult(files, params, items).files;
      after == files[ChunkPath(q.uploadId, q.index) := Fields(Start, items).data]
      && UploadChunkResult(after, params, retry) == Step(Responded(Response(200, AlreadyUploaded)), after)
  {
  }

  /** A connection reset after the first byte of chunk 0: the retry is refused and byte 1 is all that is kept. */
  lemma FailedChunkExample(retry: seq<Item>)
    ensures var params := map["chunkIndex" := "0", "totalChunks" := "2", "uploadId" := "u"];
      var items := [Field(Some("a.bin"), [Ok([1 as byte]), Err("connection reset")])];
      var after := UploadChunkResult(map[], params, items);
      after.outcome == Responded(Response(500, "Error reading chunk: connection reset"))
      && after.files == map["temp/u_chunk_0" := [1 as byte]]
      && UploadChunkResult(after.files, params, retry).outcome == Responded(Response(200, AlreadyUploaded))
  {
    var params := map["chunkIndex" := "0", "totalChunks" := "2", "uploadId" := "u"];
    var items := [Field(Some("a.bin"), [Ok([1 as byte]), Err("connection reset")])];
    ExampleQuery(params);
    ExampleReading(items);
    FailedChunkBlocksRetry(map[], params, items, retry);
    var st := Fields(Start, items);
    assert UploadChunkResult(map[], params, items)
        == Step(AfterReading(st), map[][ChunkPath("u", 0) := st.data]);
  }

  lemma ExampleQuery(params: map<string, string>)
    requires params == map["chunkIndex" := "0", "totalChunks" := "2", "uploadId" := "u"]
    ensures ParseQuery(params) == Ok(Query(0, 2, "u"))
    ensures ChunkPath("u", 0) == "temp/u_chunk_0"
  {
    Text.ParseUsizeOfDecimal(0);
    Text.ParseUsizeOfDecimal(2);
    assert Text.Decimal(0) == "0" && Text.Decimal(2) == "2";
  }

  lemma ExampleReading(items: seq<Item>)
    requires items == [Field(Some("a.bin"), [Ok([1 as byte]), Err("connection reset")])]
    ensures Fields(Start, items) == Reading([1 as byte], "a.bin", Some(ChunkError("connection reset")))
  {
    var chunks := [Ok([1 as byte]), Err("connection reset")];
    assert chunks[1..] == [Err("connection reset")];
    var failed := Reading([1 as byte], "a.bin", Some(ChunkError("connection reset")));
    assert Chunks(Reading([], "a.bin", None), chunks) == failed;
    assert Fields(Start, items) == Fields(failed, items[1..]) == failed;
  }

  /** `upload_chunk` discarding the partial chunk file when reading the payload fails. */
  function UploadChunkFixedResult(files: Files, params: map<string, string>, items: seq<Item>): Step
  {
    match ParseQuery(params)
    case Err(e) => Step(Panicked(e), files)
    case Ok(q) =>
      var chunkPath := ChunkPath(q.uploadId, q.index);
      var st := Fields(Start, items);
      if chunkPath !in files && st.failure.Some? then Step(AfterReading(st), files)
      else UploadChunkResult(files, params, items)
  }

  /**
   * With the partial chunk discarded, a failed upload leaves the store as
   * it was (the first ensures; that a retry is then handled exactly as a
   * first attempt follows at once), the corrected handler is the original
   * whenever reading succeeds, and it answers as the original always does.
   */
  lemma FixedFailureAllowsRetry(files: Files, params: map<string, string>, items: seq<Item>, retry: seq<Item>)
    ensures Fields(Start, items).failure.Some? ==>
      UploadChunkFixedResult(files, params, items).files == files
      && UploadChunkFixedResult(UploadChunkFixedResult(files, params, items).files, params, retry)
         == UploadChunkFixedResult(files, params, retry)
    ensures Fields(Start, items).failure.None? ==>
      UploadChunkFixedResult(files, params, items) == UploadChunkResult(files, params, items)
    ensures UploadChunkFixedResult(files, params, items).outcome == UploadChunkResult(files, params, items).outcome
  {
  }

  /** No chunk of `uploadId` below `k` exists: reassembly up to `k` finds nothing. */
  lemma {:induction false} ReassembledNone(files: Files, uploadId: string, k: nat)
    requires forall i :: 0 <= i < k ==> ChunkPath(uploadId, i) !in files
    ensures Reassembled(files, uploadId, k) == []
  {
    if k > 0 {
      ReassembledNone(files, uploadId, k - 1);
    }
  }

  /**
   * As written, reassembly deletes every chunk, so a re-sent last chunk (a
   * client retrying after the reply was lost) is not recognised as already
   * uploaded: it is written again and reassembled from itself alone,
   * overwriting the assembled file with that one chunk.
   */
  lemma LastRetryReassemblesAgain(files: Files, params: map<string, string>, items: seq<Item>, again: seq<Item>)
    requires UploadChunkResult(files, params, items).outcome == Responded(Response(200, Reassembled200))
    requires WellFormed(again)
    ensures var q := ParseQuery(params).value;
      var after := UploadChunkResult(files, params, items).files;
      var retry := UploadChunkResult(after, params, again);
      var final := FinalPath(q.uploadId, ExtensionOf(Fields(Start, again).filename));
      retry.outcome == Responded(Response(200, Reassembled200))
      && final in retry.files && retry.files[final] == PayloadData(again)
  {
    var q := ParseQuery(params).value;
    var u, last := q.uploadId, ChunkPath(q.uploadId, q.index);
    var after := UploadChunkResult(files, params, items).files;
    assert q.total > 0 && q.index == q.total - 1 && last !in files;
    var st := Fields(Start, items);
    var written := files[last := st.data];
    var assembled := written[FinalPath(u, ExtensionOf(st.filename)) := Reassembled(written, u, q.total)];
    assert after == assembled - ChunkPaths(u, q.total);
    assert last in ChunkPaths(u, q.total);
    ReadWellFormed(again);
    var written2 := after[last := PayloadData(again)];
    forall i | 0 <= i < q.total - 1
      ensures ChunkPath(u, i) !in written2
    {
      assert ChunkPath(u, i) in ChunkPaths(u, q.total);
      if ChunkPath(u, i) == last {
        ChunkPathInjective(u, i, u, q.index);
      }
    }
    ReassembledNone(written2, u, q.total - 1);
    assert Reassembled(written2, u, q.total) == [] + PayloadData(again);
    var final := FinalPath(u, ExtensionOf(Fields(Start, again).filename));
    assert final !in ChunkPaths(u, q.total) by {
      forall i: nat ensures final != ChunkPath(u, i) {
        FinalPathNotChunk(u, ExtensionOf(Fields(Start, again).filename), u, i);
      }
    }
  }

  /**
   * The corrected handler also treats a re-sent last chunk as already
   * uploaded once the upload's final file exists (on top of discarding a
   * partial chunk on failure).
   */
  function UploadChunkCorrectedResult(files: Files, params: map<string, string>, items: seq<Item>): Step
  {
    match ParseQuery(params)
    case Err(e) => Step(Panicked(e), files)
    case Ok(q) =>
      var st := Fields(Start, items);
      if ChunkPath(q.uploadId, q.index) !in files && st.failure.None? && q.index + 1 == q.total
         && FinalPath(q.uploadId, ExtensionOf(st.filename)) in files
      then Step(Responded(Response(200, AlreadyUploaded)), files)
      else UploadChunkFixedResult(files, params, items)
  }

  /**
   * With the correction, re-sending the last chunk with the same file name
   * after a successful reassembly is answered "Chunk already uploaded." and
   * leaves the assembled file and everything else as they were.
   */
  lemma FixedLastRetryIdempotent(files: Files, params: map<string, string>, items: seq<Item>, again: seq<Item>)
    requires UploadChunkCorrectedResult(files, params, items).outcome == Responded(Response(200, Reassembled200))
    requires Fields(Start, again).failure.None? && Fields(Start, again).filename == Fields(Start, items).filename
    ensures var after := UploadChunkCorrectedResult(files, params, items).files;
      UploadChunkCorrectedResult(after, params, again) == Step(Responded(Response(200, AlreadyUploaded)), after)
  {
    var q := ParseQuery(params).value;
    var u := q.uploadId;
    var st := Fields(Start, items);
    assert UploadChunkCorrectedResult(files, params, items) == UploadChunkResult(files, params, items);
    var written := files[ChunkPath(u, q.index) := st.data];
    var final := FinalPath(u, ExtensionOf(st.filename));
    var assembled := written[final := Reassembled(written, u, q.total)];
    assert UploadChunkResult(files, params, items).files == assembled - ChunkPaths(u, q.total);
    assert ChunkPath(u, q.index) in ChunkPaths(u, q.total);
    assert final !in ChunkPaths(u, q.total) by {
      forall i: nat ensures final != ChunkPath(u, i) {
        FinalPathNotChunk(u, ExtensionOf(st.filename), u, i);
      }
    }
  }

  /** The components of a path: the texts between its '/' separators. */
  function Components(s: string): (r: seq<string>)
    ensures |r| >= 1
  {
    if s == [] then [""]
    else
      var rest := Components(s[1..]);
      if s[0] == '/' then [""] + rest else [[s[0]] + rest[0]] + rest[1..]
  }

  /**
   * How the operating system resolves the components of a relative path,
   * symbolic links aside: empty and "." components are dropped and ".."
   * removes the component before it (or climbs above the working directory).
   */
  function Resolve(dirs: seq<string>, comps: seq<string>): seq<string>
    decreases |comps|
  {
    if comps == [] then dirs
    else
      var c := comps[0];
      var next := if c == "" || c == "." then dirs
                  else if c == ".." && dirs != [] && dirs[|dirs| - 1] != ".." then dirs[..|dirs| - 1]
                  else dirs + [c];
      Resolve(next, comps[1..])
  }

  /** The file a path relative to the working directory names. */
  function FileOf(p: Path): seq<string>
  {
    Resolve([], Components(p))
  }

  lemma {:induction false} ComponentsOfJoin(a: string, b: string)
    ensures Components(a + "/" + b) == Components(a) + Components(b)
  {
    if a != [] {
      assert (a + "/" + b)[1..] == a[1..] + "/" + b;
      ComponentsOfJoin(a[1..], b);
    }
  }

  lemma {:induction false} ComponentsNoSlash(c: string)
    requires '/' !in c
    ensures Components(c) == [c]
  {
    if c != [] {
      assert c[0] != '/' && '/' !in c[1..];
      ComponentsNoSlash(c[1..]);
      assert [c[0]] + c[1..] == c;
    }
  }

  /** The name of a chunk file inside "temp". */
  function ChunkName(uploadId: string, index: nat): string
  {
    uploadId + "_chunk_" + Text.Decimal(index)
  }

  /** An upload id that stays inside the temp directory: it contains no '/'. */
  predicate SafeUploadId(uploadId: string)
  {
    '/' !in uploadId
  }

  lemma ChunkNamePlain(u: string, i: nat)
    requires SafeUploadId(u)
    ensures '/' !in ChunkName(u, i) && |ChunkName(u, i)| >= 7
  {
    var c := ChunkName(u, i);
    forall k | 0 <= k < |c| ensures c[k] != '/' {
      if k >= |u| + 7 {
        assert c[k] == Text.Decimal(i)[k - |u| - 7];
      }
    }
  }

  /** The chunk path of a safe id names the file of that name in "temp". */
  lemma SafeChunkFile(u: string, i: nat)
    requires SafeUploadId(u)
    ensures FileOf(ChunkPath(u, i)) == ["temp", ChunkName(u, i)]
  {
    var c := ChunkName(u, i);
    ChunkNamePlain(u, i);
    assert ChunkPath(u, i) == "temp" + "/" + c;
    ComponentsOfJoin("temp", c);
    ComponentsNoSlash("temp");
    ComponentsNoSlash(c);
    ResolveStep([], "temp", [c]);
    ResolveStep(["temp"], c, []);
  }

  /**
   * As written, the upload id goes into the paths unchecked. For any upload
   * "v", the id "../temp/v" gives chunk paths that differ from "v"'s as
   * texts but name the same files, so its cleanup deletes "v"'s chunks.
   */
  lemma TraversalAliasesChunk(v: string, i: nat)
    requires SafeUploadId(v)
    ensures ChunkPath("../temp/" + v, i) != ChunkPath(v, i)
    ensures FileOf(ChunkPath("../temp/" + v, i)) == FileOf(ChunkPath(v, i))
  {
    var c := ChunkName(v, i);
    ChunkNamePlain(v, i);
    assert |ChunkPath("../temp/" + v, i)| == |ChunkPath(v, i)| + 8;
    assert ChunkPath("../temp/" + v, i) == "temp" + "/" + (".." + "/" + ("temp" + "/" + c));
    ComponentsNoSlash("temp");
    ComponentsNoSlash("..");
    ComponentsNoSlash(c);
    ComponentsOfJoin("temp", c);
    ComponentsOfJoin("..", "temp" + "/" + c);
    ComponentsOfJoin("temp", ".." + "/" + ("temp" + "/" + c));
    assert Components(ChunkPath("../temp/" + v, i)) == ["temp"] + (["..", "temp"] + [c]);
    assert c != "" && c != "." && c != "..";
    calc {
      FileOf(ChunkPath("../temp/" + v, i));
      Resolve([], Components(ChunkPath("../temp/" + v, i)));
      { assert ["..", "temp"] + [c] == ["..", "temp", c]; }
      Resolve([], ["temp"] + ["..", "temp", c]);
      { ResolveStep([], "temp", ["..", "temp", c]); }
      Resolve(["temp"], [".."] + ["temp", c]);
      { ResolveStep(["temp"], "..", ["temp", c]); }
      Resolve([], ["temp"] + [c]);
      { ResolveStep([], "temp", [c]); }
      Resolve(["temp"], [c] + []);
      { ResolveStep(["temp"], c, []); }
      ["temp", c];
      { SafeChunkFile(v, i); }
      FileOf(ChunkPath(v, i));
    }
  }

  /** As written, the id "../../x" puts its chunks outside the working directory. */
  lemma TraversalEscapesTemp(x: string, i: nat)
    requires SafeUploadId(x)
    ensures FileOf(ChunkPath("../../" + x, i)) == ["..", ChunkName(x, i)]
  {
    var c := ChunkName(x, i);
    ChunkNamePlain(x, i);
    assert ChunkPath("../../" + x, i) == "temp" + "/" + (".." + "/" + (".." + "/" + c));
    ComponentsNoSlash("temp");
    ComponentsNoSlash("..");
    ComponentsNoSlash(c);
    ComponentsOfJoin("..", c);
    ComponentsOfJoin("..", ".." + "/" + c);
    ComponentsOfJoin("temp", ".." + "/" + (".." + "/" + c));
    assert Components(ChunkPath("../../" + x, i)) == ["temp"] + ([".."] + ([".."] + [c]));
    assert c != "" && c != "." && c != "..";
    calc {
      FileOf(ChunkPath("../../" + x, i));
      Resolve([], Components(ChunkPath("../../" + x, i)));
      { assert [".."] + ([".."] + [c]) == ["..", "..", c]; }
      Resolve([], ["temp"] + ["..", "..", c]);
      { ResolveStep([], "temp", ["..", "..", c]); }
      Resolve(["temp"], [".."] + ["..", c]);
      { ResolveStep(["temp"], "..", ["..", c]); }
      Resolve([], [".."] + [c]);
      { ResolveStep([], "..", [c]); }
      Resolve([".."], [c] + []);
      { ResolveStep([".."], c, []); }
      ["..", c];
    }
  }

  /** One step of resolution. */
  lemma ResolveStep(dirs: seq<string>, c: string, rest: seq<string>)
    ensures Resolve(dirs, [c] + rest)
         == Resolve(if c == "" || c == "." then dirs
                    else if c == ".." && dirs != [] && dirs[|dirs| - 1] != ".." then dirs[..|dirs| - 1]
                    else dirs + [c], rest)
  {
    assert ([c] + rest)[1..] == rest;
  }

  /**
   * Corrected: with upload ids checked to be safe, different chunks name
   * different files, not only different path texts.
   */
  lemma SafeChunkFilesDistinct(u1: string, i1: nat, u2: string, i2: nat)
    requires SafeUploadId(u1) && SafeUploadId(u2)
    requires FileOf(ChunkPath(u1, i1)) == FileOf(ChunkPath(u2, i2))
    ensures u1 == u2 && i1 == i2
  {
    SafeChunkFile(u1, i1);
    SafeChunkFile(u2, i2);
    assert ChunkName(u1, i1) == ChunkName(u2, i2);
    assert ChunkPath(u1, i1) == "temp/" + ChunkName(u1, i1);
    assert ChunkPath(u2, i2) == "temp/" + ChunkName(u2, i2);
    ChunkPathInjective(u1, i1, u2, i2);
  }

  /** Corrected: cleaning up a safe upload never deletes the file of another safe upload's chunk. */
  lemma SafeCleanupSparesOtherUploads(u: string, total: nat, v: string, j: nat)
    requires SafeUploadId(u) && SafeUploadId(v) && u != v
    ensures forall p :: p in ChunkPaths(u, total) ==> FileOf(p) != FileOf(ChunkPath(v, j))
  {
    forall p | p in ChunkPaths(u, total)
      ensures FileOf(p) != FileOf(ChunkPath(v, j))
    {
      var i :| 0 <= i < total && p == ChunkPath(u, i);
      if FileOf(p) == FileOf(ChunkPath(v, j)) {
        SafeChunkFilesDistinct(u, i, v, j);
      }
    }
  }
}
