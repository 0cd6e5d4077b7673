/** Directory scans: batch and board inference, per-file ingestion, and the scan as a fixpoint. */
module Ingestion {
  import opened Counting
  import opened Wrappers

  type Path = seq<string>

  /** What reading a file gives: its checksum, and its dimensions or why it is no accepted image. */
  datatype Content = Content(checksum: string, meta: Result<(nat, nat), string>)

  datatype Node = File(content: Content) | Directory(entries: seq<Entry>)

  datatype Entry = Entry(name: string, node: Node)

  datatype Found = Found(path: Path, content: Content)

  datatype BatchBoard = BatchBoard(batchNumber: string, boardNumber: string)

  datatype Source = WatchFolder | DirectoryScan

  datatype Origin = Import | OnBoard(batch: string, board: string)

  /** An image's row as ingestion wrote it; `failure` is set on rows created FAILED, all others start QUEUED. */
  datatype ImageRow = ImageRow(origin: Origin, source: Source, path: Path, checksum: string,
                               size: Option<(nat, nat)>, failure: Option<string>)

  /** Rows get consecutive ids and are never reused. */
  datatype Db = Db(batches: set<string>, boards: set<(string, string)>, images: seq<ImageRow>)

  datatype Outcome = Ingested | Duplicate | Failed | Skipped

  datatype FileResult = FileResult(path: Path, outcome: Outcome, imageId: Option<nat>)

  datatype PathError = PathNotFound | PathNotReadable

  datatype ScanSummary = ScanSummary(discovered: nat, ingested: nat, duplicate: nat, failed: nat, skipped: nat,
                                     files: seq<FileResult>)

  // ---- naming ----

  /** Index just after the last dot, or 0. */
  function AfterLastDot(name: string): (i: nat)
    ensures i <= |name| && (i > 0 ==> name[i - 1] == '.') && '.' !in name[i..]
  {
    if name == "" then 0
    else if name[|name| - 1] == '.' then |name|
    else
      var i := AfterLastDot(name[..|name| - 1]);
      assert name[i..] == name[..|name| - 1][i..] + [name[|name| - 1]];
      i
  }

  /** A file name without its suffix; leading and trailing dots make no suffix. */
  function Stem(name: string): string {
    var i := AfterLastDot(name);
    if 1 < i < |name| then name[..i - 1] else name
  }

  lemma {:induction false} AfterLastDotOf(stem: string, suffix: string)
    requires '.' !in suffix
    ensures AfterLastDot(stem + "." + suffix) == |stem| + 1
  {
    var name := stem + "." + suffix;
    if suffix == "" {
      assert name[|name| - 1] == '.';
    } else {
      var shorter := suffix[..|suffix| - 1];
      assert name[..|name| - 1] == stem + "." + shorter;
      assert name[|name| - 1] == suffix[|suffix| - 1] && suffix[|suffix| - 1] in suffix;
      AfterLastDotOf(stem, shorter);
    }
  }

  /** A stem and a suffix come apart again, and a name that is its own stem has no such parts. */
  lemma {:induction false} StemUndoesSuffix(stem: string, suffix: string)
    requires stem != "" && suffix != "" && '.' !in suffix
    ensures Stem(stem + "." + suffix) == stem
  {
    AfterLastDotOf(stem, suffix);
    assert (stem + "." + suffix)[..|stem|] == stem;
  }

  lemma {:induction false} StemDropsOnlyASuffix(name: string)
    ensures Stem(name) == name
         || exists suffix :: suffix != "" && '.' !in suffix && Stem(name) != "" && name == Stem(name) + "." + suffix
  {
    var i := AfterLastDot(name);
    if 1 < i < |name| {
      var suffix := name[i..];
      assert name == name[..i - 1] + "." + suffix;
    }
  }

  function InferBatchAndBoard(root: Path, file: Path): Option<BatchBoard> {
    if root <= file && |file| == |root| + 2 then Some(BatchBoard(file[|root|], Stem(file[|root| + 1]))) else None
  }

  function FilesIn(dir: Path, entries: seq<Entry>): seq<Found> {
    if entries == [] then []
    else
      var last := entries[|entries| - 1];
      FilesIn(dir, entries[..|entries| - 1])
      + if last.node.File? then [Found(dir + [last.name], last.node.content)] else []
  }

  function BatchFiles(root: Path, entries: seq<Entry>): seq<Found> {
    if entries == [] then []
    else
      var last := entries[|entries| - 1];
      BatchFiles(root, entries[..|entries| - 1])
      + if last.node.Directory? then FilesIn(root + [last.name], last.node.entries) else []
  }

  /** The listings are given in the order the program sorts them into. */
  method IterBatchFiles(root: Path, entries: seq<Entry>) returns (files: seq<Found>)
    ensures files == BatchFiles(root, entries)
  {
    files := [];
    for i := 0 to |entries|
      invariant files == BatchFiles(root, entries[..i])
    {
      assert entries[..i + 1][..i] == entries[..i];
      if entries[i].node.Directory? {
        var dir, inside := root + [entries[i].name], entries[i].node.entries;
        ghost var before := files;
        for j := 0 to |inside|
          invariant files == before + FilesIn(dir, inside[..j])
        {
          assert inside[..j + 1][..j] == inside[..j];
          if inside[j].node.File? {
            files := files + [Found(dir + [inside[j].name], inside[j].node.content)];
          }
        }
        assert inside[..|inside|] == inside;
      }
    }
    assert entries[..|entries|] == entries;
  }

  lemma {:induction false} FilesInAreInside(dir: Path, entries: seq<Entry>, f: Found)
    requires f in FilesIn(dir, entries)
    ensures |f.path| == |dir| + 1 && dir <= f.path
  {
    var n := |entries| - 1;
    if f in FilesIn(dir, entries[..n]) { FilesInAreInside(dir, entries[..n], f); }
  }

  /** Every file a scan visits is one level below a batch directory, so each is given its batch and board: the scan's
      own "not under a batch subdirectory" outcome never occurs. */
  lemma {:induction false} ScannedFilesAreInferred(root: Path, entries: seq<Entry>, f: Found)
    requires f in BatchFiles(root, entries)
    ensures |f.path| == |root| + 2 && root <= f.path
    ensures InferBatchAndBoard(root, f.path) == Some(BatchBoard(f.path[|root|], Stem(f.path[|root| + 1])))
  {
    var n := |entries| - 1;
    if f in BatchFiles(root, entries[..n]) {
      ScannedFilesAreInferred(root, entries[..n], f);
    } else {
      FilesInAreInside(root + [entries[n].name], entries[n].node.entries, f);
      assert root <= root + [entries[n].name] <= f.path;
    }
  }

  // ---- one file ----

  predicate KnownPath(db: Db, path: Path) { exists i :: 0 <= i < |db.images| && db.images[i].path == path }

  predicate InBatch(row: ImageRow, batch: string) { row.origin.OnBoard? && row.origin.batch == batch }

  predicate Matches(row: ImageRow, batch: string, checksum: string) { InBatch(row, batch) && row.checksum == checksum }

  /** Some image of the batch, whatever its status, with the checksum. */
  function FindDuplicate(images: seq<ImageRow>, batch: string, checksum: string): (r: Option<nat>)
    ensures r.Some? ==> r.value < |images| && Matches(images[r.value], batch, checksum)
    ensures r.None? ==> forall i :: 0 <= i < |images| ==> !Matches(images[i], batch, checksum)
  {
    if images == [] then None
    else
      var n := |images| - 1;
      var earlier := FindDuplicate(images[..n], batch, checksum);
      if earlier.Some? then earlier else if Matches(images[n], batch, checksum) then Some(n) else None
  }

  function WithImage(db: Db, at: BatchBoard, row: ImageRow): Db {
    Db(db.batches + {at.batchNumber}, db.boards + {(at.batchNumber, at.boardNumber)}, db.images + [row])
  }

  function Visit(db: Db, root: Path, f: Found, source: Source): (Db, FileResult) {
    if KnownPath(db, f.path) then (db, FileResult(f.path, Skipped, None)) else
    var inferred := InferBatchAndBoard(root, f.path);
    if inferred.None? then (db, FileResult(f.path, Skipped, None)) else
    var at := inferred.value;
    var origin := OnBoard(at.batchNumber, at.boardNumber);
    match f.content.meta
    case Err(reason) =>
      (WithImage(db, at, ImageRow(origin, source, f.path, f.content.checksum, None, Some(reason))),
       FileResult(f.path, Failed, Some(|db.images|)))
    case Ok(size) =>
      var duplicate := FindDuplicate(db.images, at.batchNumber, f.content.checksum);
      if duplicate.Some? then (db.(batches := db.batches + {at.batchNumber}), FileResult(f.path, Duplicate, duplicate))
      else (WithImage(db, at, ImageRow(origin, source, f.path, f.content.checksum, Some(size), None)),
            FileResult(f.path, Ingested, Some(|db.images|)))
  }

  /** The database and the outcomes after visiting the files in order. */
  function Visited(db: Db, root: Path, files: seq<Found>, source: Source): (Db, seq<FileResult>) {
    if files == [] then (db, [])
    else
      var (before, results) := Visited(db, root, files[..|files| - 1], source);
      var (after, result) := Visit(before, root, files[|files| - 1], source);
      (after, results + [result])
  }

  function Is(o: Outcome): FileResult -> bool { (r: FileResult) => r.outcome == o }

  function Tally(results: seq<FileResult>, o: Outcome): nat { Count(results, Is(o)) }

  lemma TallySnoc(results: seq<FileResult>, r: FileResult, o: Outcome)
    ensures Tally(results + [r], o) == Tally(results, o) + if r.outcome == o then 1 else 0
  {
    CountSnoc(results, r, Is(o));
  }

  /** The counter over the outcomes: the four counts add up to the number of results. */
  method CountOutcomes(results: seq<FileResult>) returns (ingested: nat, duplicate: nat, failed: nat, skipped: nat)
    ensures ingested == Tally(results, Ingested) && duplicate == Tally(results, Duplicate)
    ensures failed == Tally(results, Failed) && skipped == Tally(results, Skipped)
    ensures ingested + duplicate + failed + skipped == |results|
  {
    ingested, duplicate, failed, skipped := 0, 0, 0, 0;
    for i := 0 to |results|
      invariant ingested == Tally(results[..i], Ingested) && duplicate == Tally(results[..i], Duplicate)
      invariant failed == Tally(results[..i], Failed) && skipped == Tally(results[..i], Skipped)
      invariant ingested + duplicate + failed + skipped == i
    {
      TalliesStep(results, i);
      match results[i].outcome {
        case Ingested => ingested := ingested + 1;
        case Duplicate => duplicate := duplicate + 1;
        case Failed => failed := failed + 1;
        case Skipped => skipped := skipped + 1;
      }
    }
    assert results[..|results|] == results;
  }

  lemma TalliesStep(results: seq<FileResult>, i: nat)
    requires i < |results|
    ensures forall o :: Tally(results[..i + 1], o) == Tally(results[..i], o) + if results[i].outcome == o then 1 else 0
  {
    hide Tally;
    assert results[..i + 1] == results[..i] + [results[i]];
    forall o { TallySnoc(results[..i], results[i], o); }
  }

  /** Exactly the files that are ingested or failed get a row. */
  lemma VisitAddsRow(db: Db, root: Path, f: Found, source: Source)
    ensures var (after, result) := Visit(db, root, f, source);
            |after.images| == |db.images| + if result.outcome in {Ingested, Failed} then 1 else 0
  {
  }

  lemma {:induction false} VisitedAddsRows(db: Db, root: Path, files: seq<Found>, source: Source)
    ensures var (after, results) := Visited(db, root, files, source);
            && |results| == |files|
            && |after.images| == |db.images| + Tally(results, Ingested) + Tally(results, Failed)
  {
    hide Visit;
    if files != [] {
      var n := |files| - 1;
      VisitedAddsRows(db, root, files[..n], source);
      var (before, results) := Visited(db, root, files[..n], source);
      VisitAddsRow(before, root, files[n], source);
      TallySnoc(results, Visit(before, root, files[n], source).1, Ingested);
      TallySnoc(results, Visit(before, root, files[n], source).1, Failed);
    }
  }

  class Database {
    var batches: set<string>
    var boards: set<(string, string)>
    var images: seq<ImageRow>

    function Value(): Db
      reads this
    {
      Db(batches, boards, images)
    }

    method GetOrCreateBatch(batch: string)
      modifies this`batches
      ensures batches == old(batches) + {batch}
    {
      if batch !in batches {
        batches := batches + {batch};
      }
    }

    method GetOrCreateBoard(batch: string, board: string)
      modifies this`boards
      ensures boards == old(boards) + {(batch, board)}
    {
      if (batch, board) !in boards {
        boards := boards + {(batch, board)};
      }
    }

    method IngestBatchFile(root: Path, f: Found, source: Source) returns (result: FileResult)
      modifies this
      ensures (Value(), result) == Visit(old(Value()), root, f, source)
    {
      if exists i :: 0 <= i < |images| && images[i].path == f.path {
        return FileResult(f.path, Skipped, None);
      }
      var inferred := InferBatchAndBoard(root, f.path);
      if inferred.None? {
        return FileResult(f.path, Skipped, None);
      }
      var batch, board := inferred.value.batchNumber, inferred.value.boardNumber;
      GetOrCreateBatch(batch);
      if f.content.meta.Err? {
        GetOrCreateBoard(batch, board);
        images := images
            + [ImageRow(OnBoard(batch, board), source, f.path, f.content.checksum, None, Some(f.content.meta.error))];
        return FileResult(f.path, Failed, Some(|images| - 1));
      }
      var duplicate := FindDuplicate(images, batch, f.content.checksum);
      if duplicate.Some? {
        return FileResult(f.path, Duplicate, duplicate);
      }
      GetOrCreateBoard(batch, board);
      images := images
          + [ImageRow(OnBoard(batch, board), source, f.path, f.content.checksum, Some(f.content.meta.value), None)];
      return FileResult(f.path, Ingested, Some(|images| - 1));
    }

    /** A scan of an unreadable path changes nothing; otherwise every file gets one outcome and the counts add up. */
    method ScanDirectory(root: Path, listing: Result<seq<Entry>, PathError>, source: Source)
        returns (r: Result<ScanSummary, PathError>)
      modifies this
      ensures listing.Err? ==> r == Err(listing.error) && Value() == old(Value())
      ensures listing.Ok? ==>
                var files := BatchFiles(root, listing.value);
                && r.Ok? && (Value(), r.value.files) == Visited(old(Value()), root, files, source)
                && r.value.discovered == |files|
                && r.value.ingested == Tally(r.value.files, Ingested)
                && r.value.duplicate == Tally(r.value.files, Duplicate)
                && r.value.failed == Tally(r.value.files, Failed) && r.value.skipped == Tally(r.value.files, Skipped)
                && r.value.discovered == r.value.ingested + r.value.duplicate + r.value.failed + r.value.skipped
                && r.value.ingested + r.value.failed == |images| - |old(images)|
    {
      if listing.Err? {
        return Err(listing.error);
      }
      hide Visit, Visited, Tally, BatchFiles;
      var files := IterBatchFiles(root, listing.value);
      VisitedAddsRows(Value(), root, files, source);
      var results := IngestAll(root, files, source);
      var ingested, duplicate, failed, skipped := CountOutcomes(results);
      return Ok(ScanSummary(|files|, ingested, duplicate, failed, skipped, results));
    }

    method IngestAll(root: Path, files: seq<Found>, source: Source) returns (results: seq<FileResult>)
      modifies this
      ensures (Value(), results) == Visited(old(Value()), root, files, source)
    {
      hide Visit;
      results := [];
      for i := 0 to |files|
        invariant (Value(), results) == Visited(old(Value()), root, files[..i], source)
      {
        assert files[..i + 1][..i] == files[..i];
        var result := IngestBatchFile(root, files[i], source);
        results := results + [result];
      }
      assert files[..|files|] == files;
    }
  }

  // ---- what scans keep ----

  /** Paths are unique, and an image that was ingested as good repeats no earlier checksum of its batch. */
  ghost predicate Distinct(db: Db) {
    && (forall i, j :: 0 <= i < j < |db.images| ==> db.images[i].path != db.images[j].path)
    && (forall i, j :: 0 <= i < j < |db.images| ==> Fresh(db.images, i, j))
    && (forall i :: 0 <= i < |db.images| ==> HasParents(db, db.images[i]))
  }

  predicate Fresh(images: seq<ImageRow>, i: nat, j: nat)
    requires i < j < |images|
  {
    images[j].failure.None? && images[j].origin.OnBoard? ==>
        !Matches(images[i], images[j].origin.batch, images[j].checksum)
  }

  predicate HasParents(db: Db, row: ImageRow) {
    row.origin.OnBoard? ==> row.origin.batch in db.batches && (row.origin.batch, row.origin.board) in db.boards
  }

  lemma {:induction false} VisitKeepsDistinct(db: Db, root: Path, f: Found, source: Source)
    requires Distinct(db)
    ensures Distinct(Visit(db, root, f, source).0)
  {
    var after := Visit(db, root, f, source).0;
    forall i, j | 0 <= i < j < |after.images| ensures Fresh(after.images, i, j) {
      if j < |db.images| { assert Fresh(db.images, i, j); }
    }
  }

  lemma {:induction false} ScansKeepDistinct(db: Db, root: Path, files: seq<Found>, source: Source)
    requires Distinct(db)
    ensures Distinct(Visited(db, root, files, source).0)
  {
    hide Visit, Distinct;
    if files != [] {
      var n := |files| - 1;
      ScansKeepDistinct(db, root, files[..n], source);
      VisitKeepsDistinct(Visited(db, root, files[..n], source).0, root, files[n], source);
    }
  }

  /** No two images a scan took in as good share a checksum within a batch. */
  lemma {:induction false} IngestedChecksumsDiffer(db: Db, root: Path, files: seq<Found>, source: Source, i: nat,
                                                   j: nat)
    requires Distinct(db)
    requires var images := Visited(db, root, files, source).0.images;
             && i < |images| && j < |images| && i != j
             && images[i].failure.None? && images[j].failure.None?
             && images[i].origin.OnBoard? && InBatch(images[j], images[i].origin.batch)
    ensures var images := Visited(db, root, files, source).0.images;
            images[i].checksum != images[j].checksum && images[i].path != images[j].path
    ensures var after := Visited(db, root, files, source).0;
            var origin := after.images[i].origin;
            origin.batch in after.batches && (origin.batch, origin.board) in after.boards
  {
    ScansKeepDistinct(db, root, files, source);
    var images := Visited(db, root, files, source).0.images;
    if i < j { assert Fresh(images, i, j); } else { assert Fresh(images, j, i); }
  }

  // ---- the fixpoint ----

  /** A visit has nothing left to do for the file: its path is known, or it repeats a checksum of its batch. */
  ghost predicate Settled(db: Db, root: Path, f: Found) {
    var inferred := InferBatchAndBoard(root, f.path);
    KnownPath(db, f.path) || (inferred.Some? ==>
      && f.content.meta.Ok? && inferred.value.batchNumber in db.batches
      && exists i :: 0 <= i < |db.images| && Matches(db.images[i], inferred.value.batchNumber, f.content.checksum))
  }

  predicate Grows(a: Db, b: Db) { a.batches <= b.batches && a.boards <= b.boards && a.images <= b.images }

  lemma SettledStays(a: Db, b: Db, root: Path, f: Found)
    requires Settled(a, root, f) && Grows(a, b)
    ensures Settled(b, root, f)
  {
    var inferred := InferBatchAndBoard(root, f.path);
    if KnownPath(a, f.path) {
      var i :| 0 <= i < |a.images| && a.images[i].path == f.path;
      assert b.images[i].path == f.path;
    } else if inferred.Some? {
      var i :| 0 <= i < |a.images| && Matches(a.images[i], inferred.value.batchNumber, f.content.checksum);
      assert b.images[i] == a.images[i];
    }
  }

  lemma VisitSettles(db: Db, root: Path, f: Found, source: Source)
    ensures Grows(db, Visit(db, root, f, source).0) && Settled(Visit(db, root, f, source).0, root, f)
  {
    var (after, result) := Visit(db, root, f, source);
    if |after.images| > |db.images| {
      assert after.images[|db.images|].path == f.path;
    }
  }

  /** Visiting changes nothing exactly when the file is settled. */
  lemma {:induction false} SettledExactlyWhenUnchanged(db: Db, root: Path, f: Found, source: Source)
    ensures Settled(db, root, f) <==> Visit(db, root, f, source).0 == db
  {
    if Settled(db, root, f) {
    } else {
      VisitSettles(db, root, f, source);
    }
  }

  lemma {:induction false} ScanSettlesAll(db: Db, root: Path, files: seq<Found>, source: Source)
    ensures Grows(db, Visited(db, root, files, source).0)
    ensures forall i :: 0 <= i < |files| ==> Settled(Visited(db, root, files, source).0, root, files[i])
  {
    hide Visit, Settled;
    if files != [] {
      var n := |files| - 1;
      var before, after := Visited(db, root, files[..n], source).0, Visited(db, root, files, source).0;
      ScanSettlesAll(db, root, files[..n], source);
      VisitSettles(before, root, files[n], source);
      forall i | 0 <= i < n ensures Settled(after, root, files[i]) {
        assert files[..n][i] == files[i];
        SettledStays(before, after, root, files[i]);
      }
    }
  }

  lemma {:induction false} SettledScanChangesNothing(db: Db, root: Path, files: seq<Found>, source: Source)
    requires forall i :: 0 <= i < |files| ==> Settled(db, root, files[i])
    ensures Visited(db, root, files, source).0 == db
  {
    hide Visit, Settled;
    if files != [] {
      var n := |files| - 1;
      SettledScanChangesNothing(db, root, files[..n], source);
      SettledExactlyWhenUnchanged(db, root, files[n], source);
    }
  }

  /** Scanning an unchanged directory again leaves the database as it was. */
  lemma {:induction false} ScanIsIdempotent(db: Db, root: Path, files: seq<Found>, source: Source, again: Source)
    ensures var once := Visited(db, root, files, source).0;
            Visited(once, root, files, again).0 == once
  {
    ScanSettlesAll(db, root, files, source);
    SettledScanChangesNothing(Visited(db, root, files, source).0, root, files, again);
  }

  /** Two scanned files with one good content in one batch directory: whichever comes first is ingested, the other is a
      duplicate, and its path stays unknown. */
  lemma {:induction false} CopyIsDuplicate(db: Db, root: Path, f: Found, g: Found, source: Source)
    requires InferBatchAndBoard(root, f.path).Some? && InferBatchAndBoard(root, g.path).Some?
    requires InferBatchAndBoard(root, f.path).value.batchNumber == InferBatchAndBoard(root, g.path).value.batchNumber
    requires f.path != g.path && f.content == g.content && !KnownPath(db, g.path)
    requires Visit(db, root, f, source).1.outcome == Ingested
    ensures var after := Visit(db, root, f, source).0;
            && Visit(after, root, g, source).1 == FileResult(g.path, Duplicate, Some(|db.images|))
            && !KnownPath(Visit(after, root, g, source).0, g.path)
  {
    var after := Visit(db, root, f, source).0;
    assert after.images[..|db.images|] == db.images;
    assert Matches(after.images[|db.images|], InferBatchAndBoard(root, g.path).value.batchNumber, g.content.checksum);
    FirstMatch(after.images, InferBatchAndBoard(root, g.path).value.batchNumber, g.content.checksum, |db.images|);
  }

  lemma FirstMatch(images: seq<ImageRow>, batch: string, checksum: string, i: nat)
    requires i < |images| && Matches(images[i], batch, checksum)
    requires FindDuplicate(images[..i], batch, checksum).None?
    ensures FindDuplicate(images, batch, checksum) == Some(i)
  {
    var n := |images| - 1;
    if i < n {
      assert images[..n][..i] == images[..i];
      FirstMatch(images[..n], batch, checksum, i);
    }
  }
}
