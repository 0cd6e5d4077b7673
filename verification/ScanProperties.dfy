/** Which files a scan visits, and what a visit stores. */
module ScanProperties {
  import opened Ingestion
  import opened Wrappers

  /** Where a scan finds a file: entry `j` of the directory that is entry `i` of the root. */
  datatype Place = Place(i: nat, j: nat)

  predicate Before(a: Place, b: Place) { a.i < b.i || (a.i == b.i && a.j < b.j) }

  predicate IsFileAt(root: Path, entries: seq<Entry>, at: Place, f: Found) {
    && at.i < |entries| && entries[at.i].node.Directory?
    && at.j < |entries[at.i].node.entries| && entries[at.i].node.entries[at.j].node.File?
    && f == Found(root + [entries[at.i].name] + [entries[at.i].node.entries[at.j].name],
                  entries[at.i].node.entries[at.j].node.content)
  }

  function Positions(entries: seq<Entry>): (js: seq<nat>)
    ensures forall k :: 0 <= k < |js| ==> js[k] < |entries| && entries[js[k]].node.File?
    ensures forall j :: 0 <= j < |entries| && entries[j].node.File? ==> j in js
    ensures forall k, l :: 0 <= k < l < |js| ==> js[k] < js[l]
  {
    if entries == [] then []
    else
      var n := |entries| - 1;
      var before := Positions(entries[..n]);
      assert forall j :: 0 <= j < n ==> entries[..n][j] == entries[j];
      if entries[n].node.File? then before + [n] else before
  }

  lemma {:induction false} FilesInAreTheFiles(dir: Path, entries: seq<Entry>)
    ensures |FilesIn(dir, entries)| == |Positions(entries)|
    ensures forall k :: 0 <= k < |Positions(entries)| ==>
              var e := entries[Positions(entries)[k]]; FilesIn(dir, entries)[k] == Found(dir + [e.name], e.node.content)
  {
    if entries != [] {
      var n := |entries| - 1;
      FilesInAreTheFiles(dir, entries[..n]);
      forall k | 0 <= k < |Positions(entries[..n])|
        ensures entries[..n][Positions(entries[..n])[k]] == entries[Positions(entries[..n])[k]] {}
    }
  }

  ghost predicate FilesAt(root: Path, entries: seq<Entry>, places: seq<Place>, files: seq<Found>) {
    |places| == |files| && forall k :: 0 <= k < |places| ==> IsFileAt(root, entries, places[k], files[k])
  }

  ghost predicate AllVisited(root: Path, entries: seq<Entry>, places: seq<Place>) {
    forall at, f :: IsFileAt(root, entries, at, f) ==> at in places
  }

  ghost predicate Ordered(places: seq<Place>) { forall k, l :: 0 <= k < l < |places| ==> Before(places[k], places[l]) }

  function PlacesIn(i: nat, js: seq<nat>): (places: seq<Place>)
    ensures |places| == |js| && forall k :: 0 <= k < |js| ==> places[k] == Place(i, js[k])
  {
    seq(|js|, k requires 0 <= k < |js| => Place(i, js[k]))
  }

  function Inside(e: Entry): seq<Entry> { if e.node.Directory? then e.node.entries else [] }

  lemma FilesOfOneMore(root: Path, entries: seq<Entry>, places: seq<Place>)
    requires entries != []
    requires FilesAt(root, entries[..|entries| - 1], places, BatchFiles(root, entries[..|entries| - 1]))
    ensures var n := |entries| - 1;
            FilesAt(root, entries, places + PlacesIn(n, Positions(Inside(entries[n]))), BatchFiles(root, entries))
  {
    hide Positions, BatchFiles, IsFileAt;
    var n := |entries| - 1;
    var before := BatchFiles(root, entries[..n]);
    FilesStay(root, entries, places, before);
    NewFilesAt(root, entries);
    BatchFilesStep(root, entries);
    FilesAtAppend(root, entries, places, before, PlacesIn(n, Positions(Inside(entries[n]))),
                  FilesIn(root + [entries[n].name], Inside(entries[n])));
  }

  lemma FilesAtAppend(root: Path, entries: seq<Entry>, a: seq<Place>, fs: seq<Found>, b: seq<Place>, gs: seq<Found>)
    requires FilesAt(root, entries, a, fs) && FilesAt(root, entries, b, gs)
    ensures FilesAt(root, entries, a + b, fs + gs)
  {
    hide IsFileAt;
  }

  lemma FilesStay(root: Path, entries: seq<Entry>, places: seq<Place>, files: seq<Found>)
    requires entries != [] && FilesAt(root, entries[..|entries| - 1], places, files)
    ensures FilesAt(root, entries, places, files)
  {
    forall k | 0 <= k < |places| ensures IsFileAt(root, entries, places[k], files[k]) {
      assert IsFileAt(root, entries[..|entries| - 1], places[k], files[k]);
    }
  }

  lemma NewFilesAt(root: Path, entries: seq<Entry>)
    requires entries != []
    ensures var n := |entries| - 1;
            FilesAt(root, entries, PlacesIn(n, Positions(Inside(entries[n]))),
                    FilesIn(root + [entries[n].name], Inside(entries[n])))
  {
    hide FilesIn, Positions;
    FilesInAreTheFiles(root + [entries[|entries| - 1].name], Inside(entries[|entries| - 1]));
  }

  lemma BatchFilesStep(root: Path, entries: seq<Entry>)
    requires entries != []
    ensures var n := |entries| - 1;
            BatchFiles(root, entries)
              == BatchFiles(root, entries[..n]) + FilesIn(root + [entries[n].name], Inside(entries[n]))
  {
  }

  lemma VisitedOneMore(root: Path, entries: seq<Entry>, places: seq<Place>)
    requires entries != [] && AllVisited(root, entries[..|entries| - 1], places)
    ensures var n := |entries| - 1;
            AllVisited(root, entries, places + PlacesIn(n, Positions(Inside(entries[n]))))
  {
    var n := |entries| - 1;
    var js := Positions(Inside(entries[n]));
    hide Positions;
    forall at, f | IsFileAt(root, entries, at, f) ensures at in places + PlacesIn(n, js) {
      if at.i < n {
        assert entries[..n][at.i] == entries[at.i];
        assert IsFileAt(root, entries[..n], at, f);
      } else {
        var k :| 0 <= k < |js| && js[k] == at.j;
        assert PlacesIn(n, js)[k] == at;
      }
    }
  }

  lemma OrderedOneMore(places: seq<Place>, n: nat, js: seq<nat>)
    requires Ordered(places) && forall k :: 0 <= k < |places| ==> places[k].i < n
    requires forall k, l :: 0 <= k < l < |js| ==> js[k] < js[l]
    ensures Ordered(places + PlacesIn(n, js))
  {
  }

  /** A scan visits exactly the files one level below the immediate subdirectories, each once, directory after directory
      and in each directory's order. */
  lemma {:induction false} ScanVisitsEachFileOnce(root: Path, entries: seq<Entry>) returns (places: seq<Place>)
    ensures FilesAt(root, entries, places, BatchFiles(root, entries))
    ensures AllVisited(root, entries, places) && Ordered(places)
  {
    if entries == [] {
      places := [];
    } else {
      hide BatchFiles, Positions, AllVisited, Ordered;
      var n := |entries| - 1;
      places := ScanVisitsEachFileOnce(root, entries[..n]);
      FilesOfOneMore(root, entries, places);
      VisitedOneMore(root, entries, places);
      assert forall k :: 0 <= k < |places| ==>
        IsFileAt(root, entries[..n], places[k], BatchFiles(root, entries[..n])[k]);
      OrderedOneMore(places, n, Positions(Inside(entries[n])));
      places := places + PlacesIn(n, Positions(Inside(entries[n])));
    }
  }

  /** The image is of the file's batch, and has its checksum. */
  predicate RepeatsChecksum(row: ImageRow, root: Path, f: Found) {
    && row.origin.OnBoard? && |f.path| > |root| && row.origin.batch == f.path[|root|]
    && row.checksum == f.content.checksum
  }

  /** A visit adds at most one row: of the file, in its batch and on its board, with its checksum, and either its
      dimensions or why it is no accepted image. */
  lemma {:induction false} VisitWrites(db: Db, root: Path, f: Found, source: Source)
    ensures var (after, result) := Visit(db, root, f, source);
            && result.path == f.path
            && (result.outcome.Skipped? <==>
                  || (exists i :: 0 <= i < |db.images| && db.images[i].path == f.path)
                  || !(root <= f.path && |f.path| == |root| + 2))
            && (result.outcome.Skipped? ==> after == db && result.imageId.None?)
            && (result.outcome.Duplicate? ==>
                  && after.images == db.images && after.boards == db.boards && f.content.meta.Ok?
                  && result.imageId.Some? && result.imageId.value < |db.images|
                  && RepeatsChecksum(db.images[result.imageId.value], root, f))
            && (result.outcome.Ingested? ==>
                  forall i :: 0 <= i < |db.images| ==> !RepeatsChecksum(db.images[i], root, f))
            && (result.outcome.Ingested? || result.outcome.Failed? ==>
                  && result.imageId == Some(|db.images|) && |after.images| == |db.images| + 1
                  && after.images[..|db.images|] == db.images
                  && var row := after.images[|db.images|];
                     && |f.path| == |root| + 2 && root <= f.path
                     && row.origin == OnBoard(f.path[|root|], Stem(f.path[|root| + 1]))
                     && row.source == source && row.path == f.path && row.checksum == f.content.checksum
                     && (result.outcome.Ingested? <==> f.content.meta.Ok?)
                     && (f.content.meta.Ok? ==> row.size == Some(f.content.meta.value) && row.failure.None?)
                     && (f.content.meta.Err? ==> row.size.None? && row.failure == Some(f.content.meta.error)))
  {
  }
}
