/** What a purge removes, keeps and counts, also when it is repeated or cut off. */
module RetentionProperties {
  import opened Retention
  import opened Wrappers

  /** Exactly the rows strictly older than their cutoff go, with what belongs to them; chat sessions all stay. */
  lemma {:induction false} OnlyExpiredRowsGo(db: Db, c: Cutoffs)
    requires ForeignKeys(db)
    ensures var p := Purged(db, c);
            && (forall i :: i in db.images ==> (i in p.images <==> db.images[i].createdAt >= c.inspections))
            && (forall r :: r in db.reports ==> (r in p.reports <==> db.reports[r].createdAt >= c.reports))
            && (forall e :: e in db.exports ==> (e in p.exports <==> db.exports[e].createdAt >= c.exports))
            && (forall d :: d in db.detections ==> (d in p.detections <==> db.detections[d] in p.images))
            && (forall a :: a in db.analyses ==> (a in p.analyses <==> db.analyses[a] in p.images))
            && (forall r :: r in db.reviews ==> (r in p.reviews <==> db.reviews[r] in p.analyses))
            && p.sessions.Keys == db.sessions.Keys
            && (forall s :: s in db.sessions && p.sessions[s] != db.sessions[s] ==>
                  p.sessions[s].None? && db.sessions[s].value !in p.analyses)
  {
  }

  /** At most a number of days ago, in microseconds. */
  predicate Within(now: int, at: int, days: nat) { now - at <= days * 86_400_000_000 }

  /** Rows are kept up to and including their retention period; reports and exports may have their own. */
  lemma {:induction false} KeptExactlyWithinRetention(db: Db, now: int, days: nat, reportDays: Option<nat>,
                                                      exportDays: Option<nat>)
    requires ForeignKeys(db)
    ensures var p := Purged(db, CutoffsAt(now, days, reportDays, exportDays));
            && (forall i :: i in db.images ==> (i in p.images <==> Within(now, db.images[i].createdAt, days)))
            && (forall r :: r in db.reports ==> (r in p.reports <==>
                  Within(now, db.reports[r].createdAt, if reportDays.Some? then reportDays.value else days)))
            && (forall e :: e in db.exports ==> (e in p.exports <==>
                  Within(now, db.exports[e].createdAt, if exportDays.Some? then exportDays.value else days)))
  {
    OnlyExpiredRowsGo(db, CutoffsAt(now, days, reportDays, exportDays));
    hide Purged;
  }

  lemma SizeAfterRemoval<V>(m: map<nat, V>, gone: set<nat>)
    requires gone <= m.Keys
    ensures |m - gone| == |m| - |gone|
  {
    assert (m - gone).Keys == m.Keys - gone;
    assert |(m - gone).Keys| == |m - gone| && |m.Keys| == |m|;
  }

  lemma PointingAreThere(rows: map<nat, nat>, targets: set<nat>)
    ensures Pointing(rows, targets) <= rows.Keys
  {
  }

  /** The dry run's counts are the numbers of rows a real run on the same data and clock removes. */
  lemma {:induction false} PreviewCountsWhatGoes(db: Db, c: Cutoffs)
    ensures var p := Purged(db, c);
            Preview(db, c)
              == Counts(|db.images| - |p.images|, |db.detections| - |p.detections|, |db.analyses| - |p.analyses|,
                        |db.reports| - |p.reports|, |db.exports| - |p.exports|)
  {
    hide ExpiredImages, ExpiredReports, ExpiredExports, Pointing;
    var images := ExpiredImages(db, c);
    ExpiredAreThere(db, c);
    PointingAreThere(db.detections, images);
    PointingAreThere(db.analyses, images);
    SizeAfterRemoval(db.images, images);
    SizeAfterRemoval(db.detections, Pointing(db.detections, images));
    SizeAfterRemoval(db.analyses, Pointing(db.analyses, images));
    SizeAfterRemoval(db.reports, ExpiredReports(db, c));
    SizeAfterRemoval(db.exports, ExpiredExports(db, c));
  }

  /** A second purge with cutoffs no later than the first's finds nothing, in the tables or on disk. */
  lemma {:induction false} SecondPurgeFindsNothing(db: Db, c: Cutoffs, again: Cutoffs, resolve: string -> Path,
                                                   root: Path)
    requires ForeignKeys(db)
    requires again.inspections <= c.inspections && again.reports <= c.reports && again.exports <= c.exports
    ensures Purged(Purged(db, c), again) == Purged(db, c)
    ensures Preview(Purged(db, c), again) == Counts(0, 0, 0, 0, 0)
    ensures Targets(Purged(db, c), again, resolve, root) == {}
  {
    hide Without, Detached, ImageTargets, ArtifactTargets, ForeignKeys, ExpiredImages, ExpiredReports, ExpiredExports;
    var p := Purged(db, c);
    NothingExpired(db, c, again);
    assert Pointing(p.analyses, {}) == {} && Pointing(p.detections, {}) == {};
    NothingDetached(p);
    WithoutNothing(p);
    NoTargets(p, resolve, root);
    NoArtifactTargets(p.reports, resolve, root);
    NoArtifactTargets(p.exports, resolve, root);
  }

  lemma NothingExpired(db: Db, c: Cutoffs, again: Cutoffs)
    requires again.inspections <= c.inspections && again.reports <= c.reports && again.exports <= c.exports
    ensures var p := Purged(db, c);
            ExpiredImages(p, again) == {} && ExpiredReports(p, again) == {} && ExpiredExports(p, again) == {}
  {
  }

  predicate NoEarlier(c: Cutoffs, d: Cutoffs) {
    c.inspections <= d.inspections && c.reports <= d.reports && c.exports <= d.exports
  }

  lemma ExpiredLater(db: Db, c: Cutoffs, d: Cutoffs)
    requires NoEarlier(c, d)
    ensures var p := Purged(db, c);
            && ExpiredImages(db, c) + ExpiredImages(p, d) == ExpiredImages(db, d)
            && ExpiredImages(db, c) !! ExpiredImages(p, d)
            && ExpiredReports(db, c) + ExpiredReports(p, d) == ExpiredReports(db, d)
            && ExpiredReports(db, c) !! ExpiredReports(p, d)
            && ExpiredExports(db, c) + ExpiredExports(p, d) == ExpiredExports(db, d)
            && ExpiredExports(db, c) !! ExpiredExports(p, d)
  {
  }

  /** What points to a set of images splits into what a purge of some of them takes and what it leaves. */
  lemma PointingSplits(rows: map<nat, nat>, gone: set<nat>, more: set<nat>)
    requires gone !! more
    ensures Pointing(rows, gone) + Pointing(rows - Pointing(rows, gone), more) == Pointing(rows, gone + more)
    ensures Pointing(rows, gone) !! Pointing(rows - Pointing(rows, gone), more)
  {
  }

  lemma RemovedTwice<V>(m: map<nat, V>, gone: set<nat>, more: set<nat>)
    ensures m - gone - more == m - (gone + more)
  {
  }

  /** The repeat a day later: purging with one set of cutoffs and then with later ones leaves what purging once with
      the later ones would have, so a purge that was already run makes no difference. */
  lemma {:induction false} LaterPurgeAbsorbsEarlier(db: Db, c: Cutoffs, d: Cutoffs)
    requires NoEarlier(c, d)
    ensures Purged(Purged(db, c), d) == Purged(db, d)
  {
    hide ExpiredImages, ExpiredReports, ExpiredExports, Pointing;
    ExpiredLater(db, c, d);
    var p := Purged(db, c);
    var gone, more := ExpiredImages(db, c), ExpiredImages(p, d);
    PointingSplits(db.detections, gone, more);
    PointingSplits(db.dispositions, gone, more);
    PointingSplits(db.analyses, gone, more);
    PointingSplits(db.reviews, Pointing(db.analyses, gone), Pointing(p.analyses, more));
    RemovedTwice(db.images, gone, more);
    RemovedTwice(db.detections, Pointing(db.detections, gone), Pointing(p.detections, more));
    RemovedTwice(db.dispositions, Pointing(db.dispositions, gone), Pointing(p.dispositions, more));
    RemovedTwice(db.analyses, Pointing(db.analyses, gone), Pointing(p.analyses, more));
    RemovedTwice(db.reviews, Pointing(db.reviews, Pointing(db.analyses, gone)),
                 Pointing(p.reviews, Pointing(p.analyses, more)));
    RemovedTwice(db.reports, ExpiredReports(db, c), ExpiredReports(p, d));
    RemovedTwice(db.exports, ExpiredExports(db, c), ExpiredExports(p, d));
    assert Purged(p, d).sessions == Purged(db, d).sessions;
  }

  /** And its counts are exactly what expired in between. */
  lemma {:induction false} LaterPreviewCountsTheRest(db: Db, c: Cutoffs, d: Cutoffs)
    requires NoEarlier(c, d)
    ensures var first, rest, all := Preview(db, c), Preview(Purged(db, c), d), Preview(db, d);
            && all.images == first.images + rest.images && all.detections == first.detections + rest.detections
            && all.analyses == first.analyses + rest.analyses
            && all.reports == first.reports + rest.reports && all.exports == first.exports + rest.exports
  {
    hide ExpiredImages, ExpiredReports, ExpiredExports, Pointing;
    ExpiredLater(db, c, d);
    var p := Purged(db, c);
    PointingSplits(db.detections, ExpiredImages(db, c), ExpiredImages(p, d));
    PointingSplits(db.analyses, ExpiredImages(db, c), ExpiredImages(p, d));
  }

  /** Nothing under the watch root is ever a target, whatever paths the rows recorded. */
  lemma {:induction false} WatchRootIsSafe(db: Db, c: Cutoffs, resolve: string -> Path, root: Path, p: Path)
    requires root <= p
    ensures p !in Targets(db, c, resolve, root)
  {
  }

  // ---- purges that are cut off ----

  datatype Attempt = Attempt(cutoffs: Cutoffs, progress: Progress)

  /** The files left after some purges of the same data, none of which reached its commit. */
  function FilesAfter(files: set<Path>, db: Db, attempts: seq<Attempt>, resolve: string -> Path,
                      root: Path): set<Path>
  {
    if attempts == [] then files
    else
      var n := |attempts| - 1;
      FilesAfter(files, db, attempts[..n], resolve, root) - Attempted(db, attempts[n].progress, resolve, root)
  }

  /** A later purge tries to remove every file an earlier one can have tried to. */
  lemma LaterTargetsCover(db: Db, a: Attempt, d: Cutoffs, resolve: string -> Path, root: Path)
    requires Reachable(db, a.cutoffs, a.progress) && NoEarlier(a.cutoffs, d)
    ensures Attempted(db, a.progress, resolve, root) <= Targets(db, d, resolve, root)
  {
    hide Target;
  }

  /** However many purges were cut off, and wherever, the next that commits, at a clock not before theirs, leaves the
      tables and the files one purge would have left. Its audited number of files is short by exactly the files the
      others had already removed, so it is right if and only if they had removed none. */
  lemma {:induction false} CutOffPurgesAreAbsorbed(
      db: Db, files: set<Path>, attempts: seq<Attempt>, d: Cutoffs, resolve: string -> Path, root: Path)
    requires forall i :: 0 <= i < |attempts| ==>
               Reachable(db, attempts[i].cutoffs, attempts[i].progress) && NoEarlier(attempts[i].cutoffs, d)
    ensures var left, targets := FilesAfter(files, db, attempts, resolve, root), Targets(db, d, resolve, root);
            && left <= files && left - targets == files - targets
            && (|left| - |left - targets|) + (|files| - |left|) == |files| - |files - targets|
            && (|left| - |left - targets| == |files| - |files - targets| <==> left == files)
  {
    hide Targets, Attempted, Reachable, NoEarlier;
    if attempts != [] {
      var n := |attempts| - 1;
      CutOffPurgesAreAbsorbed(db, files, attempts[..n], d, resolve, root);
      LaterTargetsCover(db, attempts[n], d, resolve, root);
    }
    var left := FilesAfter(files, db, attempts, resolve, root);
    SameSize(left, files);
  }

  /** Not so when the retention period was lengthened in between: an image that no longer is to go has lost its file. */
  lemma {:induction false} LongerRetentionKeepsRowsWithoutFiles(
      db: Db, files: set<Path>, c: Cutoffs, d: Cutoffs, i: nat, resolve: string -> Path, root: Path)
    requires i in db.images && d.inspections <= db.images[i].createdAt < c.inspections
    ensures var attempt := Attempt(c, Progress({i}, {}, {}));
            && Reachable(db, c, attempt.progress)
            && Target(db.images[i].annotatedPath, resolve, root) !! FilesAfter(files, db, [attempt], resolve, root)
            && i in Purged(db, d).images && Purged(db, d).images[i] == db.images[i]
  {
    var attempt := Attempt(c, Progress({i}, {}, {}));
    ImageTargetsGrow(db, {}, i, resolve, root);
    assert {} + {i} == {i} && [attempt][..0] == [];
  }

  lemma SameSize<T>(a: set<T>, b: set<T>)
    requires a <= b
    ensures |a| == |b| <==> a == b
  {
    assert b == a + (b - a);
  }

  // ---- which files a purge is after ----

  /** The path is recorded, and resolves to `p` outside the watch root. */
  predicate Records(path: Option<string>, resolve: string -> Path, root: Path, p: Path) {
    path.Some? && path.value != "" && resolve(path.value) == p && !(root <= p)
  }

  /** A purge tries to remove exactly the files outside the watch root that its expired rows record: annotated images,
      reports and exports. Originals are never among them unless recorded as such. */
  lemma {:induction false} TargetsExactly(db: Db, c: Cutoffs, resolve: string -> Path, root: Path, p: Path)
    ensures p in Targets(db, c, resolve, root) <==>
              || (exists i :: i in db.images && db.images[i].createdAt < c.inspections
                              && Records(db.images[i].annotatedPath, resolve, root, p))
              || (exists r :: r in db.reports && db.reports[r].createdAt < c.reports
                              && Records(db.reports[r].filePath, resolve, root, p))
              || (exists e :: e in db.exports && db.exports[e].createdAt < c.exports
                              && Records(db.exports[e].filePath, resolve, root, p))
  {
    ImageTargetsExactly(db, ExpiredImages(db, c), resolve, root, p);
    ArtifactTargetsExactly(db.reports, ExpiredReports(db, c), resolve, root, p);
    ArtifactTargetsExactly(db.exports, ExpiredExports(db, c), resolve, root, p);
    hide ImageTargets, ArtifactTargets, Records;
  }

  lemma ImageTargetsExactly(db: Db, images: set<nat>, resolve: string -> Path, root: Path, p: Path)
    ensures p in ImageTargets(db, images, resolve, root) <==>
              exists i :: i in images && i in db.images && Records(db.images[i].annotatedPath, resolve, root, p)
  {
    TargetIsRecorded(resolve, root, p);
    hide Target, Records;
  }

  lemma ArtifactTargetsExactly(rows: map<nat, Artifact>, ids: set<nat>, resolve: string -> Path, root: Path, p: Path)
    ensures p in ArtifactTargets(rows, ids, resolve, root) <==>
              exists r :: r in ids && r in rows && Records(rows[r].filePath, resolve, root, p)
  {
    TargetIsRecorded(resolve, root, p);
    hide Target, Records;
  }

  lemma TargetIsRecorded(resolve: string -> Path, root: Path, p: Path)
    ensures forall path :: p in Target(path, resolve, root) <==> Records(path, resolve, root, p)
  {
  }
}
