/** The retention purge: dry run, execution statement by statement against the schema's foreign keys, derived files. */
module Retention {
  import opened Wrappers

  type Path = seq<string>

  datatype Image = Image(createdAt: int, originalPath: string, annotatedPath: Option<string>)

  /** A report or a dataset export. */
  datatype Artifact = Artifact(createdAt: int, filePath: Option<string>)

  /** The tables a purge can reach; `detections`, `dispositions` and `analyses` map a row to its image, `reviews` and
      `sessions` to their analysis. */
  datatype Db = Db(
    images: map<nat, Image>,
    detections: map<nat, nat>,
    dispositions: map<nat, nat>,
    analyses: map<nat, nat>,
    reviews: map<nat, nat>,
    sessions: map<nat, Option<nat>>,
    reports: map<nat, Artifact>,
    exports: map<nat, Artifact>)

  ghost predicate ForeignKeys(db: Db) {
    && (forall d :: d in db.detections ==> db.detections[d] in db.images)
    && (forall d :: d in db.dispositions ==> db.dispositions[d] in db.images)
    && (forall a :: a in db.analyses ==> db.analyses[a] in db.images)
    && (forall r :: r in db.reviews ==> db.reviews[r] in db.analyses)
    && (forall s :: s in db.sessions && db.sessions[s].Some? ==> db.sessions[s].value in db.analyses)
  }

  /** The keys forbid deleting a row that another one points to. */
  lemma KeysProtect(db: Db, id: nat)
    ensures || (exists d :: d in db.detections && db.detections[d] == id)
            || (exists d :: d in db.dispositions && db.dispositions[d] == id)
            || (exists a :: a in db.analyses && db.analyses[a] == id)
            ==> !ForeignKeys(db.(images := db.images - {id}))
    ensures || (exists r :: r in db.reviews && db.reviews[r] == id)
            || (exists s :: s in db.sessions && db.sessions[s] == Some(id))
            ==> !ForeignKeys(db.(analyses := db.analyses - {id}))
  {
  }

  const DAY := 24 * 60 * 60 * 1_000_000

  datatype Cutoffs = Cutoffs(inspections: int, reports: int, exports: int)

  /** Reports and exports fall back to the general retention period. */
  function CutoffsAt(now: int, days: nat, reportDays: Option<nat>, exportDays: Option<nat>): Cutoffs {
    Cutoffs(now - days * DAY,
            now - (if reportDays.Some? then reportDays.value else days) * DAY,
            now - (if exportDays.Some? then exportDays.value else days) * DAY)
  }

  function ExpiredImages(db: Db, c: Cutoffs): set<nat> {
    set i | i in db.images && db.images[i].createdAt < c.inspections
  }

  function ExpiredReports(db: Db, c: Cutoffs): set<nat> {
    set r | r in db.reports && db.reports[r].createdAt < c.reports
  }

  function ExpiredExports(db: Db, c: Cutoffs): set<nat> {
    set e | e in db.exports && db.exports[e].createdAt < c.exports
  }

  function Pointing(rows: map<nat, nat>, targets: set<nat>): set<nat> { set r | r in rows && rows[r] in targets }

  datatype Counts = Counts(images: nat, detections: nat, analyses: nat, reports: nat, exports: nat)

  /** The dry run. */
  function Preview(db: Db, c: Cutoffs): Counts {
    var images := ExpiredImages(db, c);
    Counts(|images|, |Pointing(db.detections, images)|, |Pointing(db.analyses, images)|,
           |ExpiredReports(db, c)|, |ExpiredExports(db, c)|)
  }

  // ---- statements ----

  function Detached(db: Db, analyses: set<nat>): Db {
    db.(sessions := map s | s in db.sessions ::
      if db.sessions[s].Some? && db.sessions[s].value in analyses then None else db.sessions[s])
  }

  /** What is left without some analyses, images, reports and exports, and all that cascades from them. */
  function Without(db: Db, analyses: set<nat>, images: set<nat>, reports: set<nat>, exports: set<nat>): Db {
    Db(db.images - images,
       db.detections - Pointing(db.detections, images),
       db.dispositions - Pointing(db.dispositions, images),
       db.analyses - analyses,
       db.reviews - Pointing(db.reviews, analyses),
       db.sessions,
       db.reports - reports,
       db.exports - exports)
  }

  function Purged(db: Db, c: Cutoffs): Db {
    var images := ExpiredImages(db, c);
    var analyses := Pointing(db.analyses, images);
    Without(Detached(db, analyses), analyses, images, ExpiredReports(db, c), ExpiredExports(db, c))
  }

  predicate Under(root: Path, p: Path) { root <= p }

  /** The file a recorded path stands for, unless it resolves under the watch root. */
  function Target(path: Option<string>, resolve: string -> Path, root: Path): set<Path> {
    if path.None? || path.value == "" || Under(root, resolve(path.value)) then {} else {resolve(path.value)}
  }

  function ImageTargets(db: Db, images: set<nat>, resolve: string -> Path, root: Path): set<Path> {
    set i, p | i in images && i in db.images && p in Target(db.images[i].annotatedPath, resolve, root) :: p
  }

  function ArtifactTargets(rows: map<nat, Artifact>, ids: set<nat>, resolve: string -> Path, root: Path): set<Path> {
    set i, p | i in ids && i in rows && p in Target(rows[i].filePath, resolve, root) :: p
  }

  function Targets(db: Db, c: Cutoffs, resolve: string -> Path, root: Path): set<Path> {
    ImageTargets(db, ExpiredImages(db, c), resolve, root)
    + ArtifactTargets(db.reports, ExpiredReports(db, c), resolve, root)
    + ArtifactTargets(db.exports, ExpiredExports(db, c), resolve, root)
  }

  /** How far a purge got before it was cut off: the rows it had visited, images first, then reports, then exports. */
  datatype Progress = Progress(images: set<nat>, reports: set<nat>, exports: set<nat>)

  ghost predicate Reachable(db: Db, c: Cutoffs, p: Progress) {
    && p.images <= ExpiredImages(db, c) && p.reports <= ExpiredReports(db, c) && p.exports <= ExpiredExports(db, c)
    && (p.reports != {} ==> p.images == ExpiredImages(db, c))
    && (p.exports != {} ==> p.reports == ExpiredReports(db, c))
  }

  /** The files a purge cut off there has tried to remove. */
  function Attempted(db: Db, p: Progress, resolve: string -> Path, root: Path): set<Path> {
    ImageTargets(db, p.images, resolve, root)
    + ArtifactTargets(db.reports, p.reports, resolve, root)
    + ArtifactTargets(db.exports, p.exports, resolve, root)
  }

  datatype AuditEntry = AuditEntry(cutoffs: Cutoffs, counts: Counts, filesRemoved: nat)

  class Store {
    var db: Db
    var files: set<Path>
    var audit: seq<AuditEntry>

    method DetachSessions(analyses: set<nat>)
      requires ForeignKeys(db)
      modifies this`db
      ensures db == Detached(old(db), analyses) && ForeignKeys(db)
    {
      db := db.(sessions := map s | s in db.sessions ::
        if db.sessions[s].Some? && db.sessions[s].value in analyses then None else db.sessions[s]);
    }

    /** The key from chat sessions has no delete rule: the statement is refused while one points here. */
    method DeleteAnalysis(a: nat)
      requires ForeignKeys(db)
      requires a in db.analyses && forall s :: s in db.sessions ==> db.sessions[s] != Some(a)
      modifies this`db
      ensures db == Without(old(db), {a}, {}, {}, {}) && ForeignKeys(db)
    {
      db := db.(analyses := db.analyses - {a}, reviews := db.reviews - Pointing(db.reviews, {a}));
    }

    /** The key from analyses has no delete rule; detections and dispositions cascade. */
    method DeleteImage(i: nat)
      requires ForeignKeys(db)
      requires i in db.images && forall a :: a in db.analyses ==> db.analyses[a] != i
      modifies this`db
      ensures db == Without(old(db), {}, {i}, {}, {}) && ForeignKeys(db)
    {
      db := db.(images := db.images - {i}, detections := db.detections - Pointing(db.detections, {i}),
                dispositions := db.dispositions - Pointing(db.dispositions, {i}));
    }

    /** Counts a file only if it was there to remove; never touches the watch root. */
    method RemoveDerivedFile(path: Option<string>, resolve: string -> Path, root: Path) returns (removed: nat)
      modifies this`files
      ensures files == old(files) - Target(path, resolve, root)
      ensures removed == |old(files)| - |files|
    {
      if path.None? || path.value == "" {
        return 0;
      }
      var resolved := resolve(path.value);
      if resolved == root || Under(root, resolved) {
        return 0;
      }
      if resolved !in files {
        return 0;
      }
      files := files - {resolved};
      return 1;
    }

    method DeleteAnalyses(analyses: set<nat>)
      requires ForeignKeys(db) && analyses <= db.analyses.Keys
      requires forall s :: s in db.sessions && db.sessions[s].Some? ==> db.sessions[s].value !in analyses
      modifies this`db
      ensures db == Without(old(db), analyses, {}, {}, {}) && ForeignKeys(db)
    {
      var left := analyses;
      WithoutNothing(db);
      assert analyses - left == {};
      while left != {}
        invariant left <= analyses
        invariant db == Without(old(db), analyses - left, {}, {}, {}) && ForeignKeys(db)
        decreases left
      {
        var a :| a in left;
        DeleteAnalysis(a);
        WithoutTwice(old(db), analyses - left, {}, {a}, {});
        assert analyses - left + {a} == analyses - (left - {a});
        left := left - {a};
      }
      assert analyses - left == analyses;
    }

    method DeleteImages(images: set<nat>, resolve: string -> Path, root: Path) returns (removed: nat)
      requires ForeignKeys(db) && images <= db.images.Keys
      requires forall a :: a in db.analyses ==> db.analyses[a] !in images
      modifies this`db, this`files
      ensures db == Without(old(db), {}, images, {}, {}) && ForeignKeys(db)
      ensures files == old(files) - ImageTargets(old(db), images, resolve, root)
      ensures removed == |old(files)| - |files|
    {
      hide Without, ForeignKeys, ImageTargets, Target;
      var left := images;
      ghost var done: set<nat> := {};
      removed := 0;
      WithoutNothing(db);
      NoTargets(db, resolve, root);
      while left != {}
        invariant done !! left && done + left == images
        invariant db == Without(old(db), {}, done, {}, {}) && ForeignKeys(db)
        invariant files == old(files) - ImageTargets(old(db), done, resolve, root)
        invariant removed == |old(files)| - |files|
        decreases left
      {
        var i :| i in left;
        ImagesLeft(old(db), done);
        ImageTargetsGrow(old(db), done, i, resolve, root);
        WithoutOneMoreImage(old(db), done, i);
        var n := RemoveDerivedFile(db.images[i].annotatedPath, resolve, root);
        removed := removed + n;
        DeleteImage(i);
        left := left - {i};
        done := done + {i};
      }
      assert done == images;
    }

    method DeleteReports(ids: set<nat>, resolve: string -> Path, root: Path) returns (removed: nat)
      requires ids <= db.reports.Keys
      modifies this`db, this`files
      ensures db == old(db).(reports := old(db).reports - ids)
      ensures files == old(files) - ArtifactTargets(old(db).reports, ids, resolve, root)
      ensures removed == |old(files)| - |files|
    {
      hide ArtifactTargets, Target;
      var left := ids;
      ghost var done: set<nat> := {};
      removed := 0;
      NoArtifactTargets(db.reports, resolve, root);
      assert db.reports - done == db.reports;
      while left != {}
        invariant done !! left && done + left == ids
        invariant db == old(db).(reports := old(db).reports - done)
        invariant files == old(files) - ArtifactTargets(old(db).reports, done, resolve, root)
        invariant removed == |old(files)| - |files|
        decreases left
      {
        var r :| r in left;
        ArtifactTargetsGrow(old(db).reports, done, r, resolve, root);
        RemoveOneMore(old(db).reports, done, r);
        var n := RemoveDerivedFile(db.reports[r].filePath, resolve, root);
        removed := removed + n;
        db := db.(reports := db.reports - {r});
        left := left - {r};
        done := done + {r};
      }
      assert done == ids;
    }

    method DeleteExports(ids: set<nat>, resolve: string -> Path, root: Path) returns (removed: nat)
      requires ids <= db.exports.Keys
      modifies this`db, this`files
      ensures db == old(db).(exports := old(db).exports - ids)
      ensures files == old(files) - ArtifactTargets(old(db).exports, ids, resolve, root)
      ensures removed == |old(files)| - |files|
    {
      hide ArtifactTargets, Target;
      var left := ids;
      ghost var done: set<nat> := {};
      removed := 0;
      NoArtifactTargets(db.exports, resolve, root);
      assert db.exports - done == db.exports;
      while left != {}
        invariant done !! left && done + left == ids
        invariant db == old(db).(exports := old(db).exports - done)
        invariant files == old(files) - ArtifactTargets(old(db).exports, done, resolve, root)
        invariant removed == |old(files)| - |files|
        decreases left
      {
        var e :| e in left;
        ArtifactTargetsGrow(old(db).exports, done, e, resolve, root);
        RemoveOneMore(old(db).exports, done, e);
        var n := RemoveDerivedFile(db.exports[e].filePath, resolve, root);
        removed := removed + n;
        db := db.(exports := db.exports - {e});
        left := left - {e};
        done := done + {e};
      }
      assert done == ids;
    }

    method ClearAnalyses(images: set<nat>, analyses: set<nat>)
      requires ForeignKeys(db) && analyses == Pointing(db.analyses, images)
      modifies this`db
      ensures db == Without(Detached(old(db), analyses), analyses, {}, {}, {}) && ForeignKeys(db)
    {
      hide Without, ForeignKeys;
      if analyses != {} {
        DetachSessions(analyses);
        DeleteAnalyses(analyses);
      } else {
        NothingDetached(db);
        WithoutNothing(db);
      }
    }

    method DeleteInspections(images: set<nat>, analyses: set<nat>, resolve: string -> Path, root: Path)
        returns (removed: nat)
      requires ForeignKeys(db) && images <= db.images.Keys && analyses == Pointing(db.analyses, images)
      modifies this`db, this`files
      ensures db == Without(Detached(old(db), analyses), analyses, images, {}, {}) && ForeignKeys(db)
      ensures files == old(files) - ImageTargets(old(db), images, resolve, root)
      ensures removed == |old(files)| - |files|
    {
      hide Without, Detached, ImageTargets, ForeignKeys;
      ClearAnalyses(images, analyses);
      AfterAnalyses(old(db), images, analyses, images, resolve, root);
      removed := DeleteImages(images, resolve, root);
    }

    /** No statement is refused; the counts are the dry run's, and exactly the target files are gone. */
    method ExecutePurge(c: Cutoffs, resolve: string -> Path, root: Path) returns (counts: Counts, filesRemoved: nat)
      requires ForeignKeys(db)
      modifies this
      ensures db == Purged(old(db), c) && ForeignKeys(db)
      ensures files == old(files) - Targets(old(db), c, resolve, root)
      ensures counts == Preview(old(db), c)
      ensures filesRemoved == |old(files)| - |files|
      ensures audit == old(audit) + [AuditEntry(c, counts, filesRemoved)]
    {
      hide Without, Detached, ImageTargets, ArtifactTargets, ForeignKeys, Pointing;
      hide ExpiredImages, ExpiredReports, ExpiredExports;
      var images := ExpiredImages(db, c);
      var reports := ExpiredReports(db, c);
      var exports := ExpiredExports(db, c);
      var detectionCount := |Pointing(db.detections, images)|;
      var analyses := Pointing(db.analyses, images);
      ExpiredAreThere(db, c);
      ArtifactsLast(db, c);
      filesRemoved := DeleteInspections(images, analyses, resolve, root);
      var n := DeleteReports(reports, resolve, root);
      var m := DeleteExports(exports, resolve, root);
      filesRemoved := filesRemoved + n + m;
      KeysWithoutArtifacts(Without(Detached(old(db), analyses), analyses, images, {}, {}), db);
      counts := Counts(|images|, detectionCount, |analyses|, |reports|, |exports|);
      audit := audit + [AuditEntry(c, counts, filesRemoved)];
    }

    /** Files go while the purge runs, rows only with its one commit at the end: a purge cut off before it has removed
        the files of the rows it had visited, and changed nothing else. */
    method CutOffPurge(c: Cutoffs, p: Progress, resolve: string -> Path, root: Path)
      requires ForeignKeys(db) && Reachable(db, c, p)
      modifies this
      ensures db == old(db) && audit == old(audit)
      ensures files == old(files) - Attempted(old(db), p, resolve, root)
    {
      hide Without, Detached, ImageTargets, ArtifactTargets, ForeignKeys, Pointing;
      hide ExpiredImages, ExpiredReports, ExpiredExports;
      hide Attempted, Reachable;
      var committed := db;
      var images := ExpiredImages(db, c);
      var analyses := Pointing(db.analyses, images);
      ReachedAreThere(db, c, p);
      ClearAnalyses(images, analyses);
      AfterAnalyses(committed, images, analyses, p.images, resolve, root);
      var n := DeleteImages(p.images, resolve, root);
      var m := DeleteReports(p.reports, resolve, root);
      var k := DeleteExports(p.exports, resolve, root);
      AttemptedInParts(old(files), committed, p, resolve, root);
      db := committed;
    }
  }

  lemma ExpiredAreThere(db: Db, c: Cutoffs)
    ensures ExpiredImages(db, c) <= db.images.Keys
    ensures ExpiredReports(db, c) <= db.reports.Keys && ExpiredExports(db, c) <= db.exports.Keys
  {
  }

  lemma ReachedAreThere(db: Db, c: Cutoffs, p: Progress)
    requires Reachable(db, c, p)
    ensures p.images <= ExpiredImages(db, c) && p.images <= db.images.Keys
    ensures p.reports <= db.reports.Keys && p.exports <= db.exports.Keys
  {
    ExpiredAreThere(db, c);
  }

  lemma AttemptedInParts(files: set<Path>, db: Db, p: Progress, resolve: string -> Path, root: Path)
    ensures files - ImageTargets(db, p.images, resolve, root) - ArtifactTargets(db.reports, p.reports, resolve, root)
            - ArtifactTargets(db.exports, p.exports, resolve, root)
         == files - Attempted(db, p, resolve, root)
  {
    hide ImageTargets, ArtifactTargets;
  }

  /** Reports and exports hang on nothing: their deletion only shrinks their own tables. */
  lemma ArtifactsLast(db: Db, c: Cutoffs)
    ensures var images := ExpiredImages(db, c);
            var analyses := Pointing(db.analyses, images);
            var rest := Without(Detached(db, analyses), analyses, images, {}, {});
            && rest.reports == db.reports && rest.exports == db.exports
            && Purged(db, c)
            == rest.(reports := db.reports - ExpiredReports(db, c), exports := db.exports - ExpiredExports(db, c))
  {
    assert db.reports - {} == db.reports && db.exports - {} == db.exports;
  }

  lemma KeysWithoutArtifacts(a: Db, b: Db)
    requires ForeignKeys(a) && b == a.(reports := b.reports, exports := b.exports)
    ensures ForeignKeys(b)
  {
  }

  /** With the analyses of some images gone, any of these images can be deleted. */
  lemma AfterAnalyses(db: Db, images: set<nat>, analyses: set<nat>, some: set<nat>, resolve: string -> Path, root: Path)
    requires analyses == Pointing(db.analyses, images) && some <= images
    ensures var rest := Without(Detached(db, analyses), analyses, {}, {}, {});
            && rest.images == db.images && (forall a :: a in rest.analyses ==> rest.analyses[a] !in some)
            && ImageTargets(rest, some, resolve, root) == ImageTargets(db, some, resolve, root)
            && Without(rest, {}, some, {}, {}) == Without(Detached(db, analyses), analyses, some, {}, {})
    ensures var rest := Without(Detached(db, analyses), analyses, some, {}, {});
            rest.reports == db.reports && rest.exports == db.exports
  {
    WithoutTwice(Detached(db, analyses), analyses, {}, {}, some);
    assert analyses + {} == analyses && {} + some == some;
    assert db.images - {} == db.images && db.reports - {} == db.reports && db.exports - {} == db.exports;
  }

  lemma NothingDetached(db: Db)
    ensures Detached(db, {}) == db
  {
    assert Detached(db, {}).sessions == db.sessions;
  }

  lemma WithoutNothing(db: Db)
    ensures Without(db, {}, {}, {}, {}) == db
  {
    var left := Without(db, {}, {}, {}, {});
    assert left.images == db.images && left.detections == db.detections && left.dispositions == db.dispositions;
    assert left.analyses == db.analyses && left.reviews == db.reviews;
    assert left.reports == db.reports && left.exports == db.exports;
  }

  lemma WithoutTwice(db: Db, analyses: set<nat>, images: set<nat>, moreAnalyses: set<nat>, moreImages: set<nat>)
    ensures Without(Without(db, analyses, images, {}, {}), moreAnalyses, moreImages, {}, {})
         == Without(db, analyses + moreAnalyses, images + moreImages, {}, {})
  {
    var a := Without(Without(db, analyses, images, {}, {}), moreAnalyses, moreImages, {}, {});
    var b := Without(db, analyses + moreAnalyses, images + moreImages, {}, {});
    assert a.images == b.images && a.detections == b.detections && a.dispositions == b.dispositions;
    assert a.analyses == b.analyses && a.reviews == b.reviews && a.reports == b.reports && a.exports == b.exports;
  }

  lemma NoTargets(db: Db, resolve: string -> Path, root: Path)
    ensures ImageTargets(db, {}, resolve, root) == {}
  {
  }

  lemma NoArtifactTargets(rows: map<nat, Artifact>, resolve: string -> Path, root: Path)
    ensures ArtifactTargets(rows, {}, resolve, root) == {}
  {
  }

  lemma ImagesLeft(db: Db, gone: set<nat>)
    ensures Without(db, {}, gone, {}, {}).images == db.images - gone
    ensures Without(db, {}, gone, {}, {}).analyses == db.analyses
  {
    assert db.analyses - {} == db.analyses;
  }

  lemma WithoutOneMoreImage(db: Db, gone: set<nat>, i: nat)
    ensures Without(Without(db, {}, gone, {}, {}), {}, {i}, {}, {}) == Without(db, {}, gone + {i}, {}, {})
  {
    hide Without;
    WithoutTwice(db, {}, gone, {}, {i});
    var none: set<nat> := {};
    assert none + none == none;
  }

  lemma RemoveOneMore<V>(m: map<nat, V>, gone: set<nat>, k: nat)
    requires k in m && k !in gone
    ensures k in m - gone && (m - gone)[k] == m[k] && (m - gone) - {k} == m - (gone + {k})
  {
  }

  lemma ImageTargetsGrow(db: Db, images: set<nat>, i: nat, resolve: string -> Path, root: Path)
    requires i in db.images
    ensures ImageTargets(db, images + {i}, resolve, root)
         == ImageTargets(db, images, resolve, root) + Target(db.images[i].annotatedPath, resolve, root)
  {
  }

  lemma ArtifactTargetsGrow(rows: map<nat, Artifact>, ids: set<nat>, i: nat, resolve: string -> Path, root: Path)
    requires i in rows
    ensures ArtifactTargets(rows, ids + {i}, resolve, root)
         == ArtifactTargets(rows, ids, resolve, root) + Target(rows[i].filePath, resolve, root)
  {
  }
}
