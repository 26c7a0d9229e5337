/**
 * What the batch driver's specification functions promise: the handler's
 * effects are statements only; a run over files that all load commits once
 * per file and reports i out of the total after the i-th; the first failing
 * file ends the run before its commit; every commit is followed at once by a
 * report and every report comes right after a commit; and the file list holds
 * every data file of the walk, each once.
 */
module DriverProperties {
  import opened Wrappers
  import opened Rows
  import opened Store
  import opened Etl
  import opened EtlProperties

  // ---------------------------------------------------------------------
  // Handlers issue statements only
  // ---------------------------------------------------------------------

  /** A journal of executed statements, with no commit and no progress report in it. */
  predicate StatementsOnly(j: seq<Effect>) {
    forall x <- j :: x.Execute?
  }

  /** A handler only executes statements: committing and reporting are left to the driver. */
  lemma HandlerRunStatementsOnly(h: Handler, path: Path, catalog: SongQuery -> seq<SongMatch>)
    ensures StatementsOnly(HandlerRun(h, path, catalog).effects)
  {
    match h
    case SongFileHandler(_) =>
    case LogFileHandler(read) =>
      if read(path) != [] {
        LogFileProvenance(read(path), catalog);
      }
  }

  /** Each position of a journal of statements holds a statement. */
  lemma StatementAt(x: seq<Effect>, i: nat)
    requires StatementsOnly(x) && i < |x|
    ensures x[i].Execute?
  {
    assert x[i] in x;
  }

  /** A journal of statements holds no commit and no progress report. */
  lemma {:induction false} StatementsOnlyCounts(j: seq<Effect>)
    requires StatementsOnly(j)
    ensures Count(j, CommitKind) == 0 && Reports(j) == []
  {
    if j != [] {
      assert j[|j| - 1] in j;
      StatementsOnlyCounts(j[..|j| - 1]);
    }
  }

  /** Counting commits and reports past a handler's statements, a commit and a report of n files out of total. */
  lemma JournalAfterFile(before: seq<Effect>, e: seq<Effect>, n: nat, total: nat)
    requires StatementsOnly(e)
    ensures Count(before + e + [Commit, Progress(n, total)], CommitKind) == Count(before, CommitKind) + 1
    ensures Reports(before + e + [Commit, Progress(n, total)]) == Reports(before) + [(n, total)]
  {
    var tail := [Commit, Progress(n, total)];
    StatementsOnlyCounts(e);
    assert tail[..1] == [Commit];
    assert [Commit][..0] == [];
    CountConcat(before + e, tail, CommitKind);
    CountConcat(before, e, CommitKind);
    ReportsConcat(before + e, tail);
    ReportsConcat(before, e);
  }

  /** Counting commits and reports past a failing handler's statements. */
  lemma JournalAfterFailure(before: seq<Effect>, e: seq<Effect>)
    requires StatementsOnly(e)
    ensures Count(before + e, CommitKind) == Count(before, CommitKind)
    ensures Reports(before + e) == Reports(before)
  {
    StatementsOnlyCounts(e);
    CountConcat(before, e, CommitKind);
    ReportsConcat(before, e);
  }

  // ---------------------------------------------------------------------
  // Commits and progress reports
  // ---------------------------------------------------------------------

  /** The progress reports 1 out of total, 2 out of total, ..., n out of total, in that order. */
  predicate NumberedReports(r: seq<(nat, nat)>, n: nat, total: nat) {
    |r| == n && forall j :: 0 <= j < n ==> r[j] == (j + 1, total)
  }

  lemma NumberedReportsExtend(r: seq<(nat, nat)>, n: nat, total: nat)
    requires NumberedReports(r, n, total)
    ensures NumberedReports(r + [(n + 1, total)], n + 1, total)
  {
    var r' := r + [(n + 1, total)];
    forall j | 0 <= j < n + 1
      ensures r'[j] == (j + 1, total)
    {
      if j < n {
        assert r'[j] == r[j];
      }
    }
  }

  /**
   * When every file's handler completes, the run completes, commits once per
   * file, and reports i out of the total after the i-th file, for i from 1 to
   * the number of files.
   */
  lemma {:induction false} BatchRunAllPass(h: Handler, files: seq<Path>, total: nat, catalog: SongQuery -> seq<SongMatch>)
    requires forall j :: 0 <= j < |files| ==> HandlerRun(h, files[j], catalog).outcome == Pass
    ensures var r := BatchRun(h, files, total, catalog);
            && r.outcome == Pass
            && Count(r.effects, CommitKind) == |files|
            && NumberedReports(Reports(r.effects), |files|, total)
  {
    if files != [] {
      var n := |files|;
      var init := files[..n - 1];
      assert forall j :: 0 <= j < |init| ==> init[j] == files[j];
      BatchRunAllPass(h, init, total, catalog);
      BatchRunStep(HandlerRunOf(h, catalog), files, n - 1, total);
      assert files[..n] == files;
      var before := BatchRun(h, init, total, catalog).effects;
      var e := HandlerRun(h, files[n - 1], catalog).effects;
      assert BatchRun(h, files, total, catalog).effects == before + e + [Commit, Progress(n, total)];
      HandlerRunStatementsOnly(h, files[n - 1], catalog);
      JournalAfterFile(before, e, n, total);
      NumberedReportsExtend(Reports(before), n - 1, total);
    }
  }

  /**
   * The first file whose handler fails ends the run with that handler's
   * error: the journal is the run of the files before it followed by what the
   * failing handler issued, with one commit and one report per earlier file,
   * and no commit or report for the failing file or any later one.
   */
  lemma BatchRunStopsAtFirstFailure(h: Handler, files: seq<Path>, total: nat, catalog: SongQuery -> seq<SongMatch>, i: nat)
    requires i < |files|
    requires forall j :: 0 <= j < i ==> HandlerRun(h, files[j], catalog).outcome == Pass
    requires HandlerRun(h, files[i], catalog).outcome.Fail?
    ensures var r, failed := BatchRun(h, files, total, catalog), HandlerRun(h, files[i], catalog);
            && r.outcome == failed.outcome
            && r.effects == BatchRun(h, files[..i], total, catalog).effects + failed.effects
            && Count(r.effects, CommitKind) == i
            && NumberedReports(Reports(r.effects), i, total)
  {
    var prefix := files[..i];
    assert forall j :: 0 <= j < |prefix| ==> prefix[j] == files[j];
    BatchRunAllPass(h, prefix, total, catalog);
    BatchRunStep(HandlerRunOf(h, catalog), files, i, total);
    BatchRunAfterFailure(HandlerRunOf(h, catalog), files, i + 1, total);
    HandlerRunStatementsOnly(h, files[i], catalog);
    JournalAfterFailure(BatchRun(h, prefix, total, catalog).effects, HandlerRun(h, files[i], catalog).effects);
  }

  /** Each commit is followed at once by a progress report, and each progress report comes right after a commit. */
  predicate CommitsThenReports(e: seq<Effect>) {
    && (forall m :: 0 <= m < |e| && e[m] == Commit ==> m + 1 < |e| && e[m + 1].Progress?)
    && (forall m :: 0 <= m < |e| && e[m].Progress? ==> 0 < m && e[m - 1] == Commit)
  }

  /** Appending a handler's statements keeps commits and reports paired. */
  lemma PairedAfterStatements(b: seq<Effect>, x: seq<Effect>)
    requires CommitsThenReports(b) && StatementsOnly(x)
    ensures CommitsThenReports(b + x)
  {
    var e := b + x;
    forall m | 0 <= m < |e| && (e[m] == Commit || e[m].Progress?)
      ensures m < |b|
    {
      if |b| <= m {
        StatementAt(x, m - |b|);
        assert false;
      }
    }
  }

  /** Appending a commit and its report keeps commits and reports paired. */
  lemma PairedAfterCommit(b: seq<Effect>, i: nat, total: nat)
    requires CommitsThenReports(b)
    ensures CommitsThenReports(b + [Commit, Progress(i, total)])
  {
  }

  /** In every run, whether it completes or stops at a failing file, commits and progress reports come in adjacent pairs. */
  lemma {:induction false} BatchRunPairsCommits(h: Handler, files: seq<Path>, total: nat, catalog: SongQuery -> seq<SongMatch>)
    ensures CommitsThenReports(BatchRun(h, files, total, catalog).effects)
  {
    if files != [] {
      var init := files[..|files| - 1];
      BatchRunPairsCommits(h, init, total, catalog);
      var before := BatchRun(h, init, total, catalog);
      if before.outcome.Pass? {
        var r := HandlerRun(h, files[|files| - 1], catalog);
        HandlerRunStatementsOnly(h, files[|files| - 1], catalog);
        PairedAfterStatements(before.effects, r.effects);
        if r.outcome.Pass? {
          PairedAfterCommit(before.effects + r.effects, |files|, total);
        }
      }
    }
  }

  /** The journal only grows: the run over the first i files is a prefix of the run over all of them, so files are handled in list order. */
  lemma {:induction false} BatchRunPrefix(h: Handler, files: seq<Path>, total: nat, catalog: SongQuery -> seq<SongMatch>, i: nat)
    requires i <= |files|
    ensures BatchRun(h, files[..i], total, catalog).effects <= BatchRun(h, files, total, catalog).effects
    decreases |files| - i
  {
    if i < |files| {
      BatchRunPrefix(h, files, total, catalog, i + 1);
      var before := BatchRun(h, files[..i], total, catalog);
      if before.outcome.Pass? {
        BatchRunStep(HandlerRunOf(h, catalog), files, i, total);
      } else {
        BatchRunAfterFailure(HandlerRunOf(h, catalog), files, i, total);
      }
    } else {
      assert files[..i] == files;
    }
  }

  /**
   * File j is handled once, after the files before it: when they all complete
   * and so does file j's handler, the journal holds, right after the run of
   * the files before j, file j's statements, one commit and the report j + 1
   * out of the total.
   */
  lemma BatchRunFileTurn(h: Handler, files: seq<Path>, total: nat, catalog: SongQuery -> seq<SongMatch>, j: nat)
    requires j < |files|
    requires BatchRun(h, files[..j], total, catalog).outcome == Pass
    requires HandlerRun(h, files[j], catalog).outcome == Pass
    ensures BatchRun(h, files[..j], total, catalog).effects + HandlerRun(h, files[j], catalog).effects
            + [Commit, Progress(j + 1, total)]
            <= BatchRun(h, files, total, catalog).effects
  {
    BatchRunStep(HandlerRunOf(h, catalog), files, j, total);
    BatchRunPrefix(h, files, total, catalog, j + 1);
  }

  // ---------------------------------------------------------------------
  // The files found
  // ---------------------------------------------------------------------

  /** The `*.json` paths of one directory are the matching names joined to it. */
  lemma {:induction false} GlobJsonMembership(dir: Path, names: seq<string>, p: Path)
    ensures p in GlobJson(dir, names) <==> exists n <- names :: MatchesJson(n) && p == Join(dir, n)
  {
    if names != [] {
      var init, last := names[..|names| - 1], names[|names| - 1];
      GlobJsonMembership(dir, init, p);
      assert names == init + [last];
      if p in GlobJson(dir, names) && p !in GlobJson(dir, init) {
        assert MatchesJson(last) && p == Join(dir, last);
      }
    }
  }

  /** A path is found exactly when some walked directory lists a matching name that joins to it. */
  lemma {:induction false} AllFilesMembership(walk: seq<Directory>, p: Path)
    ensures p in AllFiles(walk) <==> exists d <- walk :: exists n <- d.names :: MatchesJson(n) && p == Join(d.path, n)
  {
    if walk != [] {
      var init, last := walk[..|walk| - 1], walk[|walk| - 1];
      AllFilesMembership(init, p);
      GlobJsonMembership(last.path, last.names, p);
      assert walk == init + [last];
    }
  }

  /** No two positions of s hold the same element. */
  predicate Distinct<T(==)>(s: seq<T>) {
    forall i, j :: 0 <= i < j < |s| ==> s[i] != s[j]
  }

  /**
   * What the walk guarantees of a directory tree: each directory is visited
   * once, so no two walked directories join their entries under the same
   * prefix, and a directory's entry names are distinct and contain no '/'.
   */
  predicate WellFormedWalk(walk: seq<Directory>) {
    && (forall i, j :: 0 <= i < j < |walk| ==> JoinPrefix(walk[i].path) != JoinPrefix(walk[j].path))
    && (forall d <- walk :: Distinct(d.names) && forall n <- d.names :: '/' !in n)
  }

  /** The join prefix of a directory and an entry name without '/' are recovered from their join. */
  lemma JoinInjective(d1: Path, n1: string, d2: Path, n2: string)
    requires '/' !in n1 && '/' !in n2
    requires Join(d1, n1) == Join(d2, n2)
    ensures JoinPrefix(d1) == JoinPrefix(d2) && n1 == n2
  {
    if |n1| < |n2| {
      SlashInLongerName(d1, n1, d2, n2);
      assert false;
    } else if |n2| < |n1| {
      SlashInLongerName(d2, n2, d1, n1);
      assert false;
    }
    var p := Join(d1, n1);
    assert n1 == p[|p| - |n1|..] == n2;
    assert JoinPrefix(d1) == p[..|JoinPrefix(d1)|] == JoinPrefix(d2);
  }

  /** When two joins are equal and the shorter name follows a non-empty prefix, the longer name holds that prefix's final '/'. */
  lemma SlashInLongerName(d1: Path, n1: string, d2: Path, n2: string)
    requires Join(d1, n1) == Join(d2, n2) && |n1| < |n2|
    ensures '/' in n2
  {
    var p := Join(d1, n1);
    var q := JoinPrefix(d1);
    assert |q| > 0 by {
      assert |p| == |q| + |n1| == |JoinPrefix(d2)| + |n2|;
    }
    assert p[|p| - |n1| - 1] == q[|q| - 1] == '/';
    assert p[|p| - |n1| - 1] == n2[|n2| - |n1| - 1];
  }

  /** Two sequences without repeats and without a common element concatenate to one without repeats. */
  lemma DistinctConcat<T>(a: seq<T>, b: seq<T>)
    requires Distinct(a) && Distinct(b)
    requires forall x <- a :: x !in b
    ensures Distinct(a + b)
  {
    forall i, j | 0 <= i < j < |a + b|
      ensures (a + b)[i] != (a + b)[j]
    {
      if i < |a| && |a| <= j {
        assert (a + b)[i] == a[i] && a[i] in a;
        assert (a + b)[j] == b[j - |a|];
      }
    }
  }

  /** One directory's matching paths are distinct when its names are. */
  lemma {:induction false} GlobJsonDistinct(dir: Path, names: seq<string>)
    requires Distinct(names) && forall n <- names :: '/' !in n
    ensures Distinct(GlobJson(dir, names))
  {
    if names != [] {
      var init, last := names[..|names| - 1], names[|names| - 1];
      assert forall i, j :: 0 <= i < j < |init| ==> init[i] == names[i] && init[j] == names[j];
      GlobJsonDistinct(dir, init);
      forall p <- GlobJson(dir, init)
        ensures p !in (if MatchesJson(last) then [Join(dir, last)] else [])
      {
        GlobJsonMembership(dir, init, p);
        var n :| n in init && MatchesJson(n) && p == Join(dir, n);
        if MatchesJson(last) && p == Join(dir, last) {
          var k :| 0 <= k < |init| && init[k] == n;
          JoinInjective(dir, n, dir, last);
          assert false;
        }
      }
      DistinctConcat(GlobJson(dir, init), if MatchesJson(last) then [Join(dir, last)] else []);
    }
  }

  /**
   * On a well-formed walk, the file list holds each data file once: no path
   * appears twice, within one directory or across two.
   */
  lemma {:induction false} AllFilesDistinct(walk: seq<Directory>)
    requires WellFormedWalk(walk)
    ensures Distinct(AllFiles(walk))
  {
    if walk != [] {
      var init, last := walk[..|walk| - 1], walk[|walk| - 1];
      assert forall i :: 0 <= i < |init| ==> init[i] == walk[i];
      AllFilesDistinct(init);
      assert last in walk;
      GlobJsonDistinct(last.path, last.names);
      forall p <- AllFiles(init)
        ensures p !in GlobJson(last.path, last.names)
      {
        AllFilesMembership(init, p);
        var d :| d in init && exists n <- d.names :: MatchesJson(n) && p == Join(d.path, n);
        var n :| n in d.names && MatchesJson(n) && p == Join(d.path, n);
        if p in GlobJson(last.path, last.names) {
          GlobJsonMembership(last.path, last.names, p);
          var n' :| n' in last.names && MatchesJson(n') && p == Join(last.path, n');
          var k :| 0 <= k < |init| && init[k] == d;
          assert d in walk;
          JoinInjective(d.path, n, last.path, n');
          assert false;
        }
      }
      DistinctConcat(AllFiles(init), GlobJson(last.path, last.names));
    }
  }
}
