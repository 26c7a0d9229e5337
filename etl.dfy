/**
 * The loader: the song-file handler, the log-file handler and the batch
 * driver that finds the data files under a directory and runs a handler on
 * each, committing after every file. Each method is tied by its contract to
 * a specification function of its inputs; the properties of those functions
 * are proved in module EtlProperties.
 *
 * Reading a file's JSON is a function parameter (`Path -> seq<...>`), and the
 * directory walk is given as its result: the list of walked directories with
 * the names each holds, in the order the walk and the listing produce them.
 */
module Etl {
  import opened Wrappers
  import opened Rows
  import opened Store

  type Path = string

  /**
   * Why a handler raises: the file holds no records to take columns from, or
   * a NextSong event's ts lies outside the range of pandas datetimes.
   */
  datatype HandlerError =
    | EmptyFile(path: Path)
    | TimestampOutOfRange(path: Path)

  /** Whether every event's ts converts to a pandas datetime. */
  predicate TimestampsInRange(plays: seq<LogEvent>) {
    forall e <- plays :: InDatetimeRange(e.ts)
  }

  /** The per-file handler the batch driver is given, with the reader its file family is parsed by. */
  datatype Handler =
    | SongFileHandler(readSongFile: Path -> seq<SongRecord>)
    | LogFileHandler(readLogFile: Path -> seq<LogEvent>)

  /** What running a handler, or the batch loop, comes to: whether it completed, and its effects in order. */
  datatype Run = Run(outcome: Outcome<HandlerError>, effects: seq<Effect>)

  /** One directory visited by the walk, with the names of the entries in it. */
  datatype Directory = Directory(path: Path, names: seq<string>)

  // ---------------------------------------------------------------------
  // Specification of the song-file handler
  // ---------------------------------------------------------------------

  /** The writes for a song file: its first record's song row, then its artist row. */
  function SongFileEffects(records: seq<SongRecord>): seq<Effect>
    requires records != []
  {
    [Execute(InsertSong(SongRowOf(records[0]))), Execute(InsertArtist(ArtistRowOf(records[0])))]
  }

  // ---------------------------------------------------------------------
  // Specification of the log-file handler
  // ---------------------------------------------------------------------

  /** The time table of the NextSong events: one row per event, in order. */
  function TimeTable(plays: seq<LogEvent>): (rows: seq<TimeRow>)
    ensures |rows| == |plays|
    ensures forall k {:trigger rows[k]} :: 0 <= k < |plays| ==> rows[k] == TimeRowOf(ToTimestamp(plays[k].ts))
  {
    seq(|plays|, k requires 0 <= k < |plays| => TimeRowOf(ToTimestamp(plays[k].ts)))
  }

  /** The user table of the NextSong events: one row per event, in order. */
  function UserTable(plays: seq<LogEvent>): (rows: seq<UserRow>)
    ensures |rows| == |plays|
    ensures forall k :: 0 <= k < |plays| ==> rows[k] == UserRowOf(plays[k])
  {
    seq(|plays|, k requires 0 <= k < |plays| => UserRowOf(plays[k]))
  }

  /** One time insert per row, in row order. */
  function TimeInserts(rows: seq<TimeRow>): seq<Effect> {
    if rows == [] then []
    else TimeInserts(rows[..|rows| - 1]) + [Execute(InsertTime(rows[|rows| - 1]))]
  }

  /** One user write per row, in row order. */
  function UserInserts(rows: seq<UserRow>): seq<Effect> {
    if rows == [] then []
    else UserInserts(rows[..|rows| - 1]) + [Execute(InsertUser(rows[|rows| - 1]))]
  }

  /** For one event: the lookup of its song, then the insert of its songplay row. */
  function SongplayStep(e: LogEvent, catalog: SongQuery -> seq<SongMatch>): seq<Effect> {
    [Execute(SelectSong(QueryOf(e))), Execute(InsertSongplay(SongplayRowOf(e, FirstRow(catalog(QueryOf(e))))))]
  }

  /** The songplay steps of the events, in order. */
  function SongplaySteps(plays: seq<LogEvent>, catalog: SongQuery -> seq<SongMatch>): seq<Effect> {
    if plays == [] then []
    else SongplaySteps(plays[..|plays| - 1], catalog) + SongplayStep(plays[|plays| - 1], catalog)
  }

  /** The statements for a log file: all time inserts, then all user writes, then the songplay steps. */
  function LogFileEffects(events: seq<LogEvent>, catalog: SongQuery -> seq<SongMatch>): seq<Effect> {
    var plays := Plays(events);
    TimeInserts(TimeTable(plays)) + UserInserts(UserTable(plays)) + SongplaySteps(plays, catalog)
  }

  // ---------------------------------------------------------------------
  // Specification of the batch driver
  // ---------------------------------------------------------------------

  /** What the song-file handler does with the records read from a file. */
  function SongFileRun(path: Path, records: seq<SongRecord>): Run {
    if records == [] then Run(Fail(EmptyFile(path)), []) else Run(Pass, SongFileEffects(records))
  }

  /** What the log-file handler does with the events read from a file. */
  function LogFileRun(path: Path, events: seq<LogEvent>, catalog: SongQuery -> seq<SongMatch>): Run {
    if events == [] then Run(Fail(EmptyFile(path)), [])
    else if !TimestampsInRange(Plays(events)) then Run(Fail(TimestampOutOfRange(path)), [])
    else Run(Pass, LogFileEffects(events, catalog))
  }

  /** What a handler does for one file: whether it completes, and its statements. */
  function HandlerRun(h: Handler, path: Path, catalog: SongQuery -> seq<SongMatch>): Run {
    match h
    case SongFileHandler(read) => SongFileRun(path, read(path))
    case LogFileHandler(read) => LogFileRun(path, read(path), catalog)
  }

  /** The handler's specification as a function of the file it is given. */
  function HandlerRunOf(h: Handler, catalog: SongQuery -> seq<SongMatch>): Path -> Run {
    p => HandlerRun(h, p, catalog)
  }

  /**
   * What the batch loop does for the files, numbered from 1 out of `total`,
   * when `run` gives what the handler does with one file: per file the
   * handler's statements, a commit and a progress report; the first failing
   * handler ends the run with its error.
   */
  function FileLoop(run: Path -> Run, files: seq<Path>, total: nat): Run {
    if files == [] then Run(Pass, [])
    else
      var before := FileLoop(run, files[..|files| - 1], total);
      if before.outcome.Fail? then before
      else
        var r := run(files[|files| - 1]);
        if r.outcome.Fail? then Run(r.outcome, before.effects + r.effects)
        else Run(Pass, before.effects + r.effects + [Commit, Progress(|files|, total)])
  }

  /** What the batch loop does for the files with handler `h`. */
  function BatchRun(h: Handler, files: seq<Path>, total: nat, catalog: SongQuery -> seq<SongMatch>): Run {
    FileLoop(HandlerRunOf(h, catalog), files, total)
  }

  /** The matching rule of the pattern `*.json`: the name ends in ".json" and is not hidden. */
  predicate MatchesJson(name: string) {
    |name| >= 5 && name[|name| - 5..] == ".json" && name[0] != '.'
  }

  predicate EndsWithJson(p: Path) {
    |p| >= 5 && p[|p| - 5..] == ".json"
  }

  /**
   * What precedes an entry name in `os.path.join(dir, name)`: the directory
   * itself when it is empty or already ends in '/', otherwise the directory
   * and a '/'.
   */
  function JoinPrefix(dir: Path): (prefix: Path)
    ensures prefix == [] || prefix[|prefix| - 1] == '/'
  {
    if dir == [] || dir[|dir| - 1] == '/' then dir else dir + "/"
  }

  /** `os.path.join` of a directory and an entry name that does not start with '/'. */
  function Join(dir: Path, name: string): Path {
    JoinPrefix(dir) + name
  }

  /** What glob returns for the pattern `*.json` joined to a directory: the matching names joined to the directory, in listing order. */
  function GlobJson(dir: Path, names: seq<string>): (paths: seq<Path>)
    ensures forall p <- paths :: EndsWithJson(p)
  {
    if names == [] then []
    else
      var n := names[|names| - 1];
      GlobJson(dir, names[..|names| - 1]) + (if MatchesJson(n) then [Join(dir, n)] else [])
  }

  /** The data files of the walked directories, directory by directory. */
  function AllFiles(walk: seq<Directory>): (paths: seq<Path>)
    ensures forall p <- paths :: EndsWithJson(p)
  {
    if walk == [] then []
    else
      var d := walk[|walk| - 1];
      AllFiles(walk[..|walk| - 1]) + GlobJson(d.path, d.names)
  }

  // ---------------------------------------------------------------------
  // The handlers and the driver
  // ---------------------------------------------------------------------

  /** Loads one song file: inserts the song row and then the artist row of its first record. */
  method ProcessSongFile(cur: Session, path: Path, readJson: Path -> seq<SongRecord>)
    returns (outcome: Outcome<HandlerError>)
    modifies cur
    ensures outcome == HandlerRun(SongFileHandler(readJson), path, cur.catalog).outcome
    ensures cur.journal == old(cur.journal) + HandlerRun(SongFileHandler(readJson), path, cur.catalog).effects
  {
    var records := readJson(path);
    if records == [] {
      assert cur.journal == old(cur.journal) + [];
      return Fail(EmptyFile(path));
    }
    cur.Execute(InsertSong(SongRowOf(records[0])));
    cur.Execute(InsertArtist(ArtistRowOf(records[0])));
    outcome := Pass;
  }

  /**
   * Loads one log file: keeps its NextSong events and converts their ts,
   * failing before any write when one is out of range, then runs the three
   * row loops over them.
   */
  method ProcessLogFile(cur: Session, path: Path, readJson: Path -> seq<LogEvent>)
    returns (outcome: Outcome<HandlerError>)
    modifies cur
    ensures outcome == HandlerRun(LogFileHandler(readJson), path, cur.catalog).outcome
    ensures cur.journal == old(cur.journal) + HandlerRun(LogFileHandler(readJson), path, cur.catalog).effects
  {
    var events := readJson(path);
    if events == [] {
      assert cur.journal == old(cur.journal) + [];
      return Fail(EmptyFile(path));
    }
    var plays := Plays(events);
    if !TimestampsInRange(plays) {
      assert cur.journal == old(cur.journal) + [];
      return Fail(TimestampOutOfRange(path));
    }
    InsertTimeRows(cur, TimeTable(plays));
    InsertUserRows(cur, UserTable(plays));
    InsertSongplays(cur, plays);
    AppendThree(old(cur.journal), TimeInserts(TimeTable(plays)), UserInserts(UserTable(plays)),
                SongplaySteps(plays, cur.catalog));
    outcome := Pass;
  }

  /** The time-insert loop: one insert per row of the time table, in order. */
  method InsertTimeRows(cur: Session, timeRows: seq<TimeRow>)
    modifies cur
    ensures cur.journal == old(cur.journal) + TimeInserts(timeRows)
  {
    var i := 0;
    while i < |timeRows|
      invariant 0 <= i <= |timeRows|
      invariant cur.journal == old(cur.journal) + TimeInserts(timeRows[..i])
    {
      assert timeRows[..i + 1][..i] == timeRows[..i];
      cur.Execute(InsertTime(timeRows[i]));
      i := i + 1;
    }
    assert timeRows[..i] == timeRows;
  }

  /** The user-write loop: one write per row of the user table, in order. */
  method InsertUserRows(cur: Session, userRows: seq<UserRow>)
    modifies cur
    ensures cur.journal == old(cur.journal) + UserInserts(userRows)
  {
    var i := 0;
    while i < |userRows|
      invariant 0 <= i <= |userRows|
      invariant cur.journal == old(cur.journal) + UserInserts(userRows[..i])
    {
      assert userRows[..i + 1][..i] == userRows[..i];
      cur.Execute(InsertUser(userRows[i]));
      i := i + 1;
    }
    assert userRows[..i] == userRows;
  }

  /**
   * The songplay loop: per event, the lookup of its song and artist ids by
   * title, artist name and length, then the insert of its songplay row with
   * the ids of the first row found, or with null ids when none is found.
   */
  method InsertSongplays(cur: Session, plays: seq<LogEvent>)
    modifies cur
    ensures cur.journal == old(cur.journal) + SongplaySteps(plays, cur.catalog)
  {
    var i := 0;
    while i < |plays|
      invariant 0 <= i <= |plays|
      invariant cur.journal == old(cur.journal) + SongplaySteps(plays[..i], cur.catalog)
    {
      assert plays[..i + 1][..i] == plays[..i];
      var e := plays[i];
      var found := cur.FetchSong(QueryOf(e));
      var (songId, artistId) := if found.Some? then (Some(found.value.songId), Some(found.value.artistId))
                                else (None, None);
      cur.Execute(InsertSongplay(SongplayRow(ToTimestamp(e.ts), e.userId, e.level, songId, artistId,
                                             e.sessionId, e.location, e.userAgent)));
      i := i + 1;
    }
    assert plays[..i] == plays;
  }

  /** Concatenation regrouped. */
  lemma AppendThree<T>(s: seq<T>, a: seq<T>, b: seq<T>, c: seq<T>)
    ensures s + a + b + c == s + (a + b + c)
  {
  }

  /** Concatenation regrouped, with two single effects appended one at a time. */
  lemma AppendTwoMore(s: seq<Effect>, a: seq<Effect>, b: seq<Effect>, x: Effect, y: Effect)
    ensures s + a + b + [x] + [y] == s + (a + b + [x, y])
  {
    assert [x] + [y] == [x, y];
  }

  /** Runs the handler the driver was given on one file. */
  method RunHandler(cur: Session, h: Handler, path: Path) returns (outcome: Outcome<HandlerError>)
    modifies cur
    ensures outcome == HandlerRun(h, path, cur.catalog).outcome
    ensures cur.journal == old(cur.journal) + HandlerRun(h, path, cur.catalog).effects
  {
    match h
    case SongFileHandler(read) =>
      outcome := ProcessSongFile(cur, path, read);
    case LogFileHandler(read) =>
      outcome := ProcessLogFile(cur, path, read);
  }

  /** Collects the `*.json` files of every walked directory into one list. */
  method CollectFiles(walk: seq<Directory>) returns (allFiles: seq<Path>)
    ensures allFiles == AllFiles(walk)
  {
    allFiles := [];
    var i := 0;
    while i < |walk|
      invariant 0 <= i <= |walk|
      invariant allFiles == AllFiles(walk[..i])
    {
      assert walk[..i + 1][..i] == walk[..i];
      var files := GlobJson(walk[i].path, walk[i].names);
      var j := 0;
      while j < |files|
        invariant 0 <= j <= |files|
        invariant allFiles == AllFiles(walk[..i]) + files[..j]
      {
        assert files[..j + 1] == files[..j] + [files[j]];
        allFiles := allFiles + [files[j]];
        j := j + 1;
      }
      assert files[..j] == files;
      i := i + 1;
    }
    assert walk[..i] == walk;
  }

  /**
   * Finds the data files of the walked directories and processes them in
   * order: per file the handler, a commit and a progress report out of the
   * number of files found. A failing handler ends the run with its error.
   */
  method ProcessData(cur: Session, walk: seq<Directory>, h: Handler) returns (outcome: Outcome<HandlerError>)
    modifies cur
    ensures outcome == BatchRun(h, AllFiles(walk), |AllFiles(walk)|, cur.catalog).outcome
    ensures cur.journal == old(cur.journal) + BatchRun(h, AllFiles(walk), |AllFiles(walk)|, cur.catalog).effects
  {
    var allFiles := CollectFiles(walk);
    outcome := ProcessFiles(cur, h, allFiles, HandlerRunOf(h, cur.catalog));
  }

  /**
   * The loop over the file list, numbering the files from 1 out of their
   * count; `run` is what the handler does with each file.
   */
  method ProcessFiles(cur: Session, h: Handler, allFiles: seq<Path>, ghost run: Path -> Run)
    returns (outcome: Outcome<HandlerError>)
    requires forall p {:trigger HandlerRun(h, p, cur.catalog)} :: run(p) == HandlerRun(h, p, cur.catalog)
    modifies cur
    ensures outcome == FileLoop(run, allFiles, |allFiles|).outcome
    ensures cur.journal == old(cur.journal) + FileLoop(run, allFiles, |allFiles|).effects
  {
    var numFiles := |allFiles|;
    var i := 0;
    while i < numFiles
      invariant 0 <= i <= numFiles
      invariant FileLoop(run, allFiles[..i], numFiles).outcome == Pass
      invariant cur.journal == old(cur.journal) + FileLoop(run, allFiles[..i], numFiles).effects
    {
      outcome := ProcessFile(cur, h, allFiles, i, numFiles, run, old(cur.journal));
      if outcome.Fail? {
        BatchRunAfterFailure(run, allFiles, i + 1, numFiles);
        return;
      }
      i := i + 1;
    }
    assert allFiles[..i] == allFiles;
    outcome := Pass;
  }

  /**
   * One turn of the batch loop: runs the handler on file i and, when it
   * completes, commits and reports i + 1 files done; the journal stays the
   * batch run of the files so far, after whatever preceded the batch.
   */
  method ProcessFile(cur: Session, h: Handler, files: seq<Path>, i: nat, total: nat,
                     ghost run: Path -> Run, ghost start: seq<Effect>)
    returns (outcome: Outcome<HandlerError>)
    requires i < |files|
    requires forall p {:trigger HandlerRun(h, p, cur.catalog)} :: run(p) == HandlerRun(h, p, cur.catalog)
    requires FileLoop(run, files[..i], total).outcome == Pass
    requires cur.journal == start + FileLoop(run, files[..i], total).effects
    modifies cur
    ensures outcome == FileLoop(run, files[..i + 1], total).outcome
    ensures cur.journal == start + FileLoop(run, files[..i + 1], total).effects
  {
    ghost var done := FileLoop(run, files[..i], total).effects;
    ghost var effects := HandlerRun(h, files[i], cur.catalog).effects;
    BatchRunStep(run, files, i, total);
    outcome := RunHandler(cur, h, files[i]);
    if outcome.Fail? {
      assert start + done + effects == start + (done + effects);
      return;
    }
    cur.CommitTransaction();
    cur.ReportProgress(i + 1, total);
    AppendTwoMore(start, done, effects, Commit, Progress(i + 1, total));
  }

  /** One more file: the run so far, then the file's handler, then its commit and report unless the handler failed. */
  lemma BatchRunStep(run: Path -> Run, files: seq<Path>, i: nat, total: nat)
    requires i < |files|
    requires FileLoop(run, files[..i], total).outcome == Pass
    ensures var done, r := FileLoop(run, files[..i], total).effects, run(files[i]);
            FileLoop(run, files[..i + 1], total)
            == if r.outcome.Fail? then Run(r.outcome, done + r.effects)
               else Run(Pass, done + r.effects + [Commit, Progress(i + 1, total)])
  {
    assert files[..i + 1][..i] == files[..i];
  }

  /** Once a prefix of the files has failed, the later files change nothing. */
  lemma {:induction false} BatchRunAfterFailure(run: Path -> Run, files: seq<Path>, i: nat, total: nat)
    requires i <= |files|
    requires FileLoop(run, files[..i], total).outcome.Fail?
    ensures FileLoop(run, files, total) == FileLoop(run, files[..i], total)
    decreases |files| - i
  {
    if i < |files| {
      assert files[..i + 1][..i] == files[..i];
      BatchRunAfterFailure(run, files, i + 1, total);
    } else {
      assert files[..i] == files;
    }
  }
}
