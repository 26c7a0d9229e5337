# Song/log ETL loader, modelled in Dafny

This project models the loader of a music-streaming star schema (`etl.py`).
The loader reads two families of JSON data files and writes five tables:
- song files, one JSON object per line;
- log files, one user-activity event per line;
- the tables written: songs, artists, time, users and songplays.

It has three parts:

- **The song-file handler** (`process_song_file`). It takes the first record of a
  song file. It writes that record's song row and then its artist row.
- **The log-file handler** (`process_log_file`). It keeps only the `NextSong`
  events. It converts each event's `ts` from epoch milliseconds to a
  naive-UTC timestamp; a `ts` outside pandas' datetime range (about
  1677-09-21 to 2262-04-11) makes it fail before any write. Then it makes
  three ordered passes over those events:
  - one time row per event: hour, day, ISO week, month, year and weekday;
  - one user write per event;
  - per event, a song/artist lookup by title, artist name and length, then a
    songplay insert. The songplay row carries the ids of the first row the
    lookup returns, or null ids when it returns none.
- **The batch driver** (`process_data`). It collects the `*.json` files of
  every walked directory. Then, for each file in list order, it runs the
  handler, commits, and reports `i/num_files`.

The database is replaced by an in-memory fake, the class `Store.Session`.
It keeps one ordered journal of effects:
- executed statements, each recorded by its target table and its row;
- commits;
- progress reports, as `(done, total)` pairs.

The song/artist lookup is the session's constant `catalog`, a function from
`(title, artist name, length)` to the ordered rows the store returns.

Modules, by file:
- `wrappers.dfy`:
  - `Option`;
  - `Outcome`, a handler's pass or failure.
- `calendar.dfy`: the integer calendar behind the time row (proleptic
  Gregorian dates, weekday, ISO 8601 week date).
- `rows.dfy`:
  - the parsed records, and the row projections of the five tables;
  - the `NextSong` filter, stated as `Plays`;
  - the lookup's first-row rule.
- `store.dfy`: the session class and the views of its journal.
- `etl.dfy`:
  - the handlers and the driver, as methods over a `Session`;
  - the specification functions their contracts name: `HandlerRun`,
    `BatchRun`, `LogFileEffects` and `AllFiles`. `BatchRun` is the batch
    loop `FileLoop` over the handler's per-file run `HandlerRunOf`; the
    loop methods are proved against `FileLoop` for any per-file run that
    agrees with the handler.
- `etl_properties.dfy`, `driver_properties.dfy`: the lemmas about those
  functions.

Inputs that are not computation in this code appear as parameters:
- parsing a file's JSON, a function `Path -> seq<record>`;
- the directory walk, given as its result: the walked directories with their
  entry names, in walk and listing order;
- the store's lookup results, the session's `catalog`.

Where the design description and the code differ, the model follows `etl.py`.
- **Ambiguous lookup.** The design asks for null ids when a lookup is
  ambiguous. The code's `fetchone` takes the first row (etl.py:67-70), and so
  does the model (`Rows.FirstRow`). The strict rule is stated separately
  (`Rows.UniqueRow`), and `Rows.FirstRowVersusUnique` proves where the two
  differ.
- **Missing root.** The design says a missing root raises an error.
  `os.walk` on a missing root yields nothing, so the model's walk is then
  empty and no file is found.
- **Discovery order.** The design asks for a fixed total order of files. The
  code keeps walk order and glob order, which the model takes from its input.
- **Song files.** The design says a song file holds exactly one record. The
  code takes the first of however many there are (`.values[0]`), and so does
  the model.
- **Timestamp range.** The design does not mention a range for `ts`. Pandas
  holds a datetime as signed 64-bit nanoseconds, so `pd.to_datetime(…,
  unit='ms')` (etl.py:42) raises for a NextSong event whose `ts` exceeds
  9223372036854 ms in magnitude. The model fails the log file there
  (`TimestampOutOfRange`), with no write.

## Model

| member | source | states |
|---|---|---|
| Rows.Plays | etl.py:39 | the filtered log is no longer than the log |
| Rows.PlaysKeepsNextSongs | etl.py:39 | each event of the filtered log is a NextSong event of the log |
| Rows.PlaysCount | etl.py:39 | of N events of which M are not NextSong events, the filter keeps exactly N - M |
| Rows.PlaysConcat | etl.py:39 | filtering commutes with concatenation, so the filtered events keep log order |
| Rows.PlaysIdempotent | etl.py:39 | filtering an already filtered log changes nothing |
| Rows.PlayRankFinds | etl.py:39 | every NextSong event of the log is in the filtered log, at its rank |
| Rows.PlayRankMonotonic | etl.py:39 | a NextSong event ranks strictly before every later event of the log |
| Rows.TimeRowWellFormed | etl.py:42-47 | the time row keeps the instant; hour is 0..23 and holds the instant within its day; month is 1..12; day is 1..days-in-month; the civil date maps back to ts div 86400000; weekday is 0..6; week is 1..53; and the day lies in that numbered week of its ISO year |
| Rows.TimeRowExample | etl.py:42-47 | ts = 1541121934796 gives hour 1, day 2, ISO week 44, month 11, year 2018, weekday 4 (Friday) |
| Rows.CivilDayExample | etl.py:46-47 | day 17837 after the epoch is 2018-11-02, day 305 of 2018 counted from zero |
| Rows.IsoMondaysExample | etl.py:46-47 | ISO week 1 of 2018 starts on 2018-01-01 (day 17532); that of 2019 starts on 2018-12-31 (day 17896) |
| Rows.IsoDayExample | etl.py:46-47 | day 17837 lies in ISO week 44 of 2018 |
| Rows.FirstRowVersusUnique | etl.py:67-72 | the two rules agree on results of at most one row; on an ambiguous result the code takes the first row and the strict rule takes none |
| Rows.SongplayResolution | etl.py:66-77 | both ids are null exactly when the lookup returns nothing; otherwise both come from the first row; the start is the converted ts; user id, level, session id, location and user agent are the event's verbatim |
| Calendar.MonthOfDay | etl.py:46-47 | the month is 1..12, and the zero-based day of the year lies inside that month |
| Calendar.Weekday | etl.py:46-47 | the pandas weekday, Monday = 0, lies in 0..6 |
| Calendar.IsoWeek1Monday | etl.py:46-47 | week 1 of an ISO year starts on a Monday, within three days of January 1 (the week holding January 4) |
| Calendar.DaysBeforeNextYear | etl.py:46-47 | each year adds its own length (365, or 366 in a leap year) to the day index of January 1 |
| Calendar.YearAndDayOfYearCorrect | etl.py:46-47 | the year split of a day index is exact: the day of year is in range and adds back to the day index |
| Calendar.CivilFromDaysRoundTrip | etl.py:46-47 | every day index maps to a valid civil date that maps back to it |
| Calendar.DaysFromCivilRoundTrip | etl.py:46-47 | every valid civil date survives the trip through its day index |
| Calendar.DaysFromCivilInjective | etl.py:46-47 | distinct valid dates have distinct day indices |
| Calendar.IsoYearLength | etl.py:46-47 | an ISO year has 52 or 53 whole weeks |
| Calendar.IsoWeek1MondayMonotonic | etl.py:46-47 | week 1 of a later ISO year starts at least 52 weeks after that of an earlier one |
| Calendar.IsoYearAndWeekCorrect | etl.py:46-47 | the day lies in its ISO year, its week number is 1..53, and it lies in that numbered week |
| Calendar.IsoYearsDisjoint | etl.py:46-47 | a day lies in the weeks of one ISO year only |
| Calendar.IsoYearUnique | etl.py:46-47 | any ISO year whose weeks hold the day is the one computed, and it fixes the week number |
| Store.Session.Execute | etl.py:20 | executing a statement appends exactly that statement to the journal |
| Store.Session.FetchSong | etl.py:66-67 | the lookup appends its select to the journal and yields the first row of the store's result |
| Store.Session.CommitTransaction | etl.py:101 | a commit appends one commit to the journal |
| Store.Session.ReportProgress | etl.py:102 | a report appends one (done, total) pair to the journal |
| Etl.GlobJson | etl.py:90 | every path glob returns ends in ".json" |
| Etl.AllFiles | etl.py:88-92 | every collected path ends in ".json" |
| Etl.ProcessSongFile | etl.py:8-25 | the outcome and the journal's new entries are those of the song-file handler's specification |
| Etl.ProcessLogFile | etl.py:28-77 | the outcome and the journal's new entries are those of the log-file handler's specification: the time inserts, then the user writes, then the songplay steps |
| Etl.InsertTimeRows | etl.py:52-53 | the loop appends one time insert per row of the time frame, in order |
| Etl.InsertUserRows | etl.py:59-60 | the loop appends one user write per row of the user frame, in order |
| Etl.InsertSongplays | etl.py:63-77 | the loop appends, per event and in order, its lookup and then its songplay insert |
| Etl.RunHandler | etl.py:100 | the driver's handler call does what the handler's specification says |
| Etl.CollectFiles | etl.py:88-92 | the nested append loops build exactly the file list of the walk |
| Etl.ProcessData | etl.py:80-102 | the outcome and the journal's new entries are the batch run over the collected files, with the total their number |
| Etl.ProcessFiles | etl.py:99-102 | for any per-file run that agrees with the handler, the loop's outcome and the journal's new entries are the batch loop over the files, numbered 1..num_files out of num_files |
| Etl.ProcessFile | etl.py:99-102 | one turn of the batch loop extends the journal from the run over files 1..i to the run over files 1..i+1 |
| Etl.BatchRunStep | etl.py:99-102 | one more file adds its handler's statements, and then a commit and the report i+1 of total unless the handler failed |
| Etl.BatchRunAfterFailure | etl.py:99-102 | once a file has failed, the later files change nothing |
| EtlProperties.SongFileWrites | etl.py:15-25 | exactly two writes, both from the first record: the song row (song_id, title, artist_id, year, duration), then the artist row (artist_id, artist_name, artist_location, artist_latitude, artist_longitude), with the same artist id |
| EtlProperties.SongFileHandlerOutcome | etl.py:15-19 | the song-file handler completes exactly when the file has a record; otherwise it fails on that path and writes nothing |
| EtlProperties.PlaysInRange | etl.py:39-42 | the filtered events all convert exactly when every NextSong event of the log has its ts in pandas' datetime range |
| EtlProperties.LogFileHandlerOutcome | etl.py:36-42 | the log-file handler completes exactly when the file has events and every NextSong ts converts; with no events it fails with EmptyFile, with an unconvertible NextSong ts with TimestampOutOfRange, and a failure writes nothing; on completion it issues the log file's statements |
| EtlProperties.TimeTableWellFormed | etl.py:46-50 | the time frame has one row per NextSong event; the k-th keeps the k-th event's converted instant, and its hour, day, ISO week, month, year and weekday meet the well-formedness of the time row |
| EtlProperties.TimeInsertsAt | etl.py:52-53 | the k-th time insert inserts the k-th row |
| EtlProperties.UserInsertsAt | etl.py:59-60 | the k-th user write writes the k-th row |
| EtlProperties.SongplayStepsAt | etl.py:63-77 | event k's lookup is at position 2k of the songplay steps and its songplay insert at 2k+1 |
| EtlProperties.TimeBlockAt | etl.py:46-53 | the k-th time insert is the time row of the k-th NextSong event |
| EtlProperties.UserBlockAt | etl.py:56-60 | the k-th user write is the user row of the k-th NextSong event |
| EtlProperties.LogFileLayout | etl.py:52-77 | a log file's statements are P time inserts, then P user writes, then 2P songplay steps, each built from the k-th NextSong event |
| EtlProperties.TimeInsertsCount | etl.py:52-53 | a time-insert block holds one time write per row and nothing else |
| EtlProperties.UserInsertsCount | etl.py:59-60 | a user-write block holds one user write per row and nothing else |
| EtlProperties.SongplayStepsCount | etl.py:63-77 | the songplay steps hold one lookup and one songplay insert per event and nothing else |
| EtlProperties.LogFileCounts | etl.py:39-77 | N events of which M are not NextSong events give exactly N - M time inserts, user writes, lookups and songplay inserts, and no other statement, commit or report |
| EtlProperties.TimeInsertsDerived | etl.py:52-53 | every time insert inserts one of the frame's rows |
| EtlProperties.TimeTableDerived | etl.py:46-50 | every time row is the time row of one of the events |
| EtlProperties.UserInsertsDerived | etl.py:56-60 | every user write is built from one of the events |
| EtlProperties.SongplayStepsDerived | etl.py:63-77 | every lookup and songplay insert is built from one of the events |
| EtlProperties.LogFileProvenance | etl.py:39-77 | every statement of a log file is built from one of its NextSong events, so no other event reaches any write |
| EtlProperties.LogFileIgnoresOtherEvents | etl.py:39 | dropping the non-NextSong events from a log changes nothing it writes |
| EtlProperties.RankedPair | etl.py:39 | two NextSong events in log order have ranks in that order, and sit at those ranks in the filtered log |
| EtlProperties.LogFileOrder | etl.py:52-77 | for NextSong events i < j, each of the three blocks holds i's row at rank ri before j's at rank rj, where ri < rj |
| EtlProperties.LogFileTimestampsAgree | etl.py:42-76 | the k-th songplay row and the k-th time row carry the same start, the k-th event's converted ts |
| EtlProperties.TimeInsertsWriteNoUser | etl.py:52-53 | the time inserts write no user row |
| EtlProperties.SongplayStepsWriteNoUser | etl.py:63-77 | the songplay steps write no user row |
| EtlProperties.UserInsertsLastWrite | etl.py:59-60 | the last user write for an id is the last row of the frame with that id |
| EtlProperties.UserTableLastRow | etl.py:56 | the last row of the user frame with an id comes from the last NextSong event of that user |
| EtlProperties.PlaysLastPlayBy | etl.py:39 | a user's last event in the filtered log is that user's last NextSong event in the whole log |
| EtlProperties.LogFileLastUserWrite | etl.py:59-60 | the last user write a log file issues for a user id is the user row of that user's last NextSong event, and there is none when the user has none |
| DriverProperties.HandlerRunStatementsOnly | etl.py:100 | a handler only executes statements; committing and reporting are left to the driver |
| DriverProperties.JournalAfterFile | etl.py:99-102 | after a file's statements, a commit and a report, the journal has one more commit and the report (n, total) appended to its reports |
| DriverProperties.JournalAfterFailure | etl.py:99-100 | a failing file's statements add no commit and no report |
| DriverProperties.BatchRunAllPass | etl.py:99-102 | when every file loads, the run completes, commits once per file (num_files commits in all), and its reports are (1, total), (2, total), ..., (num_files, total) in order |
| DriverProperties.BatchRunStopsAtFirstFailure | etl.py:99-102 | the first failing file ends the run with its error; the journal is the earlier files' run plus the failed handler's statements, with i commits and reports 1..i only |
| DriverProperties.BatchRunPairsCommits | etl.py:99-102 | in every run each commit is immediately followed by a progress report, and each report immediately follows a commit |
| DriverProperties.BatchRunPrefix | etl.py:99-102 | the run over the first i files is a prefix of the run over all of them, so files are handled in list order |
| DriverProperties.BatchRunFileTurn | etl.py:99-102 | each completed file's statements, its commit and its report (j+1, total) follow the earlier files' run directly in the journal |
| DriverProperties.GlobJsonMembership | etl.py:90 | a path is globbed from a directory exactly when it is a matching name of that directory joined to it |
| DriverProperties.AllFilesMembership | etl.py:88-92 | a path is in the file list exactly when it is a matching name of some walked directory joined to that directory |
| DriverProperties.JoinInjective | etl.py:90 | a joined path fixes both the directory's join prefix (the directory, with a '/' added unless it is empty or already ends in one) and a name without '/' |
| DriverProperties.GlobJsonDistinct | etl.py:90 | a directory with distinct names yields distinct paths |
| DriverProperties.AllFilesDistinct | etl.py:88-92 | on a walk of distinct directories with distinct names, the file list holds each data file once |

## Left out

- `main`, `psycopg2.connect`, the cursor and connection lifecycle (etl.py:105-118): database plumbing outside the loader's logic.
- The SQL text and conflict rules of `sql_queries` (etl.py:5). `sql_queries` is not part of this model. Statements are recorded by target table and row, and the lookup is the session's abstract `catalog`. No upsert, deduplication or last-write-wins behaviour of the store is claimed. `EtlProperties.LogFileLastUserWrite` speaks only of the order of the writes issued.
- Store-side rejections (a constraint violation while inserting): the fake store accepts every statement, so the only failure modelled is a handler's own.
- `pd.read_json` parsing (etl.py:15, etl.py:36): the reader is a parameter returning already-parsed records. Malformed JSON and missing columns are outside the model. A file with no records is modelled as a handler failure (`EmptyFile`); pandas raises there, since an empty file gives a frame with no columns and selecting a column fails with `KeyError` (the song file's `df[[...]]` at etl.py:18, the log file's `df['page']` at etl.py:39).
- The real filesystem walk (`os.walk`, `glob`, etl.py:89-92):
  - its order depends on the operating system, so the walk is an input of walked directories and their entry names;
  - glob's `*.json` pattern is modelled as "ends in `.json` and does not start with `.`";
  - directories named `*.json`, other glob metacharacters and symbolic links are not modelled.
- `os.path.abspath` (etl.py:92): a path is kept as `os.path.join` builds it, the directory followed by `/` (unless it is empty or already ends in `/`) and the name. Making it absolute is not modelled: neither the current directory it prepends nor its normalisation, which collapses `//`, `.` and `..`.
- `print` formatting (etl.py:96, etl.py:102): progress is recorded as `(i, total)` pairs only. The "files found" line of etl.py:96 is not recorded.
- Floating-point `duration`, `length`, latitude and longitude: these are opaque values compared only for equality (`Rows.Float`).
- Sub-millisecond `datetime` internals and time zones: the instant is its epoch milliseconds. Only the range of pandas' 64-bit nanosecond datetime is modelled, as the `TimestampOutOfRange` failure. The calendar fields come from integer floor division, which Dafny's Euclidean `/` and `%` match for these positive divisors.
- Crash behaviour and the atomicity of `conn.commit()` (etl.py:101): a commit is one journal entry.
- The empty-file rule is a modelling choice, not derived from pandas itself. A log file with events but no NextSong event loads and writes nothing. A log file with no event at all fails, like an empty song file.
