/**
 * What the loader's specification functions promise: the rows a song file
 * and a log file produce and the order they are written in, the NextSong
 * filter's counts, the null fallback of the lookup, the per-file commit and
 * progress discipline of the batch driver, and the files it finds.
 */
module EtlProperties {
  import opened Wrappers
  import opened Rows
  import opened Store
  import opened Etl

  // ---------------------------------------------------------------------
  // Song files
  // ---------------------------------------------------------------------

  /**
   * A song file with records writes two rows, both from its first record: the
   * song row (song_id, title, artist_id, year, duration), then the artist row
   * (artist_id, artist_name, artist_location, artist_latitude,
   * artist_longitude), and the two carry the same artist id.
   */
  lemma SongFileWrites(records: seq<SongRecord>)
    requires records != []
    ensures var w := SongFileEffects(records);
            var r := records[0];
            && |w| == 2
            && w[0] == Execute(InsertSong(SongRow(r.songId, r.title, r.artistId, r.year, r.duration)))
            && w[1] == Execute(InsertArtist(ArtistRow(r.artistId, r.artistName, r.artistLocation,
                                                      r.artistLatitude, r.artistLongitude)))
            && w[0].stmt.song.artistId == w[1].stmt.artist.artistId
  {
  }

  /** The song-file handler completes exactly when the file holds a record, and writes nothing otherwise. */
  lemma SongFileHandlerOutcome(read: Path -> seq<SongRecord>, path: Path, catalog: SongQuery -> seq<SongMatch>)
    ensures var Run(outcome, w) := HandlerRun(SongFileHandler(read), path, catalog);
            && (outcome == Pass <==> read(path) != [])
            && (outcome != Pass ==> outcome == Fail(EmptyFile(path)) && w == [])
            && (outcome == Pass ==> w == SongFileEffects(read(path)))
  {
  }

  // ---------------------------------------------------------------------
  // Log files: when the handler completes
  // ---------------------------------------------------------------------

  /** The filtered events all convert exactly when every NextSong event of the log does. */
  lemma PlaysInRange(events: seq<LogEvent>)
    ensures TimestampsInRange(Plays(events)) <==> forall e <- events :: IsNextSong(e) ==> InDatetimeRange(e.ts)
  {
    if TimestampsInRange(Plays(events)) {
      forall e <- events | IsNextSong(e)
        ensures InDatetimeRange(e.ts)
      {
        var i :| 0 <= i < |events| && events[i] == e;
        PlayRankFinds(events, i);
      }
    }
  }

  /**
   * The log-file handler completes exactly when the file holds an event and
   * every NextSong event's ts converts; an empty file fails as such, a file
   * with a NextSong event out of range fails on its timestamp, and a failing
   * handler writes nothing. Events of other pages never make it fail.
   */
  lemma LogFileHandlerOutcome(read: Path -> seq<LogEvent>, path: Path, catalog: SongQuery -> seq<SongMatch>)
    ensures var events := read(path);
            var Run(outcome, w) := HandlerRun(LogFileHandler(read), path, catalog);
            && (outcome == Pass <==> events != [] && forall e <- events :: IsNextSong(e) ==> InDatetimeRange(e.ts))
            && (events == [] ==> outcome == Fail(EmptyFile(path)))
            && (events != [] && (exists e <- events :: IsNextSong(e) && !InDatetimeRange(e.ts))
                ==> outcome == Fail(TimestampOutOfRange(path)))
            && (outcome != Pass ==> w == [])
            && (outcome == Pass ==> w == LogFileEffects(events, catalog))
  {
    PlaysInRange(read(path));
  }

  // ---------------------------------------------------------------------
  // Log files: where each statement sits
  // ---------------------------------------------------------------------

  /** The time inserts hold the rows of the table, one each and in order. */
  lemma {:induction false} TimeInsertsAt(rows: seq<TimeRow>)
    ensures |TimeInserts(rows)| == |rows|
    ensures forall k :: 0 <= k < |rows| ==> TimeInserts(rows)[k] == Execute(InsertTime(rows[k]))
  {
    if rows != [] {
      TimeInsertsAt(rows[..|rows| - 1]);
    }
  }

  /** The user writes hold the rows of the table, one each and in order. */
  lemma {:induction false} UserInsertsAt(rows: seq<UserRow>)
    ensures |UserInserts(rows)| == |rows|
    ensures forall k :: 0 <= k < |rows| ==> UserInserts(rows)[k] == Execute(InsertUser(rows[k]))
  {
    if rows != [] {
      UserInsertsAt(rows[..|rows| - 1]);
    }
  }

  /** Event k's lookup sits at position 2k of the songplay steps and its songplay insert right after it. */
  lemma {:induction false} SongplayStepsAt(plays: seq<LogEvent>, catalog: SongQuery -> seq<SongMatch>)
    ensures |SongplaySteps(plays, catalog)| == 2 * |plays|
    ensures forall k :: 0 <= k < |plays| ==>
              && SongplaySteps(plays, catalog)[2 * k] == Execute(SelectSong(QueryOf(plays[k])))
              && SongplaySteps(plays, catalog)[2 * k + 1]
                 == Execute(InsertSongplay(SongplayRowOf(plays[k], FirstRow(catalog(QueryOf(plays[k]))))))
  {
    if plays != [] {
      var init := plays[..|plays| - 1];
      SongplayStepsAt(init, catalog);
      forall k | 0 <= k < |plays|
        ensures SongplaySteps(plays, catalog)[2 * k] == Execute(SelectSong(QueryOf(plays[k])))
        ensures SongplaySteps(plays, catalog)[2 * k + 1]
                == Execute(InsertSongplay(SongplayRowOf(plays[k], FirstRow(catalog(QueryOf(plays[k]))))))
      {
        if k < |init| {
          assert plays[k] == init[k];
        }
      }
    }
  }

  /**
   * The layout of a log file's statements, for P NextSong events: first a block
   * of P time inserts, then a block of P user writes, then per event its lookup
   * and its songplay insert, each built from the k-th NextSong event in log order.
   */
  lemma LogFileLayout(events: seq<LogEvent>, catalog: SongQuery -> seq<SongMatch>)
    ensures var plays := Plays(events);
            var times, users, steps := TimeInserts(TimeTable(plays)), UserInserts(UserTable(plays)), SongplaySteps(plays, catalog);
            && LogFileEffects(events, catalog) == times + users + steps
            && |times| == |users| == |plays| && |steps| == 2 * |plays|
            && forall k :: 0 <= k < |plays| ==>
                 && times[k] == Execute(InsertTime(TimeRowOf(ToTimestamp(plays[k].ts))))
                 && users[k] == Execute(InsertUser(UserRowOf(plays[k])))
                 && steps[2 * k] == Execute(SelectSong(QueryOf(plays[k])))
                 && steps[2 * k + 1] == Execute(InsertSongplay(SongplayRowOf(plays[k], FirstRow(catalog(QueryOf(plays[k]))))))
  {
    var plays := Plays(events);
    TimeBlockAt(plays);
    UserBlockAt(plays);
    SongplayStepsAt(plays, catalog);
  }

  /** The time inserts of a log file hold the time rows of its NextSong events, in order. */
  lemma TimeBlockAt(plays: seq<LogEvent>)
    ensures |TimeInserts(TimeTable(plays))| == |plays|
    ensures forall k :: 0 <= k < |plays| ==>
              TimeInserts(TimeTable(plays))[k] == Execute(InsertTime(TimeRowOf(ToTimestamp(plays[k].ts))))
  {
    var rows := TimeTable(plays);
    TimeInsertsAt(rows);
    forall k | 0 <= k < |plays|
      ensures TimeInserts(rows)[k] == Execute(InsertTime(TimeRowOf(ToTimestamp(plays[k].ts))))
    {
      assert TimeInserts(rows)[k] == Execute(InsertTime(rows[k]));
    }
  }

  /** Every row of the time table is a well-formed calendar reading of its event's converted ts. */
  lemma TimeTableWellFormed(plays: seq<LogEvent>)
    ensures |TimeTable(plays)| == |plays|
    ensures forall k :: 0 <= k < |plays| ==>
              TimeTable(plays)[k].start == ToTimestamp(plays[k].ts) && WellFormedTimeRow(TimeTable(plays)[k])
  {
    forall k | 0 <= k < |plays|
      ensures TimeTable(plays)[k].start == ToTimestamp(plays[k].ts) && WellFormedTimeRow(TimeTable(plays)[k])
    {
      TimeRowWellFormed(ToTimestamp(plays[k].ts));
    }
  }

  /** The user writes of a log file hold the user rows of its NextSong events, in order. */
  lemma UserBlockAt(plays: seq<LogEvent>)
    ensures |UserInserts(UserTable(plays))| == |plays|
    ensures forall k :: 0 <= k < |plays| ==> UserInserts(UserTable(plays))[k] == Execute(InsertUser(UserRowOf(plays[k])))
  {
    UserInsertsAt(UserTable(plays));
  }

  // ---------------------------------------------------------------------
  // Log files: counts, provenance, order
  // ---------------------------------------------------------------------

  /** Writes of each kind in a time-insert block: one per row, and nothing else. */
  lemma {:induction false} TimeInsertsCount(rows: seq<TimeRow>, k: EffectKind)
    ensures Count(TimeInserts(rows), k) == if k == TimeWrite then |rows| else 0
  {
    if rows != [] {
      TimeInsertsCount(rows[..|rows| - 1], k);
      CountConcat(TimeInserts(rows[..|rows| - 1]), [Execute(InsertTime(rows[|rows| - 1]))], k);
      assert [Execute(InsertTime(rows[|rows| - 1]))][..0] == [];
    }
  }

  /** Writes of each kind in a user-write block: one per row, and nothing else. */
  lemma {:induction false} UserInsertsCount(rows: seq<UserRow>, k: EffectKind)
    ensures Count(UserInserts(rows), k) == if k == UserWrite then |rows| else 0
  {
    if rows != [] {
      UserInsertsCount(rows[..|rows| - 1], k);
      CountConcat(UserInserts(rows[..|rows| - 1]), [Execute(InsertUser(rows[|rows| - 1]))], k);
      assert [Execute(InsertUser(rows[|rows| - 1]))][..0] == [];
    }
  }

  /** Statements of each kind in the songplay steps: one lookup and one insert per event. */
  lemma {:induction false} SongplayStepsCount(plays: seq<LogEvent>, catalog: SongQuery -> seq<SongMatch>, k: EffectKind)
    ensures Count(SongplaySteps(plays, catalog), k)
            == if k == SongLookup || k == SongplayWrite then |plays| else 0
  {
    if plays != [] {
      var e := plays[|plays| - 1];
      SongplayStepsCount(plays[..|plays| - 1], catalog, k);
      CountConcat(SongplaySteps(plays[..|plays| - 1], catalog), SongplayStep(e, catalog), k);
      var step := SongplayStep(e, catalog);
      assert step[..|step| - 1] == [step[0]];
      assert [step[0]][..0] == [];
      assert Count([step[0]], k) == if k == SongLookup then 1 else 0;
      assert Count(step, k) == (if k == SongLookup then 1 else 0) + (if k == SongplayWrite then 1 else 0);
    }
  }

  /**
   * A log file of N events of which M are not NextSong events issues exactly
   * N - M time inserts, N - M user writes, N - M lookups and N - M songplay
   * inserts, and no other statement, commit or report.
   */
  lemma LogFileCounts(events: seq<LogEvent>, catalog: SongQuery -> seq<SongMatch>, k: EffectKind)
    ensures Count(LogFileEffects(events, catalog), k)
            == if k == TimeWrite || k == UserWrite || k == SongLookup || k == SongplayWrite
               then |events| - NonPlayCount(events) else 0
  {
    var plays := Plays(events);
    PlaysCount(events);
    var a, b, c := TimeInserts(TimeTable(plays)), UserInserts(UserTable(plays)), SongplaySteps(plays, catalog);
    CountConcat(a + b, c, k);
    CountConcat(a, b, k);
    TimeInsertsCount(TimeTable(plays), k);
    UserInsertsCount(UserTable(plays), k);
    SongplayStepsCount(plays, catalog, k);
  }

  /** The statements an event can give rise to. */
  predicate DerivedFrom(x: Effect, e: LogEvent, catalog: SongQuery -> seq<SongMatch>) {
    || x == Execute(InsertTime(TimeRowOf(ToTimestamp(e.ts))))
    || x == Execute(InsertUser(UserRowOf(e)))
    || x == Execute(SelectSong(QueryOf(e)))
    || x == Execute(InsertSongplay(SongplayRowOf(e, FirstRow(catalog(QueryOf(e))))))
  }

  /** Every time insert inserts one of the rows. */
  lemma TimeInsertsDerived(rows: seq<TimeRow>)
    ensures forall x <- TimeInserts(rows) :: exists r <- rows :: x == Execute(InsertTime(r))
  {
    TimeInsertsAt(rows);
    forall x <- TimeInserts(rows)
      ensures exists r <- rows :: x == Execute(InsertTime(r))
    {
      var k :| 0 <= k < |rows| && TimeInserts(rows)[k] == x;
      assert rows[k] in rows;
    }
  }

  /** Every row of the time table is the time row of one of the events. */
  lemma TimeTableDerived(plays: seq<LogEvent>)
    ensures forall r <- TimeTable(plays) :: exists e <- plays :: r == TimeRowOf(ToTimestamp(e.ts))
  {
    var rows := TimeTable(plays);
    forall r <- rows
      ensures exists e <- plays :: r == TimeRowOf(ToTimestamp(e.ts))
    {
      var k :| 0 <= k < |rows| && rows[k] == r;
      assert plays[k] in plays;
    }
  }

  /** Every user write is built from one of the events. */
  lemma UserInsertsDerived(plays: seq<LogEvent>)
    ensures forall x <- UserInserts(UserTable(plays)) :: exists e <- plays :: x == Execute(InsertUser(UserRowOf(e)))
  {
    var rows := UserTable(plays);
    UserInsertsAt(rows);
    forall x <- UserInserts(rows)
      ensures exists e <- plays :: x == Execute(InsertUser(UserRowOf(e)))
    {
      var k :| 0 <= k < |rows| && UserInserts(rows)[k] == x;
      assert plays[k] in plays;
    }
  }

  /** Every lookup and songplay insert is built from one of the events. */
  lemma SongplayStepsDerived(plays: seq<LogEvent>, catalog: SongQuery -> seq<SongMatch>)
    ensures forall x <- SongplaySteps(plays, catalog) ::
              exists e <- plays ::
                || x == Execute(SelectSong(QueryOf(e)))
                || x == Execute(InsertSongplay(SongplayRowOf(e, FirstRow(catalog(QueryOf(e))))))
  {
    var steps := SongplaySteps(plays, catalog);
    SongplayStepsAt(plays, catalog);
    forall x <- steps
      ensures exists e <- plays ::
                || x == Execute(SelectSong(QueryOf(e)))
                || x == Execute(InsertSongplay(SongplayRowOf(e, FirstRow(catalog(QueryOf(e))))))
    {
      var m :| 0 <= m < |steps| && steps[m] == x;
      var k := m / 2;
      assert m == 2 * k || m == 2 * k + 1;
      assert plays[k] in plays;
    }
  }

  /** No event other than a NextSong event reaches any statement: each one is built from a NextSong event of the file. */
  lemma LogFileProvenance(events: seq<LogEvent>, catalog: SongQuery -> seq<SongMatch>)
    ensures forall x <- LogFileEffects(events, catalog) ::
              exists e <- events :: IsNextSong(e) && DerivedFrom(x, e, catalog)
  {
    var plays := Plays(events);
    var times, users, steps := TimeInserts(TimeTable(plays)), UserInserts(UserTable(plays)), SongplaySteps(plays, catalog);
    TimeInsertsDerived(TimeTable(plays));
    TimeTableDerived(plays);
    UserInsertsDerived(plays);
    SongplayStepsDerived(plays, catalog);
    PlaysKeepsNextSongs(events);
    forall x <- times + users + steps
      ensures exists e <- events :: IsNextSong(e) && DerivedFrom(x, e, catalog)
    {
      var e: LogEvent;
      if x in times {
        var r :| r in TimeTable(plays) && x == Execute(InsertTime(r));
        e :| e in plays && r == TimeRowOf(ToTimestamp(e.ts));
      } else if x in users {
        e :| e in plays && x == Execute(InsertUser(UserRowOf(e)));
      } else {
        e :| e in plays && (|| x == Execute(SelectSong(QueryOf(e)))
                            || x == Execute(InsertSongplay(SongplayRowOf(e, FirstRow(catalog(QueryOf(e)))))));
      }
      assert DerivedFrom(x, e, catalog);
    }
  }

  /** Events that are not NextSong events can be dropped from a log file without changing what it writes. */
  lemma LogFileIgnoresOtherEvents(events: seq<LogEvent>, catalog: SongQuery -> seq<SongMatch>)
    ensures LogFileEffects(events, catalog) == LogFileEffects(Plays(events), catalog)
  {
    PlaysIdempotent(events);
  }

  /** Two NextSong events in log order have ranks in the same order, and are found at those ranks. */
  lemma RankedPair(events: seq<LogEvent>, i: nat, j: nat)
    requires i < j < |events| && IsNextSong(events[i]) && IsNextSong(events[j])
    ensures PlayRank(events, i) < PlayRank(events, j) < |Plays(events)|
    ensures Plays(events)[PlayRank(events, i)] == events[i] && Plays(events)[PlayRank(events, j)] == events[j]
  {
    PlayRankFinds(events, i);
    PlayRankFinds(events, j);
    PlayRankMonotonic(events, i, j);
  }

  /**
   * Log order is kept in every table. A log file's statements are its time
   * inserts, then its user writes, then its songplay steps (a lookup and an
   * insert per event); for NextSong events i < j of the file, whose ranks
   * among the NextSong events are ri < rj, each block holds event i's rows at
   * rank ri, before event j's at rank rj.
   */
  lemma LogFileOrder(events: seq<LogEvent>, catalog: SongQuery -> seq<SongMatch>, i: nat, j: nat)
    requires i < j < |events| && IsNextSong(events[i]) && IsNextSong(events[j])
    ensures var plays := Plays(events);
            var times, users, steps := TimeInserts(TimeTable(plays)), UserInserts(UserTable(plays)), SongplaySteps(plays, catalog);
            var ri, rj := PlayRank(events, i), PlayRank(events, j);
            && LogFileEffects(events, catalog) == times + users + steps
            && ri < rj < |plays| && |times| == |users| == |plays| && |steps| == 2 * |plays|
            && times[ri] == Execute(InsertTime(TimeRowOf(ToTimestamp(events[i].ts))))
            && times[rj] == Execute(InsertTime(TimeRowOf(ToTimestamp(events[j].ts))))
            && users[ri] == Execute(InsertUser(UserRowOf(events[i])))
            && users[rj] == Execute(InsertUser(UserRowOf(events[j])))
            && steps[2 * ri + 1] == Execute(InsertSongplay(SongplayRowOf(events[i], FirstRow(catalog(QueryOf(events[i]))))))
            && steps[2 * rj + 1] == Execute(InsertSongplay(SongplayRowOf(events[j], FirstRow(catalog(QueryOf(events[j]))))))
  {
    var plays := Plays(events);
    RankedPair(events, i, j);
    TimeInsertsAt(TimeTable(plays));
    UserInsertsAt(UserTable(plays));
    SongplayStepsAt(plays, catalog);
  }

  /**
   * Each songplay row is stamped with the same instant as the time row of its
   * event: the event's ts converted from epoch milliseconds.
   */
  lemma LogFileTimestampsAgree(events: seq<LogEvent>, catalog: SongQuery -> seq<SongMatch>, k: nat)
    requires k < |Plays(events)|
    ensures var plays := Plays(events);
            var times, steps := TimeInserts(TimeTable(plays)), SongplaySteps(plays, catalog);
            && |times| == |plays| && |steps| == 2 * |plays|
            && times[k].Execute? && times[k].stmt.InsertTime?
            && steps[2 * k + 1].Execute? && steps[2 * k + 1].stmt.InsertSongplay?
            && times[k].stmt.time.start == steps[2 * k + 1].stmt.songplay.start == ToTimestamp(plays[k].ts)
  {
    LogFileLayout(events, catalog);
  }

  // ---------------------------------------------------------------------
  // Log files: the last user write
  // ---------------------------------------------------------------------

  /** The last NextSong event of a user in a log, if any. */
  function LastPlayBy(events: seq<LogEvent>, userId: string): Option<LogEvent> {
    if events == [] then None
    else
      var e := events[|events| - 1];
      if IsNextSong(e) && e.userId == userId then Some(e) else LastPlayBy(events[..|events| - 1], userId)
  }

  /** The last row of a user in a table of user rows, if any. */
  function LastUserRow(rows: seq<UserRow>, userId: string): Option<UserRow> {
    if rows == [] then None
    else if rows[|rows| - 1].userId == userId then Some(rows[|rows| - 1])
    else LastUserRow(rows[..|rows| - 1], userId)
  }

  lemma {:induction false} TimeInsertsWriteNoUser(rows: seq<TimeRow>, userId: string)
    ensures LastUserWrite(TimeInserts(rows), userId) == None
  {
    if rows != [] {
      TimeInsertsWriteNoUser(rows[..|rows| - 1], userId);
      LastUserWriteConcat(TimeInserts(rows[..|rows| - 1]), [Execute(InsertTime(rows[|rows| - 1]))], userId);
      assert [Execute(InsertTime(rows[|rows| - 1]))][..0] == [];
    }
  }

  lemma {:induction false} SongplayStepsWriteNoUser(plays: seq<LogEvent>, catalog: SongQuery -> seq<SongMatch>, userId: string)
    ensures LastUserWrite(SongplaySteps(plays, catalog), userId) == None
  {
    if plays != [] {
      var step := SongplayStep(plays[|plays| - 1], catalog);
      SongplayStepsWriteNoUser(plays[..|plays| - 1], catalog, userId);
      LastUserWriteConcat(SongplaySteps(plays[..|plays| - 1], catalog), step, userId);
      assert step[..|step| - 1] == [step[0]];
      assert [step[0]][..0] == [];
      assert LastUserWrite([step[0]], userId) == None;
    }
  }

  lemma {:induction false} UserInsertsLastWrite(rows: seq<UserRow>, userId: string)
    ensures LastUserWrite(UserInserts(rows), userId) == LastUserRow(rows, userId)
  {
    if rows != [] {
      UserInsertsLastWrite(rows[..|rows| - 1], userId);
      LastUserWriteConcat(UserInserts(rows[..|rows| - 1]), [Execute(InsertUser(rows[|rows| - 1]))], userId);
      assert [Execute(InsertUser(rows[|rows| - 1]))][..0] == [];
    }
  }

  lemma {:induction false} UserTableLastRow(plays: seq<LogEvent>, userId: string)
    requires forall e <- plays :: IsNextSong(e)
    ensures LastUserRow(UserTable(plays), userId)
            == if LastPlayBy(plays, userId).Some? then Some(UserRowOf(LastPlayBy(plays, userId).value)) else None
  {
    if plays != [] {
      var init := plays[..|plays| - 1];
      assert UserTable(plays)[..|plays| - 1] == UserTable(init);
      UserTableLastRow(init, userId);
    }
  }

  lemma {:induction false} PlaysLastPlayBy(events: seq<LogEvent>, userId: string)
    ensures LastPlayBy(Plays(events), userId) == LastPlayBy(events, userId)
  {
    if events != [] {
      var init, e := events[..|events| - 1], events[|events| - 1];
      assert events == init + [e];
      PlaysConcat(init, [e]);
      assert [e][1..] == [];
      PlaysLastPlayBy(init, userId);
      var tail := if IsNextSong(e) then [e] else [];
      assert Plays(events) == Plays(init) + tail;
      if !IsNextSong(e) {
        assert Plays(events) == Plays(init);
      } else {
        assert Plays(events)[..|Plays(events)| - 1] == Plays(init);
      }
    }
  }

  /**
   * The last user write a log file issues for a user id is the user row of
   * that user's last NextSong event in the file, and there is none when the
   * user has no NextSong event.
   */
  lemma LogFileLastUserWrite(events: seq<LogEvent>, catalog: SongQuery -> seq<SongMatch>, userId: string)
    ensures LastUserWrite(LogFileEffects(events, catalog), userId)
            == if LastPlayBy(events, userId).Some? then Some(UserRowOf(LastPlayBy(events, userId).value)) else None
  {
    var plays := Plays(events);
    var a, b, c := TimeInserts(TimeTable(plays)), UserInserts(UserTable(plays)), SongplaySteps(plays, catalog);
    LastUserWriteConcat(a + b, c, userId);
    LastUserWriteConcat(a, b, userId);
    TimeInsertsWriteNoUser(TimeTable(plays), userId);
    SongplayStepsWriteNoUser(plays, catalog, userId);
    UserInsertsLastWrite(UserTable(plays), userId);
    PlaysKeepsNextSongs(events);
    UserTableLastRow(plays, userId);
    PlaysLastPlayBy(events, userId);
  }
}
