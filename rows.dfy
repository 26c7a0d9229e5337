/**
 * The records read from the two kinds of data file, the rows written to the
 * five tables of the star schema, and the column expressions that turn one
 * into the other (the song and artist projections, the NextSong filter, the
 * epoch-milliseconds conversion and its calendar fields, the user and
 * songplay projections).
 */
module Rows {
  import opened Wrappers
  import opened Calendar

  /** A floating-point value (duration, length, latitude, longitude), compared only for equality. */
  datatype Float = Float(bits: int)

  /** A naive-UTC instant at millisecond resolution, identified by its epoch milliseconds. */
  datatype Timestamp = Timestamp(epochMillis: int)

  /** The record of a song file, as read from the file's JSON. */
  datatype SongRecord = SongRecord(
    songId: string,
    title: string,
    artistId: string,
    year: int,
    duration: Float,
    artistName: string,
    artistLocation: Option<string>,
    artistLatitude: Option<Float>,
    artistLongitude: Option<Float>)

  /** One line of a log file: one user-activity event. */
  datatype LogEvent = LogEvent(
    page: string,
    ts: int,
    userId: string,
    firstName: string,
    lastName: string,
    gender: string,
    level: string,
    song: string,
    artist: string,
    length: Float,
    sessionId: int,
    location: string,
    userAgent: string)

  datatype SongRow = SongRow(songId: string, title: string, artistId: string, year: int, duration: Float)

  datatype ArtistRow = ArtistRow(
    artistId: string, name: string, location: Option<string>,
    latitude: Option<Float>, longitude: Option<Float>)

  datatype TimeRow = TimeRow(
    start: Timestamp, hour: int, day: int, week: int, month: int, year: int, weekday: int)

  datatype UserRow = UserRow(userId: string, firstName: string, lastName: string, gender: string, level: string)

  /** The parameters of the song/artist lookup: title, artist name and duration. */
  datatype SongQuery = SongQuery(title: string, artistName: string, duration: Float)

  /** One row of the lookup's result: a song id and its artist id. */
  datatype SongMatch = SongMatch(songId: string, artistId: string)

  datatype SongplayRow = SongplayRow(
    start: Timestamp, userId: string, level: string,
    songId: Option<string>, artistId: Option<string>,
    sessionId: int, location: string, userAgent: string)

  // ---------------------------------------------------------------------
  // Song files
  // ---------------------------------------------------------------------

  function SongRowOf(r: SongRecord): SongRow {
    SongRow(r.songId, r.title, r.artistId, r.year, r.duration)
  }

  function ArtistRowOf(r: SongRecord): ArtistRow {
    ArtistRow(r.artistId, r.artistName, r.artistLocation, r.artistLatitude, r.artistLongitude)
  }

  // ---------------------------------------------------------------------
  // Log files
  // ---------------------------------------------------------------------

  /** The events that stand for a song being played; only these are loaded. */
  predicate IsNextSong(e: LogEvent) {
    e.page == "NextSong"
  }

  /** The NextSong events of a log, in log order. */
  function Plays(events: seq<LogEvent>): (r: seq<LogEvent>)
    ensures |r| <= |events|
  {
    if events == [] then []
    else (if IsNextSong(events[0]) then [events[0]] else []) + Plays(events[1..])
  }

  /** The number of events of a log that are not NextSong events. */
  function NonPlayCount(events: seq<LogEvent>): nat {
    if events == [] then 0
    else (if IsNextSong(events[0]) then 0 else 1) + NonPlayCount(events[1..])
  }

  /** Position in the filtered log of the event at position i of the whole log. */
  function PlayRank(events: seq<LogEvent>, i: nat): nat
    requires i <= |events|
  {
    |Plays(events[..i])|
  }

  /**
   * The largest magnitude, in epoch milliseconds, of a pandas datetime: the
   * instant is held in nanoseconds as a signed 64-bit integer, whose least
   * value is reserved for NaT, so ts * 10^6 must lie within +-(2^63 - 1).
   */
  const MaxDatetimeMillis := 9223372036854

  /** Whether pandas can convert epoch milliseconds ts to a datetime. */
  predicate InDatetimeRange(ts: int) {
    -MaxDatetimeMillis <= ts <= MaxDatetimeMillis
  }

  /** Converts epoch milliseconds to a naive-UTC timestamp. */
  function ToTimestamp(ts: int): Timestamp {
    Timestamp(ts)
  }

  /** The number of whole days from 1970-01-01 to an instant (floor division). */
  function DayIndex(t: Timestamp): int {
    t.epochMillis / MillisPerDay
  }

  /** The time-dimension row of an instant: its hour, civil date, ISO week and weekday. */
  function TimeRowOf(t: Timestamp): TimeRow {
    var n := DayIndex(t);
    var date := CivilFromDays(n);
    TimeRow(t, (t.epochMillis % MillisPerDay) / MillisPerHour, date.day,
            IsoYearAndWeek(n).week, date.month, date.year, Weekday(n))
  }

  function UserRowOf(e: LogEvent): UserRow {
    UserRow(e.userId, e.firstName, e.lastName, e.gender, e.level)
  }

  function QueryOf(e: LogEvent): SongQuery {
    SongQuery(e.song, e.artist, e.length)
  }

  /** The row a cursor's fetchone yields from a result: the first one, if any. */
  function FirstRow(results: seq<SongMatch>): (r: Option<SongMatch>)
    ensures r.None? <==> results == []
    ensures r.Some? ==> r.value == results[0]
  {
    if results == [] then None else Some(results[0])
  }

  /** A stricter resolution that accepts only an unambiguous result. */
  function UniqueRow(results: seq<SongMatch>): (r: Option<SongMatch>)
    ensures r.Some? <==> |results| == 1
    ensures r.Some? ==> r.value == results[0]
  {
    if |results| == 1 then Some(results[0]) else None
  }

  /** The songplay row of an event, with the ids of the song found for it, if any. */
  function SongplayRowOf(e: LogEvent, found: Option<SongMatch>): SongplayRow {
    var (songId, artistId) :=
      if found.Some? then (Some(found.value.songId), Some(found.value.artistId)) else (None, None);
    SongplayRow(ToTimestamp(e.ts), e.userId, e.level, songId, artistId, e.sessionId, e.location, e.userAgent)
  }

  // ---------------------------------------------------------------------
  // Properties
  // ---------------------------------------------------------------------

  /**
   * A time row is a calendar reading of its start instant: the hour holds the
   * instant within its day, the civil date is valid and is the instant's day,
   * the weekday and week are in range, and the day lies in the numbered week
   * of its ISO year.
   */
  predicate WellFormedTimeRow(r: TimeRow) {
    var n := DayIndex(r.start);
    && 0 <= r.hour <= 23
    && n * MillisPerDay + r.hour * MillisPerHour <= r.start.epochMillis
    && r.start.epochMillis < n * MillisPerDay + (r.hour + 1) * MillisPerHour
    && 1 <= r.month <= 12
    && 1 <= r.day <= DaysInMonth(r.year, r.month)
    && DaysFromCivil(Date(r.year, r.month, r.day)) == n
    && 0 <= r.weekday <= 6
    && 1 <= r.week <= 53
    && InIsoWeek(n, IsoYearAndWeek(n).isoYear, r.week)
  }

  /**
   * Every time row is a well-formed calendar reading of its instant: the hour
   * holds the instant within its day, the civil date is valid and maps back to
   * the instant's day index, the weekday and ISO week are in range, and the
   * day lies in the numbered week of its ISO year.
   */
  lemma TimeRowWellFormed(t: Timestamp)
    ensures var r := TimeRowOf(t);
            && r.start == t
            && 0 <= r.hour <= 23
            && DayIndex(t) * MillisPerDay + r.hour * MillisPerHour <= t.epochMillis
            && t.epochMillis < DayIndex(t) * MillisPerDay + (r.hour + 1) * MillisPerHour
            && 1 <= r.month <= 12
            && 1 <= r.day <= DaysInMonth(r.year, r.month)
            && DaysFromCivil(Date(r.year, r.month, r.day)) == DayIndex(t)
            && 0 <= r.weekday <= 6
            && 1 <= r.week <= 53
            && InIsoWeek(DayIndex(t), IsoYearAndWeek(DayIndex(t)).isoYear, r.week)
  {
    var n := DayIndex(t);
    CivilFromDaysRoundTrip(n);
    IsoYearAndWeekCorrect(n);
    var ms := t.epochMillis % MillisPerDay;
    var h := ms / MillisPerHour;
    assert t.epochMillis == n * MillisPerDay + ms;
    assert h * MillisPerHour <= ms < (h + 1) * MillisPerHour;
  }

  /** Day 17837 after 1970-01-01 is 2018-11-02, day 305 of 2018 counted from zero. */
  lemma CivilDayExample()
    ensures YearAndDayOfYear(17837) == YearDay(2018, 305)
    ensures CivilFromDays(17837) == Date(2018, 11, 2)
  {
    assert YearAndDayOfYear(17837) == YearDay(2018, 305);
  }

  /** ISO week 1 of 2018 starts on day 17532 (2018-01-01) and that of 2019 on day 17896 (2018-12-31). */
  lemma IsoMondaysExample()
    ensures IsoWeek1Monday(2018) == 17532 && IsoWeek1Monday(2019) == 17896
  {
    assert DaysBeforeYear(2018) == 17532;
    assert DaysBeforeYear(2019) == 17897;
  }

  /** Day 17837 lies in ISO week 44 of 2018. */
  lemma IsoDayExample()
    ensures IsoYearAndWeek(17837) == IsoWeekDate(2018, 44)
  {
    CivilDayExample();
    IsoMondaysExample();
  }

  /** The instant 1541121934796 ms is 2018-11-02 01:xx, a Friday in ISO week 44. */
  lemma TimeRowExample()
    ensures TimeRowOf(Timestamp(1541121934796)) == TimeRow(Timestamp(1541121934796), 1, 2, 44, 11, 2018, 4)
  {
    assert DayIndex(Timestamp(1541121934796)) == 17837;
    CivilDayExample();
    IsoDayExample();
  }

  /** The filtered log holds NextSong events of the log only. */
  lemma {:induction false} PlaysKeepsNextSongs(events: seq<LogEvent>)
    ensures forall e <- Plays(events) :: IsNextSong(e) && e in events
  {
    if events != [] {
      PlaysKeepsNextSongs(events[1..]);
      assert forall e <- events[1..] :: e in events;
    }
  }

  /** Filtering keeps exactly the NextSong events: N events of which M are not NextSong leave N - M. */
  lemma {:induction false} PlaysCount(events: seq<LogEvent>)
    ensures |Plays(events)| == |events| - NonPlayCount(events)
  {
    if events != [] {
      PlaysCount(events[1..]);
    }
  }

  /** Filtering commutes with concatenation, so the filtered log keeps log order. */
  lemma {:induction false} PlaysConcat(a: seq<LogEvent>, b: seq<LogEvent>)
    ensures Plays(a + b) == Plays(a) + Plays(b)
  {
    if a == [] {
      assert a + b == b;
    } else {
      var head := if IsNextSong(a[0]) then [a[0]] else [];
      assert (a + b)[0] == a[0] && (a + b)[1..] == a[1..] + b;
      calc {
        Plays(a + b);
        head + Plays(a[1..] + b);
        { PlaysConcat(a[1..], b); }
        head + (Plays(a[1..]) + Plays(b));
        (head + Plays(a[1..])) + Plays(b);
        Plays(a) + Plays(b);
      }
    }
  }

  /** Filtering an already filtered log changes nothing. */
  lemma {:induction false} PlaysIdempotent(events: seq<LogEvent>)
    ensures Plays(Plays(events)) == Plays(events)
  {
    if events != [] {
      PlaysIdempotent(events[1..]);
      var head := if IsNextSong(events[0]) then [events[0]] else [];
      PlaysConcat(head, Plays(events[1..]));
    }
  }

  /** Every NextSong event of the log appears in the filtered log, at its rank. */
  lemma PlayRankFinds(events: seq<LogEvent>, i: nat)
    requires i < |events| && IsNextSong(events[i])
    ensures PlayRank(events, i) < |Plays(events)|
    ensures Plays(events)[PlayRank(events, i)] == events[i]
  {
    assert events == events[..i] + [events[i]] + events[i + 1..];
    PlaysConcat(events[..i] + [events[i]], events[i + 1..]);
    PlaysConcat(events[..i], [events[i]]);
    assert Plays([events[i]]) == [events[i]] by {
      assert [events[i]][1..] == [];
    }
  }

  /** Ranks follow log order: a NextSong event ranks before every later NextSong event. */
  lemma PlayRankMonotonic(events: seq<LogEvent>, i: nat, j: nat)
    requires i < j <= |events| && IsNextSong(events[i])
    ensures PlayRank(events, i) < PlayRank(events, j)
  {
    assert events[..j] == events[..i] + [events[i]] + events[i + 1..j];
    PlaysConcat(events[..i] + [events[i]], events[i + 1..j]);
    PlaysConcat(events[..i], [events[i]]);
    assert Plays([events[i]]) == [events[i]] by {
      assert [events[i]][1..] == [];
    }
  }

  /**
   * The code's resolution takes the first row of the result, so it agrees with
   * the stricter "exactly one match" rule except on an ambiguous result, where
   * it picks the first match and the strict rule picks none.
   */
  lemma FirstRowVersusUnique(results: seq<SongMatch>)
    ensures |results| <= 1 ==> FirstRow(results) == UniqueRow(results)
    ensures |results| >= 2 ==> FirstRow(results) == Some(results[0]) && UniqueRow(results) == None
  {
  }

  /**
   * The songplay row of an event: both ids are null exactly when the lookup
   * returned nothing, otherwise both come from its first row; the timestamp is
   * the event's converted ts and the other columns are the event's verbatim.
   */
  lemma SongplayResolution(e: LogEvent, results: seq<SongMatch>)
    ensures var r := SongplayRowOf(e, FirstRow(results));
            && (r.songId == None && r.artistId == None <==> results == [])
            && (results != [] ==> r.songId == Some(results[0].songId) && r.artistId == Some(results[0].artistId))
            && r.start == ToTimestamp(e.ts)
            && r.userId == e.userId && r.level == e.level && r.sessionId == e.sessionId
            && r.location == e.location && r.userAgent == e.userAgent
  {
  }
}
