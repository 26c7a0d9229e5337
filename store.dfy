/**
 * An in-memory fake of the database session the loader writes through: the
 * cursor's executed statements, the connection's commits and the progress
 * lines printed between them, kept in one journal in the order they happen.
 * The SQL text of each statement and the tables' conflict rules are not part
 * of the fake: a statement is recorded by the table it targets and its row.
 */
module Store {
  import opened Wrappers
  import opened Rows

  /** A statement executed on the cursor, with its parameters. */
  datatype Stmt =
    | InsertSong(song: SongRow)
    | InsertArtist(artist: ArtistRow)
    | InsertTime(time: TimeRow)
    | InsertUser(user: UserRow)
    | SelectSong(query: SongQuery)
    | InsertSongplay(songplay: SongplayRow)

  /** An effect of the run on the outside world. */
  datatype Effect =
    | Execute(stmt: Stmt)
    | Commit
    | Progress(done: nat, total: nat)

  class Session {
    /** Everything the run has done so far, oldest first. */
    var journal: seq<Effect>

    /** What the song/artist lookup returns for each query, in the order the store returns rows. */
    const catalog: SongQuery -> seq<SongMatch>

    constructor (catalog: SongQuery -> seq<SongMatch>)
      ensures journal == [] && this.catalog == catalog
    {
      journal := [];
      this.catalog := catalog;
    }

    /** Executes one write statement. */
    method Execute(s: Stmt)
      modifies this
      ensures journal == old(journal) + [Effect.Execute(s)]
    {
      journal := journal + [Effect.Execute(s)];
    }

    /** Executes the song/artist lookup and fetches one row of its result. */
    method FetchSong(q: SongQuery) returns (found: Option<SongMatch>)
      modifies this
      ensures journal == old(journal) + [Effect.Execute(SelectSong(q))]
      ensures found == FirstRow(catalog(q))
    {
      journal := journal + [Effect.Execute(SelectSong(q))];
      found := FirstRow(catalog(q));
    }

    /** Commits the connection's open transaction. */
    method CommitTransaction()
      modifies this
      ensures journal == old(journal) + [Commit]
    {
      journal := journal + [Commit];
    }

    /** Reports that `done` of `total` files have been processed. */
    method ReportProgress(done: nat, total: nat)
      modifies this
      ensures journal == old(journal) + [Progress(done, total)]
    {
      journal := journal + [Progress(done, total)];
    }
  }

  // ---------------------------------------------------------------------
  // Views of a journal
  // ---------------------------------------------------------------------

  /** What an effect is, regardless of its parameters. */
  datatype EffectKind =
    | SongWrite | ArtistWrite | TimeWrite | UserWrite | SongLookup | SongplayWrite
    | CommitKind | ProgressKind

  function KindOf(x: Effect): EffectKind {
    match x
    case Execute(s) =>
      (match s
       case InsertSong(_) => SongWrite
       case InsertArtist(_) => ArtistWrite
       case InsertTime(_) => TimeWrite
       case InsertUser(_) => UserWrite
       case SelectSong(_) => SongLookup
       case InsertSongplay(_) => SongplayWrite)
    case Commit => CommitKind
    case Progress(_, _) => ProgressKind
  }

  /** The number of effects of kind k in a journal. */
  function Count(journal: seq<Effect>, k: EffectKind): nat {
    if journal == [] then 0
    else Count(journal[..|journal| - 1], k) + (if KindOf(journal[|journal| - 1]) == k then 1 else 0)
  }

  /** The progress reports of a journal, in order. */
  function Reports(journal: seq<Effect>): seq<(nat, nat)> {
    if journal == [] then []
    else
      var x := journal[|journal| - 1];
      Reports(journal[..|journal| - 1]) + (if x.Progress? then [(x.done, x.total)] else [])
  }

  /** The last user row a journal writes for a user id, if any. */
  function LastUserWrite(journal: seq<Effect>, userId: string): Option<UserRow> {
    if journal == [] then None
    else
      var x := journal[|journal| - 1];
      if x.Execute? && x.stmt.InsertUser? && x.stmt.user.userId == userId then Some(x.stmt.user)
      else LastUserWrite(journal[..|journal| - 1], userId)
  }

  /** Counting distributes over concatenation. */
  lemma {:induction false} CountConcat(a: seq<Effect>, b: seq<Effect>, k: EffectKind)
    ensures Count(a + b, k) == Count(a, k) + Count(b, k)
    decreases |b|
  {
    if b == [] {
      assert a + b == a;
    } else {
      assert (a + b)[..|a + b| - 1] == a + b[..|b| - 1];
      CountConcat(a, b[..|b| - 1], k);
    }
  }

  /** Progress reports distribute over concatenation. */
  lemma {:induction false} ReportsConcat(a: seq<Effect>, b: seq<Effect>)
    ensures Reports(a + b) == Reports(a) + Reports(b)
    decreases |b|
  {
    if b == [] {
      assert a + b == a;
    } else {
      assert (a + b)[..|a + b| - 1] == a + b[..|b| - 1];
      ReportsConcat(a, b[..|b| - 1]);
    }
  }

  /** The last write for a user in a + b is the last one in b, or failing that the last one in a. */
  lemma {:induction false} LastUserWriteConcat(a: seq<Effect>, b: seq<Effect>, userId: string)
    ensures LastUserWrite(a + b, userId)
            == if LastUserWrite(b, userId).Some? then LastUserWrite(b, userId) else LastUserWrite(a, userId)
    decreases |b|
  {
    if b == [] {
      assert a + b == a;
    } else {
      assert (a + b)[..|a + b| - 1] == a + b[..|b| - 1];
      LastUserWriteConcat(a, b[..|b| - 1], userId);
    }
  }
}
