/**
 * The migration that moves the book genre strings into a `genre` table:
 * `up` creates the table, copies every distinct non-empty genre into it with
 * a look-up-then-insert, points each book at its genre row through a new
 * `genreId` column and drops the old string column; `down` restores the
 * strings from the rows and removes `genreId` and the table again.
 *
 * The two tables are held as rows: `book` as `BookRow`s and `genre` as
 * `GenreRow`s, with the auto-increment counter of `genre`.
 */
module GenreMigration {
  import opened Wrappers

  /** A `book` row, reduced to the columns the migration touches; a column that is absent reads `None`. */
  datatype BookRow = BookRow(id: int, genre: Option<string>, genreId: Option<int>)

  datatype GenreRow = GenreRow(id: int, genre: string)

  /** The two tables and the next auto-increment id of `genre`. */
  datatype Tables = Tables(books: seq<BookRow>, genres: seq<GenreRow>, nextId: int)

  /** JavaScript truthiness of a genre string: `null` and `''` are falsy. */
  predicate Truthy(s: Option<string>) {
    s.Some? && s.value != ""
  }

  /** JavaScript truthiness of a `genreId`: `null` and `0` are falsy. */
  predicate TruthyId(n: Option<int>) {
    n.Some? && n.value != 0
  }

  /** `id` is the primary key of `book`. */
  predicate UniqueIds(books: seq<BookRow>) {
    forall i, j :: 0 <= i < j < |books| ==> books[i].id != books[j].id
  }

  /** The auto-increment ids of `genre` are positive, distinct and below the counter. */
  predicate GoodIds(genres: seq<GenreRow>, nextId: int) {
    1 <= nextId
    && (forall i :: 0 <= i < |genres| ==> 1 <= genres[i].id < nextId)
    && (forall i, j :: 0 <= i < j < |genres| ==> genres[i].id != genres[j].id)
  }

  // ------------------------------------------------------------ queries

  /** `knex('genre').where('genre', name)`, first row of the result. */
  function Lookup(genres: seq<GenreRow>, name: string): (r: Option<GenreRow>)
    ensures r.Some? ==> r.value in genres && r.value.genre == name
    ensures r.None? <==> forall i :: 0 <= i < |genres| ==> genres[i].genre != name
  {
    if genres == [] then None
    else if genres[0].genre == name then Some(genres[0])
    else Lookup(genres[1..], name)
  }

  /** `knex('genre').where('id', id).first()`. */
  function FindById(genres: seq<GenreRow>, id: int): (r: Option<GenreRow>)
    ensures r.Some? ==> r.value in genres && r.value.id == id
    ensures r.None? <==> forall i :: 0 <= i < |genres| ==> genres[i].id != id
  {
    if genres == [] then None
    else if genres[0].id == id then Some(genres[0])
    else FindById(genres[1..], id)
  }

  /** A row first in its table is what a look-up finds, also after rows are appended. */
  lemma {:induction false} LookupAppend(a: seq<GenreRow>, b: seq<GenreRow>, name: string)
    ensures Lookup(a + b, name) == if Lookup(a, name).Some? then Lookup(a, name) else Lookup(b, name)
  {
    if a == [] {
      assert a + b == b;
    } else {
      assert (a + b)[1..] == a[1..] + b;
      LookupAppend(a[1..], b, name);
    }
  }

  /** With distinct ids, the row with a row's id is that row. */
  lemma {:induction false} FindByOwnId(genres: seq<GenreRow>, i: int)
    requires 0 <= i < |genres|
    requires forall a, b :: 0 <= a < b < |genres| ==> genres[a].id != genres[b].id
    ensures FindById(genres, genres[i].id) == Some(genres[i])
  {
    if i > 0 {
      assert genres[0].id != genres[i].id;
      assert genres[1..][i - 1] == genres[i];
      FindByOwnId(genres[1..], i - 1);
    }
  }

  /** `knex('book').where('genre', name).update({ genreId: id })`. */
  function SetGenreId(books: seq<BookRow>, name: string, id: int): (r: seq<BookRow>)
    ensures |r| == |books|
    ensures forall k :: 0 <= k < |books| ==>
      r[k] == if books[k].genre == Some(name) then books[k].(genreId := Some(id)) else books[k]
  {
    seq(|books|, k requires 0 <= k < |books| =>
      if books[k].genre == Some(name) then books[k].(genreId := Some(id)) else books[k])
  }

  /** `knex('book').where('id', id).update({ genre: name })`. */
  function SetGenreWhereId(books: seq<BookRow>, id: int, name: string): (r: seq<BookRow>)
    ensures |r| == |books|
    ensures forall k :: 0 <= k < |books| ==>
      r[k] == if books[k].id == id then books[k].(genre := Some(name)) else books[k]
  {
    seq(|books|, k requires 0 <= k < |books| =>
      if books[k].id == id then books[k].(genre := Some(name)) else books[k])
  }

  /** Adding the nullable `genreId` column, or dropping it: every row reads `null`. */
  function WithoutGenreIds(books: seq<BookRow>): (r: seq<BookRow>)
    ensures |r| == |books|
    ensures forall k :: 0 <= k < |books| ==> r[k] == books[k].(genreId := None)
  {
    seq(|books|, k requires 0 <= k < |books| => books[k].(genreId := None))
  }

  /** Adding the `genre` string column, or dropping it: every row reads `null`. */
  function WithoutGenres(books: seq<BookRow>): (r: seq<BookRow>)
    ensures |r| == |books|
    ensures forall k :: 0 <= k < |books| ==> r[k] == books[k].(genre := None)
  {
    seq(|books|, k requires 0 <= k < |books| => books[k].(genre := None))
  }

  // ------------------------------------------------------------ up, step 3

  /**
   * One pass of the `for` loop of `up`: skip a falsy genre; otherwise look
   * the name up, insert it when it is missing, and set `genreId` on every
   * book with that genre.
   */
  function CopyGenre(t: Tables, record: Option<string>): Tables {
    if !Truthy(record) then t
    else
      var name := record.value;
      match Lookup(t.genres, name)
      case Some(row) => t.(books := SetGenreId(t.books, name, row.id))
      case None => Tables(SetGenreId(t.books, name, t.nextId), t.genres + [GenreRow(t.nextId, name)], t.nextId + 1)
  }

  /** The whole loop over the `DISTINCT` result, record after record. */
  function CopyGenres(t: Tables, records: seq<Option<string>>): Tables {
    if records == [] then t
    else CopyGenre(CopyGenres(t, records[..|records| - 1]), records[|records| - 1])
  }

  /** The loop changes only `genreId`, and only appends to the genre rows. */
  lemma {:induction false} CopyGenresKeepsRows(t: Tables, records: seq<Option<string>>)
    ensures var r := CopyGenres(t, records);
      && |r.books| == |t.books|
      && (forall k :: 0 <= k < |t.books| ==> r.books[k].id == t.books[k].id && r.books[k].genre == t.books[k].genre)
      && t.genres <= r.genres
  {
    if records != [] {
      CopyGenresKeepsRows(t, records[..|records| - 1]);
    }
  }

  /** Inserted rows take the counter's value and advance it, so the ids stay good. */
  lemma {:induction false} CopyGenresKeepsIds(t: Tables, records: seq<Option<string>>)
    requires GoodIds(t.genres, t.nextId)
    ensures GoodIds(CopyGenres(t, records).genres, CopyGenres(t, records).nextId)
  {
    if records != [] {
      CopyGenresKeepsIds(t, records[..|records| - 1]);
    }
  }

  /**
   * Look-up precedes insert: after the loop every genre row is the first row
   * with its name, so no name is inserted twice, and every row the loop
   * added carries a name from the records.
   */
  lemma {:induction false} CopyGenresRows(t: Tables, records: seq<Option<string>>)
    requires forall i :: 0 <= i < |t.genres| ==> Lookup(t.genres, t.genres[i].genre) == Some(t.genres[i])
    ensures var r := CopyGenres(t, records);
      && (forall i :: 0 <= i < |r.genres| ==> Lookup(r.genres, r.genres[i].genre) == Some(r.genres[i]))
      && (forall i :: |t.genres| <= i < |r.genres| ==> Some(r.genres[i].genre) in records)
      && (forall g :: Truthy(Some(g)) && Some(g) in records ==> Lookup(r.genres, g).Some?)
  {
    if records != [] {
      var front, last := records[..|records| - 1], records[|records| - 1];
      CopyGenresRows(t, front);
      CopyGenresKeepsRows(t, front);
      var s := CopyGenres(t, front);
      var r := CopyGenre(s, last);
      if Truthy(last) && Lookup(s.genres, last.value).None? {
        var row := GenreRow(s.nextId, last.value);
        forall i | 0 <= i < |r.genres| ensures Lookup(r.genres, r.genres[i].genre) == Some(r.genres[i]) {
          LookupAppend(s.genres, [row], r.genres[i].genre);
          if i == |s.genres| {
            assert r.genres[i] == row;
          } else {
            assert r.genres[i] == s.genres[i];
          }
        }
        forall g | Truthy(Some(g)) && Some(g) in records ensures Lookup(r.genres, g).Some? {
          LookupAppend(s.genres, [row], g);
        }
      }
      forall i | |t.genres| <= i < |r.genres| ensures Some(r.genres[i].genre) in records {
        if i < |s.genres| {
          assert r.genres[i] == s.genres[i];
        }
      }
    }
  }

  /** The id of the genre row named `name`, if there is one. */
  function IdOf(genres: seq<GenreRow>, name: string): (r: Option<int>)
    ensures r.Some? <==> Lookup(genres, name).Some?
    ensures r.Some? ==> r == Some(Lookup(genres, name).value.id)
  {
    match Lookup(genres, name)
    case Some(row) => Some(row.id)
    case None => None
  }

  /**
   * The backfill: a book whose genre is one of the truthy records points at
   * the genre row of that name; every other book keeps its `genreId`.
   */
  lemma {:induction false} CopyGenresIds(t: Tables, records: seq<Option<string>>)
    ensures var r := CopyGenres(t, records);
      |r.books| == |t.books| &&
      forall k :: 0 <= k < |t.books| ==>
        r.books[k].genreId ==
          if Truthy(t.books[k].genre) && t.books[k].genre in records then IdOf(r.genres, t.books[k].genre.value)
          else t.books[k].genreId
  {
    if records != [] {
      var front, last := records[..|records| - 1], records[|records| - 1];
      CopyGenresIds(t, front);
      CopyGenresKeepsRows(t, front);
      var s := CopyGenres(t, front);
      var r := CopyGenre(s, last);
      assert records == front + [last];
      forall k | 0 <= k < |t.books|
        ensures r.books[k].genreId ==
          if Truthy(t.books[k].genre) && t.books[k].genre in records then IdOf(r.genres, t.books[k].genre.value)
          else t.books[k].genreId
      {
        var g := t.books[k].genre;
        if Truthy(last) {
          var name := last.value;
          if Lookup(s.genres, name).None? {
            var row := GenreRow(s.nextId, name);
            assert r.genres == s.genres + [row];
            if Truthy(g) {
              LookupAppend(s.genres, [row], g.value);
            }
          }
        }
      }
    }
  }

  /** Two genre rows never share a name once every row is the one a look-up by its name finds. */
  lemma {:induction false} LookupFindsFirst(genres: seq<GenreRow>, i: int)
    requires 0 <= i < |genres|
    ensures exists j :: 0 <= j <= i && Lookup(genres, genres[i].genre) == Some(genres[j])
  {
    if genres[0].genre == genres[i].genre {
      assert Lookup(genres, genres[i].genre) == Some(genres[0]);
    } else {
      assert genres[1..][i - 1] == genres[i];
      LookupFindsFirst(genres[1..], i - 1);
      var j :| 0 <= j <= i - 1 && Lookup(genres[1..], genres[i].genre) == Some(genres[1..][j]);
      assert Lookup(genres, genres[i].genre) == Some(genres[j + 1]);
    }
  }

  // ------------------------------------------------------------ down, step 2

  /** The name `down` copies for a `genreId`: none for a falsy id or one no genre row has. */
  function Named(genres: seq<GenreRow>, genreId: Option<int>): (r: Option<string>)
    ensures r.Some? <==> TruthyId(genreId) && FindById(genres, genreId.value).Some?
    ensures r.Some? ==> r == Some(FindById(genres, genreId.value).value.genre)
  {
    if !TruthyId(genreId) then None
    else
      match FindById(genres, genreId.value)
      case Some(row) => Some(row.genre)
      case None => None
  }

  /** One pass of the `for` loop of `down`, for the selected row `row`. */
  function RestoreGenre(books: seq<BookRow>, genres: seq<GenreRow>, row: BookRow): seq<BookRow> {
    match Named(genres, row.genreId)
    case Some(name) => SetGenreWhereId(books, row.id, name)
    case None => books
  }

  /** The whole loop over the selected rows, row after row. */
  function RestoreGenres(books: seq<BookRow>, genres: seq<GenreRow>, rows: seq<BookRow>): seq<BookRow> {
    if rows == [] then books
    else RestoreGenre(RestoreGenres(books, genres, rows[..|rows| - 1]), genres, rows[|rows| - 1])
  }

  /**
   * Over the book table itself, with its primary key, the loop gives each
   * book the name of its genre row and leaves a book with no or a dangling
   * `genreId` as it was.
   */
  lemma {:induction false} RestoreGenresRows(books: seq<BookRow>, genres: seq<GenreRow>, i: int)
    requires UniqueIds(books) && 0 <= i <= |books|
    ensures var r := RestoreGenres(books, genres, books[..i]);
      |r| == |books| &&
      forall k :: 0 <= k < |books| ==>
        r[k] == if k < i && Named(genres, books[k].genreId).Some? then books[k].(genre := Named(genres, books[k].genreId))
                else books[k]
  {
    if i > 0 {
      assert books[..i][..i - 1] == books[..i - 1];
      RestoreGenresRows(books, genres, i - 1);
    }
  }

  // ------------------------------------------------------------ the whole migration on the rows

  /** The rows after `up`: the new `genreId` column backfilled by the loop, the genre string column gone. */
  function UpTables(books: seq<BookRow>, records: seq<Option<string>>): Tables {
    var t := CopyGenres(Tables(WithoutGenreIds(books), [], 1), records);
    t.(books := WithoutGenres(t.books))
  }

  /** The book rows after `down`: the null genre column filled by the loop, `genreId` gone. */
  function DownBooks(books: seq<BookRow>, genres: seq<GenreRow>): seq<BookRow> {
    var added := WithoutGenres(books);
    WithoutGenreIds(RestoreGenres(added, genres, added))
  }

  /** `records` holds every value of the book genre column, as `SELECT DISTINCT` returns it. */
  predicate Covers(books: seq<BookRow>, records: seq<Option<string>>) {
    forall k :: 0 <= k < |books| ==> books[k].genre in records
  }

  /**
   * `up` gives every distinct non-empty genre exactly one genre row, and
   * points every book with that genre at the row; a book with an empty or
   * null genre keeps a null `genreId`.
   */
  lemma UpNormalises(books: seq<BookRow>, records: seq<Option<string>>)
    requires Covers(books, records)
    ensures var u := UpTables(books, records);
      && |u.books| == |books|
      && (forall k :: 0 <= k < |books| ==> u.books[k].id == books[k].id && u.books[k].genre.None?)
      && (forall k :: 0 <= k < |books| && Truthy(books[k].genre) ==>
            Lookup(u.genres, books[k].genre.value).Some? && u.books[k].genreId == IdOf(u.genres, books[k].genre.value))
      && (forall k :: 0 <= k < |books| && !Truthy(books[k].genre) ==> u.books[k].genreId.None?)
      && (forall i, j :: 0 <= i < j < |u.genres| ==> u.genres[i].genre != u.genres[j].genre)
      && (forall i :: 0 <= i < |u.genres| ==> Some(u.genres[i].genre) in records && u.genres[i].genre != "")
  {
    var t0 := Tables(WithoutGenreIds(books), [], 1);
    var c := CopyGenres(t0, records);
    CopyGenresKeepsRows(t0, records);
    CopyGenresIds(t0, records);
    CopyGenresRows(t0, records);
    CopyGenresKeepsIds(t0, records);
    forall i, j | 0 <= i < j < |c.genres| ensures c.genres[i].genre != c.genres[j].genre {
      if c.genres[i].genre == c.genres[j].genre {
        LookupFindsFirst(c.genres, i);
      }
    }
    forall i | 0 <= i < |c.genres| ensures c.genres[i].genre != "" {
      CopyGenresNamesTruthy(t0, records, i);
    }
  }

  /** Only truthy records are inserted. */
  lemma {:induction false} CopyGenresNamesTruthy(t: Tables, records: seq<Option<string>>, i: int)
    requires |t.genres| <= i < |CopyGenres(t, records).genres|
    ensures CopyGenres(t, records).genres[i].genre != ""
  {
    var front := records[..|records| - 1];
    CopyGenresKeepsRows(t, front);
    if i < |CopyGenres(t, front).genres| {
      CopyGenresNamesTruthy(t, front, i);
    }
  }

  /**
   * The round trip: `down` after `up` gives every book back its original
   * genre string when it was non-empty, and a null genre otherwise.
   */
  lemma UpThenDown(books: seq<BookRow>, records: seq<Option<string>>)
    requires UniqueIds(books) && Covers(books, records)
    ensures var d := DownBooks(UpTables(books, records).books, UpTables(books, records).genres);
      |d| == |books| &&
      forall k :: 0 <= k < |books| ==>
        d[k] == BookRow(books[k].id, if Truthy(books[k].genre) then books[k].genre else None, None)
  {
    var u := UpTables(books, records);
    var t0 := Tables(WithoutGenreIds(books), [], 1);
    UpNormalises(books, records);
    CopyGenresKeepsIds(t0, records);
    assert u.genres == CopyGenres(t0, records).genres;
    var added := WithoutGenres(u.books);
    assert UniqueIds(added);
    RestoreGenresRows(added, u.genres, |added|);
    assert added[..|added|] == added;
    forall k | 0 <= k < |books| && Truthy(books[k].genre)
      ensures Named(u.genres, added[k].genreId) == books[k].genre
    {
      NamedOfIdOf(u.genres, CopyGenres(t0, records).nextId, books[k].genre.value);
    }
  }

  /** `down` reads back, through the id, the name of the genre row that `up` looked up. */
  lemma NamedOfIdOf(genres: seq<GenreRow>, nextId: int, name: string)
    requires GoodIds(genres, nextId) && Lookup(genres, name).Some?
    ensures Named(genres, IdOf(genres, name)) == Some(name)
  {
    var row := Lookup(genres, name).value;
    var i :| 0 <= i < |genres| && genres[i] == row;
    FindByOwnId(genres, i);
  }

  /** The tables `up` leaves keep the primary key of `book`, have good genre ids and no genre strings. */
  lemma UpTablesValid(books: seq<BookRow>, records: seq<Option<string>>)
    requires UniqueIds(books)
    ensures var u := UpTables(books, records);
      && UniqueIds(u.books) && GoodIds(u.genres, u.nextId)
      && forall k :: 0 <= k < |u.books| ==> u.books[k].genre.None?
  {
    var t0 := Tables(WithoutGenreIds(books), [], 1);
    CopyGenresKeepsRows(t0, records);
    CopyGenresKeepsIds(t0, records);
  }

  // ------------------------------------------------------------ the migration

  /** The `book` and `genre` tables, and which of the columns and tables in play exist. */
  /** Dropping the genre column of a table whose genre column is null everywhere changes no row. */
  lemma WithoutGenresOfNone(books: seq<BookRow>)
    requires forall k :: 0 <= k < |books| ==> books[k].genre.None?
    ensures WithoutGenres(books) == books
  {
    assert |WithoutGenres(books)| == |books|;
    forall k | 0 <= k < |books| ensures WithoutGenres(books)[k] == books[k] {
    }
  }

  /** `down`'s copy-back loop over the book table keeps its primary key and every `genreId`. */
  lemma RestoredValid(books: seq<BookRow>, genres: seq<GenreRow>)
    requires UniqueIds(books)
    ensures var r := RestoreGenres(books, genres, books);
      |r| == |books| && UniqueIds(r) && forall k :: 0 <= k < |books| ==> r[k].genreId == books[k].genreId
  {
    RestoreGenresRows(books, genres, |books|);
    assert books[..|books|] == books;
  }

  class Database {
    var books: seq<BookRow>
    var genres: seq<GenreRow>
    var nextGenreId: int
    var genreTable: bool          // the `genre` table exists
    var genreColumn: bool         // `book.genre` exists
    var genreIdColumn: bool       // `book.genreId` exists
    var genreIdForeignKey: bool   // the foreign key from `book.genreId` to `genre.id` exists
    var genreIdRequired: bool     // `book.genreId` is NOT NULL

    /** Which of the columns, the table and the foreign key in play exist, and whether `genreId` is required. */
    function Flags(): (bool, bool, bool, bool, bool)
      reads this
    {
      (genreTable, genreColumn, genreIdColumn, genreIdForeignKey, genreIdRequired)
    }

    /** Primary keys, the auto-increment counter, absent columns reading `null`, and the foreign key of `genreId`. */
    predicate Valid()
      reads this
    {
      UniqueIds(books) && GoodIds(genres, nextGenreId)
      && (!genreColumn ==> forall k :: 0 <= k < |books| ==> books[k].genre.None?)
      && (!genreIdColumn ==> forall k :: 0 <= k < |books| ==> books[k].genreId.None?)
      && (!genreTable ==> genres == [])
      && (genreIdColumn ==> genreTable)
      && (genreIdForeignKey ==> genreIdColumn)
    }

    /** The schema the migration starts from: `book` with its genre strings and no genre table. */
    constructor (initial: seq<BookRow>)
      requires UniqueIds(initial)
      ensures Valid()
      ensures books == WithoutGenreIds(initial) && genres == [] && nextGenreId == 1
      ensures !genreTable && genreColumn && !genreIdColumn && !genreIdForeignKey && !genreIdRequired
    {
      books := WithoutGenreIds(initial);
      genres := [];
      nextGenreId := 1;
      genreTable := false;
      genreColumn := true;
      genreIdColumn := false;
      genreIdForeignKey := false;
      genreIdRequired := false;
    }

    /**
     * `up`, given the rows of `SELECT DISTINCT genre FROM book` as `records`.
     * Creating the genre table fails when it exists, and the `DISTINCT`
     * query fails without the genre column; a failure ends the migration.
     */
    method Up(records: seq<Option<string>>) returns (ok: bool)
      requires Valid()
      modifies this
      ensures Valid()
      ensures ok <==> !old(genreTable) && old(genreColumn)
      ensures ok ==> (Tables(books, genres, nextGenreId) == UpTables(old(books), records)
        && genreTable && !genreColumn && genreIdColumn && genreIdForeignKey && genreIdRequired)
      ensures old(genreTable) ==> unchanged(this)
      ensures !old(genreTable) && !ok ==> (books == old(books) && genres == [] && nextGenreId == 1
        && genreTable && !genreColumn && genreIdColumn && genreIdForeignKey && genreIdRequired == old(genreIdRequired))
    {
      if genreTable {
        return false;
      }
      // 1. the genre table, empty, its counter at 1
      genreTable, genres, nextGenreId := true, [], 1;
      // 2. the nullable `genreId` column, with its foreign key to `genre.id`
      genreIdColumn, genreIdForeignKey, books := true, true, WithoutGenreIds(books);
      assert books == old(books);
      // 3. copy the genres
      if !genreColumn {
        return false;
      }
      CopyGenreRecords(records);
      UpTablesValid(old(books), records);
      // 4. drop the genre string column
      genreColumn, books := false, WithoutGenres(books);
      // 5. `genreId` NOT NULL
      genreIdRequired := true;
      ok := true;
    }

    /**
     * `down` as written, on MySQL. Adding the genre column fails when it
     * exists, and selecting `genreId` fails without that column. Step 3
     * drops `genreId` without dropping its foreign key first, and MySQL
     * refuses to drop a column a foreign key uses; so after `up`, `down`
     * stops there, with the names copied back and `genreId` and the genre
     * table still in place.
     */
    method Down() returns (ok: bool)
      requires Valid()
      modifies this
      ensures Valid()
      ensures ok <==> !old(genreColumn) && old(genreIdColumn) && !old(genreIdForeignKey)
      ensures ok ==> (books == DownBooks(old(books), old(genres)) && genres == []
        && !genreTable && genreColumn && !genreIdColumn && !genreIdForeignKey && !genreIdRequired)
      ensures old(genreColumn) ==> unchanged(this)
      ensures !old(genreColumn) && !ok ==> (genreColumn
        && books == (if old(genreIdColumn) then RestoreGenres(old(books), old(genres), old(books)) else old(books))
        && genres == old(genres) && nextGenreId == old(nextGenreId) && genreTable == old(genreTable)
        && genreIdColumn == old(genreIdColumn) && genreIdForeignKey == old(genreIdForeignKey)
        && genreIdRequired == old(genreIdRequired))
    {
      ok := RestoreGenreColumn();
      if !ok {
        return;
      }
      // 3. drop `genreId`: refused while its foreign key exists
      if genreIdForeignKey {
        return false;
      }
      DropGenreIdAndTable();
      WithoutGenresOfNone(old(books));
    }

    /**
     * `down` with `dropForeign('genreId')` before the `dropColumn('genreId')`
     * of step 3. Dropping a foreign key that does not exist is refused too,
     * so this `down` stops at step 3 when `genreId` has no key.
     */
    method DownDroppingForeignKey() returns (ok: bool)
      requires Valid()
      modifies this
      ensures Valid()
      ensures ok <==> !old(genreColumn) && old(genreIdColumn) && old(genreIdForeignKey)
      ensures ok ==> (books == DownBooks(old(books), old(genres)) && genres == []
        && !genreTable && genreColumn && !genreIdColumn && !genreIdForeignKey && !genreIdRequired)
      ensures old(genreColumn) ==> unchanged(this)
      ensures !old(genreColumn) && !ok ==> (genreColumn
        && books == (if old(genreIdColumn) then RestoreGenres(old(books), old(genres), old(books)) else old(books))
        && genres == old(genres) && nextGenreId == old(nextGenreId) && genreTable == old(genreTable)
        && genreIdColumn == old(genreIdColumn) && genreIdForeignKey == old(genreIdForeignKey)
        && genreIdRequired == old(genreIdRequired))
    {
      ok := RestoreGenreColumn();
      if !ok {
        return;
      }
      // 3. drop the foreign key, refused when there is none, then `genreId`
      if !genreIdForeignKey {
        return false;
      }
      genreIdForeignKey := false;
      DropGenreIdAndTable();
      WithoutGenresOfNone(old(books));
    }

    /** Steps 1 and 2 of `down`: the genre column, null everywhere, then the names copied back from `genreId`. */
    method RestoreGenreColumn() returns (ok: bool)
      requires Valid()
      modifies this
      ensures Valid()
      ensures ok <==> !old(genreColumn) && old(genreIdColumn)
      ensures old(genreColumn) ==> unchanged(this)
      ensures !old(genreColumn) ==> (genreColumn
        && books == (if old(genreIdColumn) then RestoreGenres(old(books), old(genres), old(books)) else old(books))
        && genres == old(genres) && nextGenreId == old(nextGenreId) && genreTable == old(genreTable)
        && genreIdColumn == old(genreIdColumn) && genreIdForeignKey == old(genreIdForeignKey)
        && genreIdRequired == old(genreIdRequired))
    {
      if genreColumn {
        return false;
      }
      // 1. the genre string column, null in every row
      genreColumn, books := true, WithoutGenres(books);
      WithoutGenresOfNone(old(books));
      // 2. copy the names back
      if !genreIdColumn {
        return false;
      }
      RestoreGenreNames();
      RestoredValid(old(books), old(genres));
      ok := true;
    }

    /** Steps 3 and 4 of `down` once nothing refers to `genreId`: drop it, then the genre table. */
    method DropGenreIdAndTable()
      requires Valid() && genreColumn && !genreIdForeignKey
      modifies this
      ensures Valid()
      ensures books == WithoutGenreIds(old(books)) && genres == [] && nextGenreId == old(nextGenreId)
      ensures !genreTable && genreColumn && !genreIdColumn && !genreIdForeignKey && !genreIdRequired
    {
      // 3. drop `genreId`
      genreIdColumn, genreIdRequired, books := false, false, WithoutGenreIds(books);
      assert UniqueIds(books) by {
        forall i, j | 0 <= i < j < |books| ensures books[i].id != books[j].id {
          assert books[i].id == old(books)[i].id && books[j].id == old(books)[j].id;
        }
      }
      // 4. drop the genre table
      genreTable, genres := false, [];
    }

    /** Step 3 of `up`: the `for` loop over the `DISTINCT` records, look-up then insert, then the `genreId` update. */
    method CopyGenreRecords(records: seq<Option<string>>)
      modifies this
      ensures Tables(books, genres, nextGenreId) == CopyGenres(old(Tables(books, genres, nextGenreId)), records)
      ensures Flags() == old(Flags())
    {
      ghost var start := Tables(books, genres, nextGenreId);
      for i := 0 to |records|
        invariant Tables(books, genres, nextGenreId) == CopyGenres(start, records[..i])
        invariant Flags() == old(Flags())
      {
        assert records[..i + 1][..i] == records[..i];
        var record := records[i];
        if !Truthy(record) {
          continue;
        }
        var name := record.value;
        var found := Lookup(genres, name);
        var id: int;
        if found.Some? {
          id := found.value.id;
        } else {
          id := nextGenreId;
          genres := genres + [GenreRow(id, name)];
          nextGenreId := nextGenreId + 1;
        }
        books := SetGenreId(books, name, id);
      }
      assert records[..|records|] == records;
    }

    /** Step 2 of `down`: the `for` loop over the selected rows, copying each row's genre name back. */
    method RestoreGenreNames()
      modifies this
      ensures books == RestoreGenres(old(books), genres, old(books))
      ensures genres == old(genres) && nextGenreId == old(nextGenreId)
      ensures Flags() == old(Flags())
    {
      var rows := books;
      for i := 0 to |rows|
        invariant books == RestoreGenres(rows, genres, rows[..i])
        invariant genres == old(genres) && nextGenreId == old(nextGenreId)
        invariant Flags() == old(Flags())
      {
        assert rows[..i + 1][..i] == rows[..i];
        var row := rows[i];
        if !TruthyId(row.genreId) {
          continue;
        }
        var genre := FindById(genres, row.genreId.value);
        if genre.Some? {
          books := SetGenreWhereId(books, row.id, genre.value.genre);
        }
      }
      assert rows[..|rows|] == rows;
    }
  }

  /** As written, `down` right after a successful `up` fails, whatever the books and genres. */
  method DownAfterUp(initial: seq<BookRow>, records: seq<Option<string>>) returns (up: bool, down: bool)
    requires UniqueIds(initial)
    ensures up && !down
  {
    var db := new Database(initial);
    up := db.Up(records);
    down := db.Down();
  }

  /**
   * With the foreign key dropped first, `down` right after `up` succeeds and
   * gives every book back its genre when that was non-empty.
   */
  method UpThenDownRestores(initial: seq<BookRow>, records: seq<Option<string>>)
    returns (up: bool, down: bool, restored: seq<BookRow>)
    requires UniqueIds(initial) && Covers(initial, records)
    ensures up && down && |restored| == |initial|
    ensures forall k :: 0 <= k < |initial| ==>
      restored[k] == BookRow(initial[k].id, if Truthy(initial[k].genre) then initial[k].genre else None, None)
  {
    var db := new Database(initial);
    var start := db.books;
    up := db.Up(records);
    down := db.DownDroppingForeignKey();
    restored := db.books;
    assert UniqueIds(start) by {
      forall i, j | 0 <= i < j < |start| ensures start[i].id != start[j].id {
        assert start[i].id == initial[i].id && start[j].id == initial[j].id;
      }
    }
    assert Covers(start, records) by {
      forall k | 0 <= k < |start| ensures start[k].genre in records {
        assert start[k].genre == initial[k].genre;
      }
    }
    UpThenDown(start, records);
  }
}
