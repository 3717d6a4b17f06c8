/**
 * The catalogue page script: grouping by genre, the book tile, the
 * add-to-cart buttons, and the module-level page state behind `loadBooks`
 * and the previous/next handlers.
 */
module Browse {
  import opened Wrappers
  import opened Http
  import JsText
  import Paging

  /** One entry of `data.books` (title, author, price and image are not modelled). */
  datatype Book = Book(id: int, genre: Option<string>, description: Option<string>, stockQuantity: Option<int>)

  // ---------------------------------------------------------------- grouping

  /** `book.genre || "Other"`. */
  function GenreKey(b: Book): (k: string)
    ensures k != ""
    ensures Truthy(b.genre) ==> k == b.genre.value
  {
    if Truthy(b.genre) then b.genre.value else "Other"
  }

  /** The distinct genre keys in order of first occurrence: the key order of `byGenre`. */
  function Keys(books: seq<Book>): seq<string> {
    if books == [] then []
    else
      var ks := Keys(books[..|books| - 1]);
      var k := GenreKey(books[|books| - 1]);
      if k in ks then ks else ks + [k]
  }

  /** A genre is a key exactly when some book has it. */
  lemma {:induction false} KeysMembership(books: seq<Book>, k: string)
    ensures k in Keys(books) <==> exists i :: 0 <= i < |books| && GenreKey(books[i]) == k
  {
    if books != [] {
      var front := books[..|books| - 1];
      KeysMembership(front, k);
      if exists i :: 0 <= i < |front| && GenreKey(front[i]) == k {
        var i :| 0 <= i < |front| && GenreKey(front[i]) == k;
        assert books[i] == front[i];
      }
      if exists i :: 0 <= i < |books| && GenreKey(books[i]) == k {
        var i :| 0 <= i < |books| && GenreKey(books[i]) == k;
        if i < |front| {
          assert front[i] == books[i];
        }
      }
    }
  }

  /** The books of one genre, in input order: `byGenre[key]`. */
  function InGroup(books: seq<Book>, key: string): seq<Book> {
    if books == [] then []
    else
      var last := books[|books| - 1];
      InGroup(books[..|books| - 1], key) + (if GenreKey(last) == key then [last] else [])
  }

  /** A group holds exactly the books of its genre. */
  lemma {:induction false} InGroupMembership(books: seq<Book>, key: string, x: Book)
    ensures x in InGroup(books, key) <==> x in books && GenreKey(x) == key
  {
    if books != [] {
      var front := books[..|books| - 1];
      InGroupMembership(front, key, x);
      assert books == front + [books[|books| - 1]];
    }
  }

  datatype Group = Group(genre: string, books: seq<Book>)

  /** The reference grouping: `Object.entries(byGenre)`. */
  function Groups(books: seq<Book>): seq<Group> {
    seq(|Keys(books)|, i requires 0 <= i < |Keys(books)| => Group(Keys(books)[i], InGroup(books, Keys(books)[i])))
  }

  lemma PrefixStep(books: seq<Book>, i: int)
    requires 0 <= i < |books|
    ensures Keys(books[..i + 1]) ==
      if GenreKey(books[i]) in Keys(books[..i]) then Keys(books[..i]) else Keys(books[..i]) + [GenreKey(books[i])]
    ensures forall k :: (InGroup(books[..i + 1], k)
      == InGroup(books[..i], k) + (if GenreKey(books[i]) == k then [books[i]] else []))
  {
    assert books[..i + 1][..i] == books[..i];
  }

  /**
   * The members every plain object inherits from `Object.prototype`: for
   * such a key, `byGenre[genre]` is already truthy before the script sets it.
   */
  const ObjectMembers: set<string> := {
    "constructor", "toString", "toLocaleString", "valueOf", "hasOwnProperty",
    "isPrototypeOf", "propertyIsEnumerable", "__proto__", "__defineGetter__",
    "__defineSetter__", "__lookupGetter__", "__lookupSetter__"
  }

  /** Some book's genre key names an inherited member. */
  predicate HasPrototypeKey(books: seq<Book>) {
    exists i :: 0 <= i < |books| && GenreKey(books[i]) in ObjectMembers
  }

  /**
   * The grouping loop of `renderBooksGroupedByGenre`: pushes each book onto
   * its genre's list. A key that names an inherited member skips the
   * `byGenre[genre] = []` and the `push` on the inherited value throws;
   * `None` stands for that throw.
   */
  method GroupByGenre(books: seq<Book>) returns (groups: Option<seq<Group>>)
    ensures groups.None? <==> HasPrototypeKey(books)
    ensures groups.Some? ==> groups.value == Groups(books)
  {
    var byGenre: map<string, seq<Book>> := map[];
    var order: seq<string> := [];
    for i := 0 to |books|
      invariant GroupedSoFar(books, i, byGenre, order)
      invariant forall j :: 0 <= j < i ==> GenreKey(books[j]) !in ObjectMembers
      invariant forall k :: k in byGenre ==> k !in ObjectMembers
    {
      var genre := GenreKey(books[i]);
      ghost var before, keys := byGenre, order;
      if genre !in byGenre && genre !in ObjectMembers {
        byGenre := byGenre[genre := []];
        order := order + [genre];
      }
      if genre !in byGenre {
        return None;
      }
      byGenre := byGenre[genre := byGenre[genre] + [books[i]]];
      GroupStep(books, i, before, keys, byGenre, order);
    }
    GroupedAll(books, byGenre, order);
    groups := Some(seq(|order|, j requires 0 <= j < |order| => Group(order[j], byGenre[order[j]])));
  }

  /** The loop state after the first `i` books: the keys in first-seen order, each with its books so far. */
  ghost predicate GroupedSoFar(books: seq<Book>, i: int, byGenre: map<string, seq<Book>>, order: seq<string>) {
    && 0 <= i <= |books|
    && order == Keys(books[..i])
    && (forall k :: k in byGenre <==> k in order)
    && (forall k :: k in byGenre ==> byGenre[k] == InGroup(books[..i], k))
  }

  /** One turn of the grouping loop keeps `GroupedSoFar`. */
  lemma GroupStep(books: seq<Book>, i: int, byGenre: map<string, seq<Book>>, order: seq<string>,
                  byGenre': map<string, seq<Book>>, order': seq<string>)
    requires 0 <= i < |books| && GroupedSoFar(books, i, byGenre, order)
    requires var g := GenreKey(books[i]);
      if g in byGenre then byGenre' == byGenre[g := byGenre[g] + [books[i]]] && order' == order
      else byGenre' == byGenre[g := [] + [books[i]]] && order' == order + [g]
    ensures GroupedSoFar(books, i + 1, byGenre', order')
  {
    PrefixStep(books, i);
    var g := GenreKey(books[i]);
    if g !in byGenre {
      KeysMembership(books[..i], g);
      InGroupAbsent(books[..i], g);
    }
  }

  /** After the last book, listing the map in key order gives the reference grouping. */
  lemma GroupedAll(books: seq<Book>, byGenre: map<string, seq<Book>>, order: seq<string>)
    requires GroupedSoFar(books, |books|, byGenre, order)
    ensures seq(|order|, j requires 0 <= j < |order| => Group(order[j], byGenre[order[j]])) == Groups(books)
  {
    assert books[..|books|] == books;
  }

  lemma {:induction false} KeysDistinct(books: seq<Book>)
    ensures forall i, j :: 0 <= i < j < |Keys(books)| ==> Keys(books)[i] != Keys(books)[j]
  {
    if books != [] {
      KeysDistinct(books[..|books| - 1]);
    }
  }

  /**
   * Every book lands in exactly one group: the one keyed by its genre (or
   * "Other"); no other group holds it.
   */
  lemma EachBookInOneGroup(books: seq<Book>, i: int)
    requires 0 <= i < |books|
    ensures exists j :: 0 <= j < |Groups(books)| && Groups(books)[j].genre == GenreKey(books[i])
    ensures forall j :: 0 <= j < |Groups(books)| ==>
      (books[i] in Groups(books)[j].books <==> Groups(books)[j].genre == GenreKey(books[i]))
    ensures forall j, j' :: 0 <= j < j' < |Groups(books)| ==> Groups(books)[j].genre != Groups(books)[j'].genre
  {
    KeysDistinct(books);
    var ks := Keys(books);
    KeysMembership(books, GenreKey(books[i]));
    var j :| 0 <= j < |ks| && ks[j] == GenreKey(books[i]);
    assert Groups(books)[j].genre == GenreKey(books[i]);
    forall j | 0 <= j < |Groups(books)|
      ensures books[i] in Groups(books)[j].books <==> Groups(books)[j].genre == GenreKey(books[i])
    {
      InGroupMembership(books, ks[j], books[i]);
    }
  }

  /** The sizes of the groups of `keys` over `books`. */
  function SizeSum(books: seq<Book>, keys: seq<string>): nat {
    if keys == [] then 0 else |InGroup(books, keys[0])| + SizeSum(books, keys[1..])
  }

  lemma {:induction false} SizeSumSnoc(books: seq<Book>, b: Book, keys: seq<string>)
    ensures SizeSum(books + [b], keys) == SizeSum(books, keys) + CountOf(keys, GenreKey(b))
  {
    if keys != [] {
      assert (books + [b])[..|books + [b]| - 1] == books;
      SizeSumSnoc(books, b, keys[1..]);
    }
  }

  function CountOf(keys: seq<string>, k: string): nat {
    if keys == [] then 0 else (if keys[0] == k then 1 else 0) + CountOf(keys[1..], k)
  }

  lemma {:induction false} CountOfDistinct(keys: seq<string>, k: string)
    requires forall i, j :: 0 <= i < j < |keys| ==> keys[i] != keys[j]
    requires k in keys
    ensures CountOf(keys, k) == 1
  {
    if keys[0] != k {
      CountOfDistinct(keys[1..], k);
    } else {
      CountOfAbsent(keys[1..], k);
    }
  }

  lemma {:induction false} CountOfAbsent(keys: seq<string>, k: string)
    requires k !in keys
    ensures CountOf(keys, k) == 0
  {
    if keys != [] {
      CountOfAbsent(keys[1..], k);
    }
  }

  lemma {:induction false} SizeSumAppendKey(books: seq<Book>, keys: seq<string>, k: string)
    ensures SizeSum(books, keys + [k]) == SizeSum(books, keys) + |InGroup(books, k)|
  {
    if keys != [] {
      assert (keys + [k])[1..] == keys[1..] + [k];
      SizeSumAppendKey(books, keys[1..], k);
    } else {
      assert ([] + [k])[1..] == [];
    }
  }

  lemma {:induction false} InGroupAbsent(books: seq<Book>, k: string)
    requires forall i :: 0 <= i < |books| ==> GenreKey(books[i]) != k
    ensures InGroup(books, k) == []
  {
    if books != [] {
      InGroupAbsent(books[..|books| - 1], k);
    }
  }

  /** The groups together hold exactly as many books as the input. */
  lemma {:induction false} GroupSizesAddUp(books: seq<Book>)
    ensures SizeSum(books, Keys(books)) == |books|
  {
    if books != [] {
      var front, last := books[..|books| - 1], books[|books| - 1];
      assert books == front + [last];
      GroupSizesAddUp(front);
      KeysDistinct(front);
      var k := GenreKey(last);
      SizeSumSnoc(front, last, Keys(front));
      if k in Keys(front) {
        CountOfDistinct(Keys(front), k);
      } else {
        SizeSumAppendKey(books, Keys(front), k);
        KeysMembership(front, k);
        InGroupAbsent(front, k);
        CountOfAbsent(Keys(front), k);
        assert InGroup(books, k) == [last];
      }
    }
  }

  // ---------------------------------------------------------------- tiles

  const DescriptionLimit: nat := 110

  /** The tile's description: kept up to 110 characters, else cut to 110 and followed by "...". */
  function TileDescription(description: Option<string>): (r: string)
    ensures !Truthy(description) ==> r == ""
    ensures Truthy(description) && |description.value| <= DescriptionLimit ==> r == description.value
    ensures Truthy(description) && |description.value| > DescriptionLimit ==>
      r == description.value[..DescriptionLimit] + "..."
    ensures |r| <= DescriptionLimit + 3
  {
    if !Truthy(description) then ""
    else
      var d := description.value;
      (if |d| <= DescriptionLimit then d else d[..DescriptionLimit]) + (if |d| > DescriptionLimit then "..." else "")
  }

  /** Cutting an already cut description changes nothing more. */
  lemma TileDescriptionIdempotent(description: Option<string>)
    ensures TileDescription(Some(TileDescription(description))) == TileDescription(description)
  {
    var r := TileDescription(description);
    if Truthy(description) && |description.value| > DescriptionLimit {
      assert r[..DescriptionLimit] == description.value[..DescriptionLimit];
    }
  }

  datatype TileBottom = OutOfStock | AddButtonHolder

  /** `book.stockQuantity === 0`: strict, so a missing stock still gets a holder. */
  function BottomOf(b: Book): (t: TileBottom)
    ensures t.OutOfStock? <==> b.stockQuantity == Some(0)
  {
    if b.stockQuantity == Some(0) then OutOfStock else AddButtonHolder
  }

  datatype Tile = Tile(bookIdAttr: string, description: string, bottom: TileBottom)

  function TileOf(b: Book): Tile {
    Tile(JsText.Decimal(b.id), TileDescription(b.description), BottomOf(b))
  }

  /** The body of `POST /api/cart/add` a button sends. */
  datatype AddRequest = AddRequest(bookId: string, quantity: int)

  /**
   * `injectAddToCartButtons`: one button per tile that has a holder, in
   * document order, each asking for one copy of the tile's `data-book-id`.
   */
  function AddButtons(tiles: seq<Tile>): (bs: seq<AddRequest>)
    ensures |bs| <= |tiles|
    ensures forall r :: r in bs ==> r.quantity == 1
    ensures forall r :: r in bs ==> exists t :: t in tiles && t.bottom.AddButtonHolder? && r.bookId == t.bookIdAttr
  {
    if tiles == [] then []
    else (if tiles[0].bottom.AddButtonHolder? then [AddRequest(tiles[0].bookIdAttr, 1)] else []) + AddButtons(tiles[1..])
  }

  function HolderCount(tiles: seq<Tile>): nat {
    if tiles == [] then 0 else (if tiles[0].bottom.AddButtonHolder? then 1 else 0) + HolderCount(tiles[1..])
  }

  /** Exactly one button per holder; an out-of-stock tile gets none. */
  lemma {:induction false} OneButtonPerHolder(tiles: seq<Tile>)
    ensures |AddButtons(tiles)| == HolderCount(tiles)
    ensures (forall i :: 0 <= i < |tiles| ==> tiles[i].bottom.OutOfStock?) ==> AddButtons(tiles) == []
  {
    if tiles != [] {
      OneButtonPerHolder(tiles[1..]);
    }
  }

  /**
   * The buttons follow the holders in document order: the tile at `i`, when
   * it has a holder, gets the button numbered by the holders before it, and
   * that button asks for one copy of the tile's book.
   */
  lemma {:induction false} ButtonsFollowHolders(tiles: seq<Tile>)
    ensures forall i :: 0 <= i < |tiles| && tiles[i].bottom.AddButtonHolder? ==>
      HolderCount(tiles[..i]) < |AddButtons(tiles)|
      && AddButtons(tiles)[HolderCount(tiles[..i])] == AddRequest(tiles[i].bookIdAttr, 1)
  {
    if tiles != [] {
      var rest := tiles[1..];
      ButtonsFollowHolders(rest);
      var head := if tiles[0].bottom.AddButtonHolder? then [AddRequest(tiles[0].bookIdAttr, 1)] else [];
      assert AddButtons(tiles) == head + AddButtons(rest);
      forall i | 0 <= i < |tiles| && tiles[i].bottom.AddButtonHolder?
        ensures HolderCount(tiles[..i]) < |AddButtons(tiles)|
          && AddButtons(tiles)[HolderCount(tiles[..i])] == AddRequest(tiles[i].bookIdAttr, 1)
      {
        if i > 0 {
          assert tiles[..i][1..] == rest[..i - 1];
          assert tiles[..i][0] == tiles[0];
          assert HolderCount(tiles[..i]) == |head| + HolderCount(rest[..i - 1]);
          assert rest[i - 1] == tiles[i];
        }
      }
    }
  }

  /** The button of an in-stock book asks for one copy of that book, by the id the tile carries. */
  lemma AddButtonOfBook(b: Book)
    requires b.stockQuantity != Some(0)
    ensures AddButtons([TileOf(b)]) == [AddRequest(JsText.Decimal(b.id), 1)]
    ensures JsText.ParseInt(AddButtons([TileOf(b)])[0].bookId) == Some(b.id)
  {
    assert [TileOf(b)][1..] == [];
    JsText.ParseIntDecimal(b.id, []);
    assert JsText.Decimal(b.id) + [] == JsText.Decimal(b.id);
  }

  function Tiles(books: seq<Book>): (ts: seq<Tile>)
    ensures |ts| == |books| && forall i :: 0 <= i < |books| ==> ts[i] == TileOf(books[i])
  {
    if books == [] then [] else [TileOf(books[0])] + Tiles(books[1..])
  }

  function GroupTiles(groups: seq<Group>): seq<Tile> {
    if groups == [] then [] else Tiles(groups[0].books) + GroupTiles(groups[1..])
  }

  // ---------------------------------------------------------------- page

  /** What `#browse-books-list` shows. */
  datatype BooksList =
    | Loading
    | NoBooks
    | Grouped(groups: seq<Group>, buttons: seq<AddRequest>)
    | Flat(tiles: seq<Tile>, buttons: seq<AddRequest>)

  /** `loadBooks` renders grouped only when neither a search nor a genre is set. */
  predicate GroupedMode(search: string, genre: string) {
    search == "" && genre == ""
  }

  /** The query string of `GET /api/public/browse`. */
  datatype BrowseQuery = BrowseQuery(page: int, pageSize: int, search: string, genre: string)

  const PageSize: int := 24

  /** The JSON body: the books of the page and where it stands. */
  datatype BrowseData = BrowseData(books: seq<Book>, page: int, totalPages: int)

  /**
   * What `renderBooksGroupedByGenre` or `renderBooksFlat` puts in the list
   * for the books of an answer; `None` when the render throws.
   */
  function Render(search: string, genre: string, books: seq<Book>): Option<BooksList> {
    if books == [] then Some(NoBooks)
    else if GroupedMode(search, genre) then
      if HasPrototypeKey(books) then None
      else Some(Grouped(Groups(books), AddButtons(GroupTiles(Groups(books)))))
    else Some(Flat(Tiles(books), AddButtons(Tiles(books))))
  }

  class BrowsePage {
    var currentPage: int
    var totalPages: int
    var lastSearch: string
    var lastGenre: string
    var list: BooksList
    var pager: Paging.Pager

    /** The script's initial module state. */
    constructor ()
      ensures currentPage == 1 && totalPages == 1 && lastSearch == "" && lastGenre == ""
      ensures list == Loading && pager == Paging.Pager(false, false)
    {
      currentPage, totalPages, lastSearch, lastGenre := 1, 1, "", "";
      list, pager := Loading, Paging.Pager(false, false);
    }

    /**
     * The state `loadBooks(page, search, genre)` leaves: the request is
     * recorded; an answer that renders sets the list, the page count and the
     * pager buttons; a request, body or render that throws leaves the
     * spinner, and the page count and buttons as they were.
     */
    ghost predicate AfterLoad(page: int, search: string, genre: string, resp: Option<BrowseData>,
                              totalBefore: int, pagerBefore: Paging.Pager)
      reads this
    {
      && currentPage == page && lastSearch == search && lastGenre == genre
      && if resp.None? || Render(search, genre, resp.value.books).None? then
           list == Loading && totalPages == totalBefore && pager == pagerBefore
         else
           && list == Render(search, genre, resp.value.books).value
           && totalPages == resp.value.totalPages
           && pager == Paging.PagerFor(resp.value.page, resp.value.totalPages)
    }

    /**
     * `loadBooks`: records the requested page, search and genre, sends the
     * query, and renders the answer; `None` is a request or body that threw.
     */
    method LoadBooks(page: int, search: string, genre: string, resp: Option<BrowseData>) returns (q: BrowseQuery)
      modifies this
      ensures q == BrowseQuery(page, PageSize, search, genre)
      ensures AfterLoad(page, search, genre, resp, old(totalPages), old(pager))
      ensures currentPage == page && lastSearch == search && lastGenre == genre
      ensures resp.None? ==> list == Loading && totalPages == old(totalPages) && pager == old(pager)
      ensures resp.Some? && resp.value.books == [] ==> list == NoBooks
      ensures resp.Some? && resp.value.books != [] && GroupedMode(search, genre) && !HasPrototypeKey(resp.value.books) ==>
        list == Grouped(Groups(resp.value.books), AddButtons(GroupTiles(Groups(resp.value.books))))
      ensures resp.Some? && resp.value.books != [] && GroupedMode(search, genre) && HasPrototypeKey(resp.value.books) ==>
        list == Loading && totalPages == old(totalPages) && pager == old(pager)
      ensures resp.Some? && resp.value.books != [] && !GroupedMode(search, genre) ==>
        list == Flat(Tiles(resp.value.books), AddButtons(Tiles(resp.value.books)))
      ensures list != Loading ==> (resp.Some? && totalPages == resp.value.totalPages
        && pager == Paging.PagerFor(resp.value.page, resp.value.totalPages))
    {
      currentPage, lastSearch, lastGenre := page, search, genre;
      list := Loading;
      q := BrowseQuery(page, PageSize, search, genre);
      if resp.None? {
        return;
      }
      var data := resp.value;
      if data.books == [] {
        list := NoBooks;
      } else if GroupedMode(search, genre) {
        var groups := GroupByGenre(data.books);
        if groups.None? {
          return;
        }
        list := Grouped(groups.value, AddButtons(GroupTiles(groups.value)));
      } else {
        var tiles := Tiles(data.books);
        list := Flat(tiles, AddButtons(tiles));
      }
      totalPages := data.totalPages;
      pager := Paging.PagerFor(data.page, data.totalPages);
    }

    /** The search form: page 1, the trimmed search text and the selected genre. */
    method Search(searchInput: string, genreValue: string, resp: Option<BrowseData>) returns (q: BrowseQuery)
      modifies this
      ensures q == BrowseQuery(1, PageSize, JsText.Trim(searchInput), genreValue)
      ensures AfterLoad(1, JsText.Trim(searchInput), genreValue, resp, old(totalPages), old(pager))
    {
      q := LoadBooks(1, JsText.Trim(searchInput), genreValue, resp);
    }

    /** The previous-page handler: one page back while the current page is above 1, with the last filters. */
    method Prev(resp: Option<BrowseData>) returns (q: Option<BrowseQuery>)
      modifies this
      ensures old(currentPage) > 1 ==> (q == Some(BrowseQuery(old(currentPage) - 1, PageSize, old(lastSearch), old(lastGenre)))
        && AfterLoad(old(currentPage) - 1, old(lastSearch), old(lastGenre), resp, old(totalPages), old(pager))
        && currentPage >= 1)
      ensures old(currentPage) <= 1 ==> q.None? && unchanged(this)
    {
      if currentPage > 1 {
        var query := LoadBooks(currentPage - 1, lastSearch, lastGenre, resp);
        q := Some(query);
      } else {
        q := None;
      }
    }

    /** The next-page handler: one page on while the current page is below the last known page count. */
    method Next(resp: Option<BrowseData>) returns (q: Option<BrowseQuery>)
      modifies this
      ensures old(currentPage) < old(totalPages) ==> (q == Some(BrowseQuery(old(currentPage) + 1, PageSize, old(lastSearch), old(lastGenre)))
        && AfterLoad(old(currentPage) + 1, old(lastSearch), old(lastGenre), resp, old(totalPages), old(pager))
        && currentPage <= old(totalPages))
      ensures old(currentPage) >= old(totalPages) ==> q.None? && unchanged(this)
    {
      if currentPage < totalPages {
        var query := LoadBooks(currentPage + 1, lastSearch, lastGenre, resp);
        q := Some(query);
      } else {
        q := None;
      }
    }
  }
}
