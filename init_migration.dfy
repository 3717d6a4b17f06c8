/**
 * The initial migration: `up` builds the thirteen model tables one after
 * another, `down` drops them again in the reverse order. The models are
 * encoded here as constant data, column by column.
 */
module InitMigration {
  import opened Wrappers
  import opened Schema

  function Str(name: string, length: Option<int>): Column { Column(name, "string", length, [], "", None) }
  function Plain(name: string, kind: string): Column { Column(name, kind, None, [], "", None) }
  function Enum(name: string, values: seq<string>): Column { Column(name, "enum", None, values, "", None) }
  function Foreign(name: string, references: string): Column { Column(name, "foreign", None, [], references, Some("CASCADE")) }

  const UserModel := Model("user", [Str("firstName", Some(255)), Str("lastName", Some(255)), Str("email", Some(255)),
    Plain("passwordHash", "text"), Enum("role", ["admin", "user"])])
  const GenreModel := Model("genre", [Str("genre", Some(255))])
  const BookModel := Model("book", [Str("title", Some(255)), Str("author", Some(255)), Str("genre", Some(255)),
    Str("isbn", Some(13)), Plain("price", "decimal"), Plain("stockQuantity", "integer"),
    Plain("description", "text"), Str("publisher", Some(255))])
  const BookImageModel := Model("book_image", [Foreign("bookId", "book.id"), Plain("image_base64", "text")])
  const WishlistModel := Model("wishlist", [Plain("userId", "integer")])
  const WishlistItemModel := Model("wishlist_items", [Foreign("wishlistId", "wishlist.id"), Foreign("bookId", "book.id")])
  const OrderModel := Model("order", [Plain("userId", "integer"), Plain("orderDate", "datetime"),
    Plain("totalPrice", "decimal"), Enum("paymentStatus", ["pending", "completed", "failed"]),
    Enum("shippingStatus", ["pending", "shipped", "delivered", "cancelled"])])
  const OrderItemModel := Model("order_items", [Foreign("orderId", "order.id"), Foreign("book_id", "book.id"),
    Plain("quantity", "integer"), Plain("price", "decimal")])
  const PaymentModel := Model("payment", [Foreign("order_id", "order.id"), Str("paymentMethod", Some(50)),
    Plain("paymentDate", "date"), Plain("amount", "decimal"), Enum("status", ["pending", "completed", "failed"])])
  const ShippingModel := Model("shipping", [Foreign("orderId", "order.id"), Str("address", None),
    Plain("deliveryDate", "date"), Str("trackingNumber", Some(50))])
  const ReviewModel := Model("review", [Plain("userId", "integer"), Foreign("book_id", "book.id"),
    Plain("rating", "integer"), Plain("comment", "text"), Plain("datePosted", "datetime")])
  const ShoppingCartModel := Model("shopping_cart", [Plain("userId", "integer")])
  const ShoppingCartItemModel := Model("shopping_cart_items", [Foreign("shoppingCartId", "shopping_cart.id"),
    Foreign("bookId", "book.id"), Plain("quantity", "integer")])

  /** The order of `up`. */
  const UpOrder: seq<Model> := [UserModel, GenreModel, BookModel, BookImageModel, WishlistModel, WishlistItemModel,
    OrderModel, OrderItemModel, PaymentModel, ShippingModel, ReviewModel, ShoppingCartModel, ShoppingCartItemModel]

  /** The order of `down`, as the migration lists it. */
  const DownOrder: seq<Model> := [ShoppingCartItemModel, ShoppingCartModel, ReviewModel, ShippingModel, PaymentModel,
    OrderItemModel, OrderModel, WishlistItemModel, WishlistModel, BookImageModel, BookModel, GenreModel, UserModel]

  /** The tables the model's foreign keys point at; `TableTargets` shows they are those of its `createTable` calls. */
  function TargetsOf(m: Model): set<string> {
    ForeignTargets(m.columns)
  }

  function Names(ms: seq<Model>): set<string> {
    set i | 0 <= i < |ms| :: ms[i].tableName
  }

  /** The catalogue after creating `ms`, in order, on top of `base`. */
  function Installed(base: map<string, seq<ColumnOp>>, ms: seq<Model>): map<string, seq<ColumnOp>> {
    if ms == [] then base
    else Installed(base, ms[..|ms| - 1])[ms[|ms| - 1].tableName := TableOps(ms[|ms| - 1].columns)]
  }

  lemma {:induction false} InstalledKeys(base: map<string, seq<ColumnOp>>, ms: seq<Model>)
    ensures Installed(base, ms).Keys == base.Keys + Names(ms)
  {
    if ms != [] {
      var front := ms[..|ms| - 1];
      InstalledKeys(base, front);
      assert Names(ms) == Names(front) + {ms[|ms| - 1].tableName} by {
        forall n | n in Names(ms) ensures n in Names(front) + {ms[|ms| - 1].tableName} {
          var i :| 0 <= i < |ms| && ms[i].tableName == n;
          if i < |front| { assert front[i] == ms[i]; }
        }
        forall n | n in Names(front) ensures n in Names(ms) {
          var i :| 0 <= i < |front| && front[i].tableName == n;
          assert ms[i] == front[i];
        }
      }
    }
  }

  predicate DistinctNames(ms: seq<Model>) {
    forall a, b :: 0 <= a < b < |ms| ==> ms[a].tableName != ms[b].tableName
  }

  /** Each model's foreign keys point only at tables of the models listed before it. */
  predicate RefersBackwards(ms: seq<Model>) {
    forall k :: 0 <= k < |ms| ==> TargetsOf(ms[k]) <= Names(ms[..k])
  }

  lemma {:induction false} InstalledAt(base: map<string, seq<ColumnOp>>, ms: seq<Model>, i: int)
    requires 0 <= i < |ms|
    requires DistinctNames(ms)
    ensures ms[i].tableName in Installed(base, ms)
    ensures Installed(base, ms)[ms[i].tableName] == TableOps(ms[i].columns)
  {
    if i < |ms| - 1 {
      InstalledAt(base, ms[..|ms| - 1], i);
    }
  }

  lemma {:induction false} InstalledOutside(base: map<string, seq<ColumnOp>>, ms: seq<Model>, t: string)
    requires t !in Names(ms)
    ensures t in Installed(base, ms) <==> t in base
    ensures t in base ==> Installed(base, ms)[t] == base[t]
  {
    if ms != [] {
      var front := ms[..|ms| - 1];
      assert t != ms[|ms| - 1].tableName;
      InstalledOutside(base, front, t);
    }
  }

  /** The thirteen table names are distinct, so each table is created and dropped exactly once. */
  lemma NamesDistinct()
    ensures |UpOrder| == 13
    ensures DistinctNames(UpOrder)
  {
    var names := ["user", "genre", "book", "book_image", "wishlist", "wishlist_items", "order", "order_items",
      "payment", "shipping", "review", "shopping_cart", "shopping_cart_items"];
    UpOrderNames(names);
    DistinctStrings(names);
  }

  lemma UpOrderNames(names: seq<string>)
    requires names == ["user", "genre", "book", "book_image", "wishlist", "wishlist_items", "order", "order_items",
      "payment", "shipping", "review", "shopping_cart", "shopping_cart_items"]
    ensures |UpOrder| == |names| && forall i :: 0 <= i < |names| ==> UpOrder[i].tableName == names[i]
  {
  }

  lemma DistinctStrings(names: seq<string>)
    requires names == ["user", "genre", "book", "book_image", "wishlist", "wishlist_items", "order", "order_items",
      "payment", "shipping", "review", "shopping_cart", "shopping_cart_items"]
    ensures forall a, b :: 0 <= a < b < |names| ==> names[a] != names[b]
  {
  }

  /** `down` lists the very models of `up`, in exactly the reverse order. */
  lemma DownReversesUp()
    ensures |DownOrder| == |UpOrder|
    ensures forall i :: 0 <= i < |UpOrder| ==> DownOrder[i] == UpOrder[|UpOrder| - 1 - i]
  {
  }

  lemma ForeignTargetsStep(cols: seq<Column>, k: int)
    requires 0 < k <= |cols|
    ensures ForeignTargets(cols[..k]) == ForeignTargets(cols[..k - 1])
      + (if cols[k - 1].kind == "foreign" then {TableOfRef(cols[k - 1].references)} else {})
  {
    assert cols[..k][..k - 1] == cols[..k - 1];
  }

  /** `book.id`, `order.id`, `wishlist.id` and `shopping_cart.id` name the tables before their dots. */
  lemma BookRef() ensures TableOfRef("book.id") == "book" {
    assert "book.id" == "book" + "." + "id";
    TableOfRefDotted("book", "id");
  }

  lemma OrderRef() ensures TableOfRef("order.id") == "order" {
    assert "order.id" == "order" + "." + "id";
    TableOfRefDotted("order", "id");
  }

  lemma WishlistRef() ensures TableOfRef("wishlist.id") == "wishlist" {
    assert "wishlist.id" == "wishlist" + "." + "id";
    TableOfRefDotted("wishlist", "id");
  }

  lemma ShoppingCartRef() ensures TableOfRef("shopping_cart.id") == "shopping_cart" {
    assert "shopping_cart.id" == "shopping_cart" + "." + "id";
    TableOfRefDotted("shopping_cart", "id");
  }

  lemma {:induction false} NoForeignColumn(cols: seq<Column>)
    requires forall i :: 0 <= i < |cols| ==> cols[i].kind != "foreign"
    ensures ForeignTargets(cols) == {}
  {
    if cols != [] {
      NoForeignColumn(cols[..|cols| - 1]);
    }
  }

  /** The models whose `userId` only says `foreignKey: true` declare no foreign key at all. */
  lemma NoForeignKeys()
    ensures TargetsOf(UserModel) == {} && TargetsOf(GenreModel) == {} && TargetsOf(BookModel) == {}
    ensures TargetsOf(WishlistModel) == {} && TargetsOf(OrderModel) == {} && TargetsOf(ShoppingCartModel) == {}
  {
    NoForeignColumn(UserModel.columns);
    NoForeignColumn(GenreModel.columns);
    NoForeignColumn(BookModel.columns);
    NoForeignColumn(WishlistModel.columns);
    NoForeignColumn(OrderModel.columns);
    NoForeignColumn(ShoppingCartModel.columns);
  }

  /** Only non-foreign columns after position `n`: the targets are those of the first `n` columns. */
  lemma {:induction false} NoForeignAfter(cols: seq<Column>, n: int)
    requires 0 <= n <= |cols|
    requires forall i :: n <= i < |cols| ==> cols[i].kind != "foreign"
    ensures ForeignTargets(cols) == ForeignTargets(cols[..n])
  {
    if |cols| > n {
      var front := cols[..|cols| - 1];
      assert front[..n] == cols[..n];
      NoForeignAfter(front, n);
    } else {
      assert cols[..n] == cols;
    }
  }

  /** A column list whose only foreign column is column `j`. */
  lemma OneForeign(cols: seq<Column>, j: int)
    requires 0 <= j < |cols| && cols[j].kind == "foreign"
    requires forall i :: 0 <= i < j ==> cols[i].kind != "foreign"
    requires forall i :: j < i < |cols| ==> cols[i].kind != "foreign"
    ensures ForeignTargets(cols) == {TableOfRef(cols[j].references)}
  {
    var before := cols[..j];
    assert forall i :: 0 <= i < |before| ==> before[i].kind != "foreign";
    NoForeignColumn(before);
    NoForeignAfter(cols, j + 1);
    ForeignTargetsStep(cols, j + 1);
  }

  /** A column list whose only foreign columns are the first two. */
  lemma TwoForeign(cols: seq<Column>)
    requires 2 <= |cols| && cols[0].kind == "foreign" && cols[1].kind == "foreign"
    requires forall i :: 2 <= i < |cols| ==> cols[i].kind != "foreign"
    ensures ForeignTargets(cols) == {TableOfRef(cols[0].references), TableOfRef(cols[1].references)}
  {
    NoForeignAfter(cols, 2);
    ForeignTargetsStep(cols, 2);
    ForeignTargetsStep(cols, 1);
    assert cols[..0] == [];
  }

  lemma BookImageTargets(m: Model)
    requires m == BookImageModel
    ensures TargetsOf(m) == {"book"}
  {
    OneForeign(m.columns, 0);
    BookRef();
  }

  lemma WishlistItemTargets(m: Model)
    requires m == WishlistItemModel
    ensures TargetsOf(m) == {"wishlist", "book"}
  {
    TwoForeign(m.columns);
    WishlistRef(); BookRef();
  }

  lemma OrderItemTargets(m: Model)
    requires m == OrderItemModel
    ensures TargetsOf(m) == {"order", "book"}
  {
    TwoForeign(m.columns);
    OrderRef(); BookRef();
  }

  lemma PaymentTargets(m: Model)
    requires m == PaymentModel
    ensures TargetsOf(m) == {"order"}
  {
    OneForeign(m.columns, 0);
    OrderRef();
  }

  lemma ShippingTargets(m: Model)
    requires m == ShippingModel
    ensures TargetsOf(m) == {"order"}
  {
    OneForeign(m.columns, 0);
    OrderRef();
  }

  lemma ReviewTargets(m: Model)
    requires m == ReviewModel
    ensures TargetsOf(m) == {"book"}
  {
    OneForeign(m.columns, 1);
    BookRef();
  }

  lemma ShoppingCartItemTargets(m: Model)
    requires m == ShoppingCartItemModel
    ensures TargetsOf(m) == {"shopping_cart", "book"}
  {
    TwoForeign(m.columns);
    ShoppingCartRef(); BookRef();
  }

  /** A model whose only target is the table of an earlier model refers backwards. */
  lemma OneBack(ms: seq<Model>, k: int, i: int)
    requires 0 <= i < k < |ms|
    requires TargetsOf(ms[k]) == {ms[i].tableName}
    ensures TargetsOf(ms[k]) <= Names(ms[..k])
  {
    assert ms[..k][i] == ms[i];
  }

  /** A model whose targets are the tables of two earlier models refers backwards. */
  lemma TwoBack(ms: seq<Model>, k: int, i: int, j: int)
    requires 0 <= i < k && 0 <= j < k < |ms|
    requires TargetsOf(ms[k]) == {ms[i].tableName, ms[j].tableName}
    ensures TargetsOf(ms[k]) <= Names(ms[..k])
  {
    assert ms[..k][i] == ms[i] && ms[..k][j] == ms[j];
  }

  lemma BookImageRefersBack()
    ensures TargetsOf(UpOrder[3]) <= Names(UpOrder[..3])
  {
    assert UpOrder[3] == BookImageModel && UpOrder[2].tableName == "book";
    BookImageBack(UpOrder);
  }

  lemma BookImageBack(ms: seq<Model>)
    requires 3 < |ms| && ms[3] == BookImageModel && ms[2].tableName == "book"
    ensures TargetsOf(ms[3]) <= Names(ms[..3])
  {
    BookImageTargets(ms[3]);
    OneBack(ms, 3, 2);
  }

  lemma WishlistItemRefersBack()
    ensures TargetsOf(UpOrder[5]) <= Names(UpOrder[..5])
  {
    assert UpOrder[5] == WishlistItemModel && UpOrder[4].tableName == "wishlist" && UpOrder[2].tableName == "book";
    WishlistItemBack(UpOrder);
  }

  lemma WishlistItemBack(ms: seq<Model>)
    requires 5 < |ms| && ms[5] == WishlistItemModel && ms[4].tableName == "wishlist" && ms[2].tableName == "book"
    ensures TargetsOf(ms[5]) <= Names(ms[..5])
  {
    WishlistItemTargets(ms[5]);
    TwoBack(ms, 5, 4, 2);
  }

  lemma OrderItemRefersBack()
    ensures TargetsOf(UpOrder[7]) <= Names(UpOrder[..7])
  {
    assert UpOrder[7] == OrderItemModel && UpOrder[6].tableName == "order" && UpOrder[2].tableName == "book";
    OrderItemBack(UpOrder);
  }

  lemma OrderItemBack(ms: seq<Model>)
    requires 7 < |ms| && ms[7] == OrderItemModel && ms[6].tableName == "order" && ms[2].tableName == "book"
    ensures TargetsOf(ms[7]) <= Names(ms[..7])
  {
    OrderItemTargets(ms[7]);
    TwoBack(ms, 7, 6, 2);
  }

  lemma PaymentRefersBack()
    ensures TargetsOf(UpOrder[8]) <= Names(UpOrder[..8])
  {
    assert UpOrder[8] == PaymentModel && UpOrder[6].tableName == "order";
    PaymentBack(UpOrder);
  }

  lemma PaymentBack(ms: seq<Model>)
    requires 8 < |ms| && ms[8] == PaymentModel && ms[6].tableName == "order"
    ensures TargetsOf(ms[8]) <= Names(ms[..8])
  {
    PaymentTargets(ms[8]);
    OneBack(ms, 8, 6);
  }

  lemma ShippingRefersBack()
    ensures TargetsOf(UpOrder[9]) <= Names(UpOrder[..9])
  {
    assert UpOrder[9] == ShippingModel && UpOrder[6].tableName == "order";
    ShippingBack(UpOrder);
  }

  lemma ShippingBack(ms: seq<Model>)
    requires 9 < |ms| && ms[9] == ShippingModel && ms[6].tableName == "order"
    ensures TargetsOf(ms[9]) <= Names(ms[..9])
  {
    ShippingTargets(ms[9]);
    OneBack(ms, 9, 6);
  }

  lemma ReviewRefersBack()
    ensures TargetsOf(UpOrder[10]) <= Names(UpOrder[..10])
  {
    assert UpOrder[10] == ReviewModel && UpOrder[2].tableName == "book";
    ReviewBack(UpOrder);
  }

  lemma ReviewBack(ms: seq<Model>)
    requires 10 < |ms| && ms[10] == ReviewModel && ms[2].tableName == "book"
    ensures TargetsOf(ms[10]) <= Names(ms[..10])
  {
    ReviewTargets(ms[10]);
    OneBack(ms, 10, 2);
  }

  lemma ShoppingCartItemRefersBack()
    ensures TargetsOf(UpOrder[12]) <= Names(UpOrder[..12])
  {
    assert UpOrder[12] == ShoppingCartItemModel && UpOrder[11].tableName == "shopping_cart" && UpOrder[2].tableName == "book";
    ShoppingCartItemBack(UpOrder);
  }

  lemma ShoppingCartItemBack(ms: seq<Model>)
    requires 12 < |ms| && ms[12] == ShoppingCartItemModel && ms[11].tableName == "shopping_cart" && ms[2].tableName == "book"
    ensures TargetsOf(ms[12]) <= Names(ms[..12])
  {
    ShoppingCartItemTargets(ms[12]);
    TwoBack(ms, 12, 11, 2);
  }

  /** The models without foreign keys trivially refer backwards. */
  lemma PlainModelsRefersBack(k: int)
    requires k in {0, 1, 2, 4, 6, 11}
    ensures TargetsOf(UpOrder[k]) == {}
  {
    NoForeignKeys();
    if k == 0 { assert UpOrder[k] == UserModel; }
    else if k == 1 { assert UpOrder[k] == GenreModel; }
    else if k == 2 { assert UpOrder[k] == BookModel; }
    else if k == 4 { assert UpOrder[k] == WishlistModel; }
    else if k == 6 { assert UpOrder[k] == OrderModel; }
    else { assert UpOrder[k] == ShoppingCartModel; }
  }

  /** Every foreign key of `up` points at a table an earlier step created. */
  lemma ReferencesPointBackwards(k: int)
    requires 0 <= k < |UpOrder|
    ensures TargetsOf(UpOrder[k]) <= Names(UpOrder[..k])
  {
    if k == 3 {
      BookImageRefersBack();
    } else if k == 5 {
      WishlistItemRefersBack();
    } else if k == 7 {
      OrderItemRefersBack();
    } else if k == 8 {
      PaymentRefersBack();
    } else if k == 9 {
      ShippingRefersBack();
    } else if k == 10 {
      ReviewRefersBack();
    } else if k == 12 {
      ShoppingCartItemRefersBack();
    } else {
      PlainModelsRefersBack(k);
    }
  }

  /** The two facts the migration's order rests on. */
  lemma UpOrderWellFormed()
    ensures DistinctNames(UpOrder) && RefersBackwards(UpOrder)
  {
    NamesDistinct();
    forall k | 0 <= k < |UpOrder| ensures TargetsOf(UpOrder[k]) <= Names(UpOrder[..k]) {
      ReferencesPointBackwards(k);
    }
  }

  // ------------------------------------------------------------ the steps

  lemma NamesPrefix(ms: seq<Model>, k: int)
    requires 0 <= k < |ms|
    ensures Names(ms[..k + 1]) == Names(ms[..k]) + {ms[k].tableName}
    ensures Names(ms[..k]) <= Names(ms) && ms[k].tableName in Names(ms)
  {
    var front := ms[..k + 1];
    assert front[k] == ms[k];
    forall n | n in Names(front) ensures n in Names(ms[..k]) + {ms[k].tableName} {
      var i :| 0 <= i < |front| && front[i].tableName == n;
      if i < k { assert ms[..k][i] == front[i]; }
    }
    forall n | n in Names(ms[..k]) ensures n in Names(front) && n in Names(ms) {
      var i :| 0 <= i < k && ms[..k][i].tableName == n;
      assert front[i] == ms[..k][i] == ms[i];
    }
  }

  lemma NamesSuffix(ms: seq<Model>, k: int)
    requires 0 <= k < |ms|
    ensures Names(ms[k..]) == {ms[k].tableName} + Names(ms[k + 1..])
  {
    var back := ms[k..];
    assert back[0] == ms[k];
    forall n | n in Names(back) ensures n in {ms[k].tableName} + Names(ms[k + 1..]) {
      var i :| 0 <= i < |back| && back[i].tableName == n;
      if i > 0 { assert ms[k + 1..][i - 1] == back[i]; }
    }
    forall n | n in Names(ms[k + 1..]) ensures n in Names(back) {
      var i :| 0 <= i < |ms| - k - 1 && ms[k + 1..][i].tableName == n;
      assert back[i + 1] == ms[k + 1..][i];
    }
  }

  /**
   * Step `k` of `up` succeeds on the tables the earlier steps built over a
   * base that holds none of the migration's tables.
   */
  lemma {:induction false} CreateStepSucceeds(base: map<string, seq<ColumnOp>>, ms: seq<Model>, k: int)
    requires 0 <= k < |ms| && DistinctNames(ms) && RefersBackwards(ms)
    requires base.Keys !! Names(ms)
    ensures ms[k].tableName !in Installed(base, ms[..k])
    ensures forall t :: t in Targets(TableOps(ms[k].columns)) ==> t in Installed(base, ms[..k])
  {
    TableTargets(ms[k].columns);
    var done := ms[..k];
    InstalledKeys(base, done);
    NamesPrefix(ms, k);
    assert TargetsOf(ms[k]) <= Names(done);
  }

  /** No table other than `name` has a foreign key to `name`. */
  predicate Unreferenced(tables: map<string, seq<ColumnOp>>, name: string) {
    forall t | t in tables && t != name :: name !in Targets(tables[t])
  }

  /**
   * `down` drops the tables of `up` from the last to the first: with the
   * tables of steps `0..k` present over a base that references none of them,
   * no other table references the table of step `k`.
   */
  lemma {:induction false} DropStepUnreferenced(base: map<string, seq<ColumnOp>>, ms: seq<Model>, k: int)
    requires 0 <= k < |ms| && DistinctNames(ms) && RefersBackwards(ms)
    requires base.Keys !! Names(ms)
    requires forall t :: t in base ==> Targets(base[t]) !! Names(ms)
    ensures ms[k].tableName in Installed(base, ms[..k + 1])
    ensures Unreferenced(Installed(base, ms[..k + 1]), ms[k].tableName)
  {
    var name, built := ms[k].tableName, ms[..k + 1];
    assert built[k] == ms[k];
    InstalledAt(base, built, k);
    NamesPrefix(ms, k);
    forall t | t in Installed(base, built) && t != name
      ensures name !in Targets(Installed(base, built)[t])
    {
      if t in Names(built) {
        var i :| 0 <= i < |built| && built[i].tableName == t;
        assert built[i] == ms[i];
        InstalledAt(base, built, i);
        TableTargets(ms[i].columns);
        assert TargetsOf(ms[i]) <= Names(ms[..i]);
      } else {
        InstalledOutside(base, built, t);
      }
    }
  }

  /** Dropping the table of step `k` undoes step `k`. */
  lemma DropUndoesCreate(base: map<string, seq<ColumnOp>>, ms: seq<Model>, k: int)
    requires 0 <= k < |ms| && DistinctNames(ms) && RefersBackwards(ms)
    requires base.Keys !! Names(ms)
    ensures Installed(base, ms[..k + 1]) - {ms[k].tableName} == Installed(base, ms[..k])
  {
    assert ms[..k + 1][..k] == ms[..k];
    CreateStepSucceeds(base, ms, k);
  }

  lemma MapMinusUnion(m: map<string, seq<ColumnOp>>, a: set<string>, b: set<string>)
    ensures m - (a + b) == (m - b) - a
  {
  }

  /** Removing the tables of steps `j..` from everything `up` built leaves what steps `0..j-1` built. */
  lemma {:induction false} InstalledPrefix(base: map<string, seq<ColumnOp>>, ms: seq<Model>, j: int)
    requires 0 <= j <= |ms| && DistinctNames(ms) && RefersBackwards(ms)
    requires base.Keys !! Names(ms)
    ensures Installed(base, ms) - Names(ms[j..]) == Installed(base, ms[..j])
    decreases |ms| - j
  {
    if j == |ms| {
      assert ms[j..] == [] && ms[..j] == ms;
      assert Names(ms[j..]) == {};
    } else {
      InstalledPrefix(base, ms, j + 1);
      NamesSuffix(ms, j);
      MapMinusUnion(Installed(base, ms), {ms[j].tableName}, Names(ms[j + 1..]));
      DropUndoesCreate(base, ms, j);
    }
  }

  /** The tables the creation of `ms` leaves when every step succeeds, over a base that does not reference them. */
  ghost predicate Built(ms: seq<Model>, tables: map<string, seq<ColumnOp>>) {
    var base := tables - Names(ms);
    (forall t :: t in base ==> Targets(base[t]) !! Names(ms)) && tables == Installed(base, ms)
  }

  /** The tables `up` leaves when every step succeeds, over a base that does not reference them. */
  ghost predicate BuiltByUp(tables: map<string, seq<ColumnOp>>) {
    Built(UpOrder, tables)
  }

  /** One line of `up`, `new MigrationBuilder(knex, model).up()` awaited, as step `k` of a well-formed list. */
  method CreateStep(schema: Catalogue, m: Model, ghost base: map<string, seq<ColumnOp>>, ghost ms: seq<Model>, ghost k: int)
    returns (ok: bool)
    requires 0 <= k < |ms| && m == ms[k] && DistinctNames(ms) && RefersBackwards(ms)
    requires schema.tables == Installed(base, ms[..k])
    modifies schema
    ensures ok ==> schema.tables == Installed(base, ms[..k + 1])
    ensures !ok ==> schema.tables == old(schema.tables)
    ensures base.Keys !! Names(ms) ==> ok
  {
    var builder := new MigrationBuilder(m);
    ok := builder.Up(schema);
    assert ms[..k + 1][..k] == ms[..k];
    if base.Keys !! Names(ms) {
      CreateStepSucceeds(base, ms, k);
    }
  }

  /** One line of `down`, `new MigrationBuilder(knex, model).down()` awaited, undoing step `k` of a well-formed list. */
  method DropStep(schema: Catalogue, m: Model, ghost whole: map<string, seq<ColumnOp>>, ghost ms: seq<Model>, ghost k: int)
    returns (ok: bool)
    requires 0 <= k < |ms| && m == ms[k] && DistinctNames(ms) && RefersBackwards(ms)
    requires schema.tables == whole - Names(ms[k + 1..])
    modifies schema
    ensures ok ==> schema.tables == whole - Names(ms[k..])
    ensures !ok ==> schema.tables == old(schema.tables)
    ensures Built(ms, whole) ==> ok
  {
    var builder := new MigrationBuilder(m);
    ok := builder.Down(schema);
    NamesSuffix(ms, k);
    MapMinusUnion(whole, {m.tableName}, Names(ms[k + 1..]));
    if Built(ms, whole) {
      ghost var base := whole - Names(ms);
      InstalledPrefix(base, ms, k + 1);
      DropStepUnreferenced(base, ms, k);
    }
  }

  /**
   * `up`: the thirteen tables, one awaited step per model in the order of
   * `UpOrder`; a failing step ends the migration. Every step succeeds on a
   * schema holding none of the tables.
   */
  method Up(schema: Catalogue) returns (ok: bool)
    modifies schema
    ensures ok ==> schema.tables == Installed(old(schema.tables), UpOrder)
    ensures old(schema.tables).Keys !! Names(UpOrder) ==> ok
  {
    ghost var base := schema.tables;
    UpOrderWellFormed();
    ok := true;
    for k := 0 to |UpOrder|
      invariant ok && schema.tables == Installed(base, UpOrder[..k])
    {
      ok := CreateStep(schema, UpOrder[k], base, UpOrder, k);
      if !ok {
        return;
      }
    }
    assert UpOrder[..|UpOrder|] == UpOrder;
  }

  /**
   * `down`: one awaited step per model in the order of `DownOrder`, the
   * reverse of `up`, so that every table is dropped before the tables it
   * references.
   */
  method Down(schema: Catalogue) returns (ok: bool)
    modifies schema
    ensures ok ==> schema.tables == old(schema.tables) - Names(UpOrder)
    ensures BuiltByUp(old(schema.tables)) ==> ok
  {
    ghost var whole := schema.tables;
    DownReversesUp();
    UpOrderWellFormed();
    assert UpOrder[|UpOrder|..] == [] && Names(UpOrder[|UpOrder|..]) == {};
    ok := true;
    for j := 0 to |DownOrder|
      invariant ok && schema.tables == whole - Names(UpOrder[|UpOrder| - j..])
    {
      ok := DropStep(schema, DownOrder[j], whole, UpOrder, |UpOrder| - 1 - j);
      if !ok {
        return;
      }
    }
    assert UpOrder[0..] == UpOrder;
  }

  /**
   * `down` after a successful `up` succeeds and gives back exactly the
   * tables there were before `up`.
   */
  lemma UpThenDown(base: map<string, seq<ColumnOp>>)
    requires base.Keys !! Names(UpOrder)
    requires forall t :: t in base ==> Targets(base[t]) !! Names(UpOrder)
    ensures BuiltByUp(Installed(base, UpOrder))
    ensures Installed(base, UpOrder) - Names(UpOrder) == base
  {
    UpOrderWellFormed();
    InstalledPrefix(base, UpOrder, 0);
    assert UpOrder[0..] == UpOrder && UpOrder[..0] == [];
  }
}
