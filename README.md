# Bookstore website: a verified model of its core logic

This project models the deterministic core of a small bookstore web
application (KingHendrie/Bookstore-Website) in Dafny and proves properties
of the model. It covers four areas.

- **The browser scripts**:
  - the book page: HTML escaping, star ratings and the reviews section;
  - the cart page: badge count, image source, quantity stepper, and the handling of `/api/cart` and `/api/cart/update` answers;
  - the catalogue page: grouping by genre, tiles, add-to-cart buttons, and the page state behind previous/next;
  - the admin user table: form checks, request choice, outcome of a save, and page state.
- **`MigrationBuilder`**: a model's column list becomes an ordered list of
  table-builder calls on a knex-like schema (`Schema.Catalogue`). Like
  MySQL, that schema refuses duplicate tables, foreign keys to missing
  tables, and dropping a table that is still referenced.
- **The two migrations.**
  - The initial migration creates and drops the thirteen model tables in a
    fixed order.
  - The genre migration moves the book genre strings into a `genre` table
    and back, over in-memory rows. The model tracks the foreign key `up`
    adds, because MySQL then refuses the way back as written (see Findings).
- **`AuthService`**: login, logout and the `requireAuth` guard over a session
  object. The user look-up and the bcrypt comparison are oracles passed in
  as functions.

Module per source file:

| source | module |
|---|---|
| public/wwwroot/js/books.js | `Books` (books.dfy) |
| public/wwwroot/js/cart.js | `Cart` (cart.dfy) |
| public/wwwroot/js/browse.js | `Browse` (browse.dfy), `Paging` (paging.dfy) |
| public/wwwroot/js/users.js | `Users` (users.dfy), `Paging` |
| migrationClasses/MigrationBuilder.js | `Schema` (schema.dfy) |
| migrations/20250621012658_init.js | `InitMigration` (init_migration.dfy) |
| migrations/20250619210632_add_genre_table_and_book_genreId.js | `GenreMigration` (genre_migration.dfy) |
| auth.js | `Auth` (auth.dfy) |

Shared modules:
- `Wrappers` — `Option`, standing for a missing, `null` or `undefined` field.
- `Http` — what a script sees of `fetch`: a network error, or a status and a JSON body that may fail to parse.
- `JsText` — `String.prototype.trim`, `parseInt(s, 10)` and `String(n)` for integers below 2^53 in magnitude, the ones a JavaScript number holds exactly.

I/O is turned into parameters:
- Every server answer a script awaits is a parameter of the operation that handles it.
- The rows `SELECT DISTINCT genre` returns are a parameter of the genre migration's `up`.
- The database and bcrypt calls of `login` are function parameters.

## Model

| member | source | states |
|---|---|---|
| JsText.TrimIsPiece | public/wwwroot/js/users.js:84-86 | `trim()` returns a contiguous piece of its input, and everything dropped before and after it is whitespace. |
| JsText.TrimEnds | public/wwwroot/js/users.js:84-86 | What `trim()` returns neither starts nor ends with whitespace. |
| JsText.TrimIdempotent | public/wwwroot/js/browse.js:200 | Trimming twice gives the same result as trimming once. |
| JsText.Unsigned | public/wwwroot/js/cart.js:132 | Drops one leading `+` or `-` and nothing else. Text without a leading sign is kept whole. |
| JsText.ParseIntOfSplit | public/wwwroot/js/cart.js:132 | Whitespace, an optional sign, a non-empty run of digits and a rest not starting with a digit: `parseInt(s, 10)` gives the run's value, negated after `-`. |
| JsText.ParseIntNaN | public/wwwroot/js/cart.js:132 | Whitespace and an optional sign followed by no digit give NaN. |
| JsText.ParseIntSplit | public/wwwroot/js/cart.js:132 | Every string splits into whitespace, an optional sign, the run of digits after it and the rest. `parseInt(s, 10)` is NaN exactly when that run is empty, and otherwise the run's signed value. |
| JsText.ParseIntDecimal | public/wwwroot/js/cart.js:101-134 | `parseInt` reads back the decimal text of an integer, even when a non-digit follows it. This is JavaScript's behaviour for integers below 2^53 in magnitude; the model's integers are unbounded. |
| Http.OrElse | public/wwwroot/js/cart.js:184 | `s \|\| fallback` gives `s` when it is present and non-empty, else the fallback. |
| Books.ReplaceAll | public/wwwroot/js/books.js:50-53 | A global replace leaves a string without the character unchanged. Every output character comes from the input (other than the replaced one) or from the replacement. |
| Books.EscapeChar | public/wwwroot/js/books.js:50-53 | A character is changed exactly when it is one of `& < > "`. A changed character becomes an entity starting with `&`. |
| Books.EscapeHtmlIsPerCharacter | public/wwwroot/js/books.js:48-54 | The four chained replacements equal the per-character mapping. Because `&` goes first, the generated entities are never escaped again. |
| Books.UnescapeEscapeHtml | public/wwwroot/js/books.js:48-54 | Round trip: decoding the four entities gives back the original comment. |
| Books.EscapeHtmlInjective | public/wwwroot/js/books.js:50-53 | Two comments with the same escaped form are equal. |
| Books.EscapeHtmlNoMarkup | public/wwwroot/js/books.js:51-53 | Escaped text contains no `<`, `>` or `"`. |
| Books.EscapeHtmlUnchangedIff | public/wwwroot/js/books.js:48-54 | Escaping leaves a string unchanged exactly when it contains none of `& < > "`. `'` is left alone. |
| Books.RenderStars | public/wwwroot/js/books.js:43-46 | A rating r in 0..5 gives r full stars, then 5-r empty stars, 5 in all. Any other rating throws, because `repeat` refuses a negative count. |
| Books.LatestReviews | public/wwwroot/js/books.js:19 | The cards are the first min(n, 5) reviews in server order. A missing list gives none. |
| Books.ReviewerName | public/wwwroot/js/books.js:26 | A missing or empty first name shows as "Anonymous". Any other first name is shown as is. |
| Books.EntryOf | public/wwwroot/js/books.js:22-33 | A card shows the reviewer name, the stars of its own rating and the escaped comment (or nothing for an empty one). It cannot be rendered exactly when its stars throw. |
| Books.Entries | public/wwwroot/js/books.js:22-33 | The cards are one per review, in order. The map fails exactly when some rating lies outside 0..5. |
| Books.SummaryOf | public/wwwroot/js/books.js:13-17 | The summary shows `count \|\| 0`. The average line, with the stars of `avgRating`, appears exactly when count is non-zero, and "No reviews yet." exactly when it is zero or missing. It throws exactly when the average line is due and its stars throw. |
| Books.LoadReviews | public/wwwroot/js/books.js:9-40 | "Could not load reviews." with no cards shows exactly when the request or body fails, the summary throws or a card throws. Otherwise the page shows the summary and the cards of the first five reviews, at most 5 cards. |
| Books.NameIsNotEscaped | public/wwwroot/js/books.js:26-30 | The first name goes into the card unescaped: a name `<b>` reaches the page as `<b>`, while the same text as a comment is escaped. |
| Books.SummaryShowsOneLine | public/wwwroot/js/books.js:14-16 | Exactly one of the two summary lines is shown. |
| Books.CardsFollowServerOrder | public/wwwroot/js/books.js:19-33 | Card i is the card of review i of the server's list, and i < 5. |
| Cart.CartCountAppend | public/wwwroot/js/cart.js:37 | The badge count of a concatenation is the sum of the two parts' counts. |
| Cart.CartCountFirst | public/wwwroot/js/cart.js:37 | The left fold equals the first quantity plus the count of the rest. The count is the sum of the quantities in any grouping. |
| Cart.CartCountAtLeastLines | public/wwwroot/js/cart.js:37 | With quantities of at least 1, the count is at least the number of lines. |
| Cart.FabBadge | public/wwwroot/js/cart.js:31-47 | The count is written exactly for an OK answer with a list, and it is that list's quantity sum. The badge shows exactly when that sum is positive. Any failure hides the badge. |
| Cart.BadgeShownIffNonEmpty | public/wwwroot/js/cart.js:37-39 | With quantities of at least 1, the badge shows exactly when the cart has a line. |
| Cart.ImageSrc | public/wwwroot/js/cart.js:49-53 | The image source is `imageUrl` if present, else a `data:image/jpeg;base64,` URL of the stored image, else the placeholder. |
| Cart.MaxAttributeReadsBack | public/wwwroot/js/cart.js:101-134 | `parseInt(input.max)` reads back `maxQuantity`, or 99 when that is missing or 0. The attribute holds no `x`, so the radix-less call reads it in base 10. |
| Cart.TypedQuantity | public/wwwroot/js/cart.js:132 | `parseInt(value, 10) \|\| 1`: NaN and 0 read as 1, any other number as itself. |
| Cart.StepperRequest | public/wwwroot/js/cart.js:132-134 | `-` asks for max(1, q-1): 1 or q-1, at least 1, and q-1 whenever q >= 2. `+` asks for min(max, q+1): `max` or q+1, never above either, and q+1 whenever q < max. `+` is NaN exactly when `max` does not parse. |
| Cart.TypedRequest | public/wwwroot/js/cart.js:143-144 | A typed quantity of at least 1 is sent as is. NaN or anything below 1 is sent as 1. |
| Cart.TypedDecimal | public/wwwroot/js/cart.js:101 | An input holding the decimal text of a non-zero quantity reads back as that quantity. |
| Cart.StepUpThenDown | public/wwwroot/js/cart.js:127-136 | For 1 <= q < max, `+` from q asks for q+1, and `-` from q+1 asks for q. |
| Cart.StepperStaysInBounds | public/wwwroot/js/cart.js:127-136 | From a readable quantity of at least 1, the stepper asks for a value in [1, max]. The one exception is a `-` from above max, which asks for q-1. |
| Cart.UpdateResult | public/wwwroot/js/cart.js:170-191 | OK reloads the cart. 401/403 opens the login modal and leaves the input alone. Any other answer shows the server's error or "Error updating cart". A thrown request or body shows "Could not update cart". Every rejected update resets the input to 1. |
| Cart.Lines | public/wwwroot/js/cart.js:90-112 | One rendered line per item, in order. |
| Cart.LoadCart | public/wwwroot/js/cart.js:55-168 | 401/403 gives the login prompt only. The error panel shows exactly for a network error, or for a non-OK non-auth status or an unreadable body. A missing or empty list gives only the empty state. An OK answer with items shows exactly their lines, the total and both buttons. |
| Cart.LineStartsAtQuantity | public/wwwroot/js/cart.js:101 | A line's stepper starts at its item's quantity. A zero quantity reads as 1. |
| Paging.EnabledButtonsStayInRange | public/wwwroot/js/browse.js:180-181 | Prev is enabled exactly when page-1 is a page, and next exactly when page+1 is one. On a single page both are disabled. |
| Browse.GenreKey | public/wwwroot/js/browse.js:138 | A book's group key is its genre, or "Other" when that is empty. The key is never empty. |
| Browse.KeysMembership | public/wwwroot/js/browse.js:136-142 | A genre has a group exactly when some book has that genre. |
| Browse.InGroupMembership | public/wwwroot/js/browse.js:137-141 | A group holds exactly the books of its genre. |
| Browse.GroupByGenre | public/wwwroot/js/browse.js:136-142 | The push loop over `byGenre` gives the reference grouping. The keys come in order of first occurrence, and each group keeps its books in input order. It throws exactly when some key names an inherited `Object.prototype` member such as `constructor`. |
| Browse.KeysDistinct | public/wwwroot/js/browse.js:139-142 | No genre has two groups. |
| Browse.EachBookInOneGroup | public/wwwroot/js/browse.js:136-149 | Every book lies in the group of its key and in no other group. |
| Browse.GroupSizesAddUp | public/wwwroot/js/browse.js:136-149 | The group sizes add up to the number of books. |
| Browse.TileDescription | public/wwwroot/js/browse.js:107 | A description of at most 110 characters is kept. A longer one becomes its first 110 characters then "...". A missing one becomes "". The result is at most 113 characters. |
| Browse.TileDescriptionIdempotent | public/wwwroot/js/browse.js:107 | Cutting an already cut description changes nothing. |
| Browse.BottomOf | public/wwwroot/js/browse.js:110 | The out-of-stock badge replaces the button holder exactly when `stockQuantity === 0`. |
| Browse.AddButtons | public/wwwroot/js/browse.js:118-127 | At most one button per tile. Every button asks for quantity 1 of the `data-book-id` of a tile that has a holder. |
| Browse.OneButtonPerHolder | public/wwwroot/js/browse.js:110-127 | There is exactly one button per holder. A page of out-of-stock tiles has none. |
| Browse.ButtonsFollowHolders | public/wwwroot/js/browse.js:118-127 | Buttons follow the holders in document order: a tile with a holder gets the button numbered by the holders before it, for one copy of that tile's book. |
| Browse.AddButtonOfBook | public/wwwroot/js/browse.js:75-124 | An in-stock book's button asks for one copy, by an id that reads back as the book's id. |
| Browse.Tiles | public/wwwroot/js/browse.js:159 | One tile per book, in order. |
| Browse.BrowsePage.constructor | public/wwwroot/js/browse.js:1-4 | The initial state is page 1 of 1, with no search and no genre. |
| Browse.BrowsePage.LoadBooks | public/wwwroot/js/browse.js:128-182 | Records the page, search and genre, and sends them with page size 24. Grouped rendering happens exactly when both search and genre are empty, flat otherwise, and an empty page shows "No books found.". A rendered answer sets the page count and both buttons. A failed request or body, or a grouped render that throws, leaves the spinner, the page count and the buttons. |
| Browse.BrowsePage.Search | public/wwwroot/js/browse.js:196-211 | A search or genre change loads page 1, with the trimmed search text, and leaves exactly the state that load leaves. |
| Browse.BrowsePage.Prev | public/wwwroot/js/browse.js:213-217 | While the page is above 1, loads exactly one page back with the last filters and leaves that load's list, page count and buttons. Otherwise nothing changes. |
| Browse.BrowsePage.Next | public/wwwroot/js/browse.js:219-223 | While the page is below the known page count, loads exactly one page on with the last filters and leaves that load's list, page count and buttons. Otherwise nothing changes. |
| Users.SubmitUserForm | public/wwwroot/js/users.js:61-89 | Create mode refuses differing passwords with "Passwords do not match." and an empty one with "Password is required.". Edit mode checks neither. A user id selects PUT `/api/users/{id}`, none selects POST `/api/register`. Names and email are trimmed; password and role go as typed. |
| Users.EditModeSkipsPasswordChecks | public/wwwroot/js/users.js:65-78 | Edit mode always sends, whatever passwords were typed. |
| Users.MismatchReportedFirst | public/wwwroot/js/users.js:67-77 | An empty password with a non-empty confirmation is reported as a mismatch. |
| Users.SaveResult | public/wwwroot/js/users.js:92-109 | A save succeeds exactly on an OK status with `success` or a non-zero `id`, and it then reloads `window.currentPage \|\| 1`. Otherwise it shows the server's error or the mode's fallback. |
| Users.RowsOf | public/wwwroot/js/users.js:124-142 | The table has one row per user, in order, or the single "No users found." row. |
| Users.UsersPage.LoadUsers | public/wwwroot/js/users.js:112-155 | Requests the page. On success it shows the rows and takes the page, the page count and both button states from the answer. On failure it shows the error with an empty table and keeps the requested page. |
| Schema.ColumnOps | migrationClasses/MigrationBuilder.js:13-26 | A string column gets its length or 255. A foreign column gets an unsigned integer plus a foreign key whose onDelete defaults to CASCADE. A timestamp column gets the timestamps pair. An integer column gets a plain integer, whatever other flags it has. Unknown types get nothing. |
| Schema.ColumnsOpsAppend | migrationClasses/MigrationBuilder.js:12-27 | Columns produce their calls in declaration order. |
| Schema.TableOpsShape | migrationClasses/MigrationBuilder.js:9-30 | The table starts with the `id` primary key and ends with the default timestamps. Every column's calls come between them, in order. |
| Schema.UnknownColumnIgnored | migrationClasses/MigrationBuilder.js:12-27 | A column of an unrecognised type adds nothing. |
| Schema.TimestampsPerTable | migrationClasses/MigrationBuilder.js:19-29 | Each `timestamp` column adds the pair once more, on top of the default one. |
| Schema.TableOfRef | migrationClasses/MigrationBuilder.js:25 | The table part of a reference is its longest dot-free prefix: all of it, or everything before its first dot. |
| Schema.TableOfRefDotted | migrationClasses/MigrationBuilder.js:25 | `table.column` references `table`. |
| Schema.ColumnTargets | migrationClasses/MigrationBuilder.js:23-26 | A column declares a foreign key exactly when it is a `foreign` column. |
| Schema.TableTargets | migrationClasses/MigrationBuilder.js:9-30 | The foreign keys of a table are exactly those of its `foreign` columns. |
| Schema.Catalogue.CreateTable | migrationClasses/MigrationBuilder.js:9 | `createTable` succeeds exactly for a new name whose foreign keys point at existing tables, and then adds exactly that table. |
| Schema.Catalogue.DropTable | migrationClasses/MigrationBuilder.js:34 | `dropTable` succeeds exactly for an existing table that no other table references, and then removes exactly that table. |
| Schema.MigrationBuilder.constructor | migrationClasses/MigrationBuilder.js:2-6 | The builder takes the table name and the columns from the model unchanged. |
| Schema.MigrationBuilder.AddColumn | migrationClasses/MigrationBuilder.js:12-27 | One column's type dispatch appends exactly that column's calls. |
| Schema.MigrationBuilder.Up | migrationClasses/MigrationBuilder.js:8-31 | The `forEach` loop builds exactly the calls of the reference definition. `up` creates the model's table with them, and it fails exactly when the catalogue refuses the table. |
| Schema.MigrationBuilder.Down | migrationClasses/MigrationBuilder.js:33-35 | `down` drops exactly the model's table, and it fails exactly when the catalogue refuses. |
| InitMigration.NamesDistinct | migrations/20250621012658_init.js:18-32 | The thirteen models have distinct table names, so each table is created once. |
| InitMigration.DownReversesUp | migrations/20250621012658_init.js:34-48 | `down` lists the models of `up` in exactly the reverse order. |
| InitMigration.NoForeignKeys | models/order.js:5 | Models whose `userId` only says `foreignKey: true` (or that have no foreign columns) declare no foreign key. |
| InitMigration.BookImageTargets | models/book_image.js:5 | `book_image` references exactly `book`. |
| InitMigration.WishlistItemTargets | models/wishlist_items.js:5-6 | `wishlist_items` references exactly `wishlist` and `book`. |
| InitMigration.OrderItemTargets | models/order_items.js:5-6 | `order_items` references exactly `order` and `book`. |
| InitMigration.PaymentTargets | models/payment.js:5 | `payment` references exactly `order`. |
| InitMigration.ShippingTargets | models/shipping.js:5 | `shipping` references exactly `order`. |
| InitMigration.ReviewTargets | models/review.js:6 | `review` references exactly `book`. |
| InitMigration.ShoppingCartItemTargets | models/shopping_cart_items.js:5-6 | `shopping_cart_items` references exactly `shopping_cart` and `book`. |
| InitMigration.ReferencesPointBackwards | migrations/20250621012658_init.js:18-32 | Each model's foreign keys point only at tables that an earlier step of `up` creates. |
| InitMigration.UpOrderWellFormed | migrations/20250621012658_init.js:18-32 | The order of `up` has distinct names, and every foreign key points backwards. |
| InitMigration.InstalledKeys | migrations/20250621012658_init.js:18-32 | After the steps, the tables are the original ones plus the models' tables. |
| InitMigration.CreateStepSucceeds | migrations/20250621012658_init.js:19-31 | On a schema without the migration's tables, every step of `up` finds its name free and its foreign-key targets present. |
| InitMigration.DropStepUnreferenced | migrations/20250621012658_init.js:35-47 | When `down` reaches a table, that table exists and no remaining table references it. |
| InitMigration.DropUndoesCreate | migrations/20250621012658_init.js:34-48 | Dropping one step's table undoes that step. |
| InitMigration.InstalledPrefix | migrations/20250621012658_init.js:34-48 | Removing the tables of the later steps leaves what the earlier steps built. |
| InitMigration.CreateStep | migrations/20250621012658_init.js:19-31 | A single line of `up` adds exactly its model's table. As a step of a list with distinct names whose foreign keys point backwards, it succeeds on a schema without the list's tables. |
| InitMigration.DropStep | migrations/20250621012658_init.js:35-47 | A single line of `down` removes exactly its model's table. As a step of a list with distinct names whose foreign keys point backwards, it succeeds on what the creation of that list built. |
| InitMigration.Up | migrations/20250621012658_init.js:18-32 | A successful `up` adds the thirteen tables, in order. On a schema without them, every step succeeds. |
| InitMigration.Down | migrations/20250621012658_init.js:34-48 | A successful `down` removes exactly the thirteen tables. On what `up` built, every step succeeds, so each referencing table is dropped before the table it references. |
| InitMigration.UpThenDown | migrations/20250621012658_init.js:18-48 | `down` after a successful `up` succeeds and gives back exactly the tables there were before. |
| GenreMigration.Lookup | migrations/20250619210632_add_genre_table_and_book_genreId.js:21 | The look-up finds a row with that name, or fails exactly when no row has it. |
| GenreMigration.FindById | migrations/20250619210632_add_genre_table_and_book_genreId.js:51 | The look-up finds a row with that id, or fails exactly when no row has it. |
| GenreMigration.LookupAppend | migrations/20250619210632_add_genre_table_and_book_genreId.js:21-25 | A row found by name is still the one found after rows are appended. |
| GenreMigration.FindByOwnId | migrations/20250619210632_add_genre_table_and_book_genreId.js:51 | With distinct ids, a look-up by a row's own id finds that row. |
| GenreMigration.SetGenreId | migrations/20250619210632_add_genre_table_and_book_genreId.js:27 | The update sets `genreId` on exactly the books with that genre and changes nothing else. |
| GenreMigration.SetGenreWhereId | migrations/20250619210632_add_genre_table_and_book_genreId.js:53 | The update sets the genre of exactly the book with that id and changes nothing else. |
| GenreMigration.WithoutGenreIds | migrations/20250619210632_add_genre_table_and_book_genreId.js:12-14 | Adding or dropping `genreId` leaves every other column of every row alone. |
| GenreMigration.WithoutGenres | migrations/20250619210632_add_genre_table_and_book_genreId.js:31-33 | Adding or dropping the genre column leaves every other column of every row alone. |
| GenreMigration.CopyGenresKeepsRows | migrations/20250619210632_add_genre_table_and_book_genreId.js:17-28 | The copy loop changes only `genreId`, and it only appends genre rows. |
| GenreMigration.CopyGenresKeepsIds | migrations/20250619210632_add_genre_table_and_book_genreId.js:21-25 | Inserted ids stay positive, distinct and below the auto-increment counter. |
| GenreMigration.CopyGenresRows | migrations/20250619210632_add_genre_table_and_book_genreId.js:17-28 | Because the look-up comes before the insert, every genre row is the first with its name. Every inserted row comes from a record, and every truthy record has a row. |
| GenreMigration.IdOf | migrations/20250619210632_add_genre_table_and_book_genreId.js:21-25 | A name has an id exactly when a row has that name, and the id is that row's. |
| GenreMigration.CopyGenresIds | migrations/20250619210632_add_genre_table_and_book_genreId.js:17-28 | A book whose genre is a truthy record points at that genre's row. Every other book keeps its `genreId`. |
| GenreMigration.LookupFindsFirst | migrations/20250619210632_add_genre_table_and_book_genreId.js:21-25 | A look-up by a row's name finds that row or an earlier one. |
| GenreMigration.Named | migrations/20250619210632_add_genre_table_and_book_genreId.js:50-52 | `down` finds a name exactly for a truthy `genreId` that a genre row has, and the name is that row's. |
| GenreMigration.RestoreGenresRows | migrations/20250619210632_add_genre_table_and_book_genreId.js:48-55 | `down`'s loop gives each book the name of its genre row. A book with no `genreId`, or one pointing at a missing row, is left as it was. |
| GenreMigration.CopyGenresNamesTruthy | migrations/20250619210632_add_genre_table_and_book_genreId.js:19 | Empty genres are never inserted. |
| GenreMigration.UpNormalises | migrations/20250619210632_add_genre_table_and_book_genreId.js:6-39 | After `up`, each distinct non-empty genre has exactly one row, named by a record, and every book with that genre points at it. Books with an empty or null genre keep a null `genreId`, and the genre column is gone. |
| GenreMigration.UpThenDown | migrations/20250619210632_add_genre_table_and_book_genreId.js:6-65 | Round trip: `down` after `up` gives every book back its original genre when that was non-empty, and null otherwise. |
| GenreMigration.Database.Up | migrations/20250619210632_add_genre_table_and_book_genreId.js:6-39 | Succeeds exactly when the genre table is absent and the genre column exists. The rows then are exactly the reference result, with the column, foreign-key and flag changes of steps 1-5. The results of both failure points are stated in full. |
| GenreMigration.Database.Down | migrations/20250619210632_add_genre_table_and_book_genreId.js:41-65 | As written on MySQL: succeeds exactly when the genre column is absent, `genreId` exists and no foreign key uses it. Then the books get back their names, and `genreId` and the genre table are gone. Otherwise it stops where it fails, with the names already copied back when `genreId` exists. |
| GenreMigration.Database.DownDroppingForeignKey | migrations/20250619210632_add_genre_table_and_book_genreId.js:41-65 | With the foreign key dropped first: succeeds exactly when the genre column is absent and `genreId` exists with its foreign key, since dropping a missing key is refused too. On a refusal at the key the names stay copied back and nothing else changes. On success the books get back their names, and `genreId`, its foreign key and the genre table are gone. |
| GenreMigration.Database.RestoreGenreColumn | migrations/20250619210632_add_genre_table_and_book_genreId.js:42-55 | Steps 1 and 2 of `down`: fail when the genre column exists or `genreId` does not. Otherwise the names are copied back and nothing else changes. |
| GenreMigration.Database.DropGenreIdAndTable | migrations/20250619210632_add_genre_table_and_book_genreId.js:57-64 | Steps 3 and 4 of `down`, once no foreign key uses `genreId`: every `genreId` is gone, and so are the genre rows and the table. |
| GenreMigration.DownAfterUp | migrations/20250619210632_add_genre_table_and_book_genreId.js:6-65 | As written, `down` right after a successful `up` fails for every table of books. |
| GenreMigration.UpThenDownRestores | migrations/20250619210632_add_genre_table_and_book_genreId.js:6-65 | With the foreign key dropped first, `down` right after `up` succeeds, and every book gets back its genre when that was non-empty, and null otherwise. |
| GenreMigration.Database.CopyGenreRecords | migrations/20250619210632_add_genre_table_and_book_genreId.js:17-28 | The copy loop of `up` leaves exactly the reference result of the records, and it touches no column, foreign-key or table flag. |
| GenreMigration.Database.RestoreGenreNames | migrations/20250619210632_add_genre_table_and_book_genreId.js:48-55 | The copy-back loop of `down` leaves exactly the reference result over the selected rows, and it changes nothing else. |
| Auth.ResponseOf | auth.js:7-27 | An accepted login redirects to `/dashboard`. A rejected one answers 401 "Invalid credentials". A failed one answers 500 "Server error". |
| Auth.LoginCases | auth.js:5-27 | With both modules bound: a login is accepted exactly when the look-up finds a user and the hash matches, and the session user is that record's id, email and role. It fails exactly when the look-up or the comparison throws. It is rejected exactly for an unknown email or a wrong password. |
| Auth.UnknownEmailLooksLikeWrongPassword | auth.js:6-14 | An unknown email and a wrong password get the same response. |
| Auth.AsWrittenAlwaysFails | auth.js:5-27 | As written, with `db` and `bcrypt` unbound, every login is a 500 "Server error". |
| Auth.AsWrittenRefusesGoodCredentials | auth.js:5-27 | As written, a registered user with the right password is refused. With both modules bound, the same user signs in. |
| Auth.Session.RequireAuth | auth.js:34-39 | `next` is called exactly when the session holds a user. Otherwise the answer is a redirect to `/login`. |
| Auth.Session.Login | auth.js:2-28 | The response is the attempt's response. `session.user`, set to `{id, name: undefined, email, role}` of the record, changes only on success, and the guard then lets the session through. |
| Auth.Session.Logout | auth.js:30-32 | The session is destroyed and holds no user, the response redirects to `/login`, and the guard sends any later request there. |

## Left out

- Prices, totals and the average rating are floating point (`price * quantity`, `toFixed`, `Math.round`). They are not modelled. Star ratings are integers, and the average is taken as already rounded.
- DOM updates, `innerHTML` templates, modals, toasts, event binding and redirects are not modelled. Only the decisions behind them are, as values: which element shows, which request is sent, which message appears.
- `fetch` and the async order of awaits are not modelled. Each answer is a parameter, and the scripts' concurrent requests (for example `updateCartFab` racing `loadCart`) are not modelled.
- Browse.GroupByGenre: object key order is taken to be insertion order. JavaScript puts integer-like keys (a genre named "2020") first in ascending order, and that is not modelled. Keys naming inherited `Object.prototype` members are modelled as the throw they cause.
- Strings are sequences of code points. UTF-16 length differences (a description cut inside a surrogate pair) and the database collation's case and accent folding in `where('genre', ...)` are not modelled; comparison is exact.
- `loadGenres`, the add-to-cart click handler's responses, `removeItem`, `clearCart`, the cart button's handler and `openLoginModal` are request and toast glue. They use the same status handling as `UpdateResult` and are not modelled.
- Flags the builder never reads (`unique`, `foreignKey`, `constraints`, `default`) are ignored by the model too. `Schema.Catalogue` models only the refusals that matter to the migrations: an existing table, a missing foreign-key target, and dropping a referenced table. One refusal it does not model: a `timestamp` column makes the builder call `timestamps(true, true)` a second time (MigrationBuilder.js:19 and :29), and MySQL refuses that CREATE TABLE for its duplicate `created_at`. `Catalogue.CreateTable` accepts such a table; no model of the init migration has a `timestamp` column.
- Numbers are modelled as unbounded integers. A JavaScript number is a double: it holds integers exactly only below 2^53 in magnitude, and `String(n)` switches to exponent form from 1e21 (`String(1e21)` is `"1e+21"`, which `parseInt` reads as 1). Rounding above 2^53 and the exponent form are not modelled.
- JsText.ParseIntDecimal, Cart.TypedDecimal, Cart.MaxAttributeReadsBack: the round trip through `String(n)` and `parseInt` is proved for every integer, but holds in JavaScript only below 2^53 in magnitude.
- Cart.TypedRequest: a typed quantity whose digits exceed 2^53, such as `99999999999999999999`, is returned exactly. JavaScript's `parseInt` rounds it to the nearest double (`100000000000000000000`), and that rounded value is what gets sent.
- `parseInt` without a radix (`input.max`) is modelled as base 10. The two differ only for text starting with `0x` or `0X`, which the `max` attribute never holds.
- InitMigration.Up and InitMigration.Down: when a step fails midway, the tables created so far stay, because MySQL DDL is not transactional. The contracts only say that a step fails, with the schema that failing step saw left unchanged.
- GenreMigration.Database.Up: the rows of `SELECT DISTINCT genre` and their order are a parameter, since the database decides them. The round-trip lemmas require that they cover every book genre.
- GenreMigration.Database.Up: step 5 (`genreId` NOT NULL) is only a flag. A server in strict mode would refuse that alter while a book has a null `genreId`, and this is not modelled.
- The genre migration loads `../models/Genre` and `../models/Book` while the files are `genre.js` and `book.js`. On a case-sensitive file system the migration module would fail to load; the model assumes it loads.
- `returning('id')` is modelled as the auto-increment counter. The `typeof id === 'object'` branch covers drivers that return rows and gives the same id.
- Password hashing, the session store and its `destroy` error path are not modelled: the look-up and bcrypt calls are oracles. A missing request body, which would make the destructuring outside the `try` throw and leave the request unanswered, is not modelled either.

## Findings

| source | as written | input that shows it | evidently intended | confidence | as-written member | corrected member |
|---|---|---|---|---|---|---|
| auth.js:5-11 | `login` uses `db` and `bcrypt` but the file never requires them. The reference error is caught, so every login answers 500. | A registered email with its correct password gets 500 "Server error". | Look the user up, compare the hash, and sign in, as `Auth.LoginCases` states. | not executed | Auth.AsWrittenRefusesGoodCredentials | Auth.Session.Login |
| migrations/20250619210632_add_genre_table_and_book_genreId.js:57-60 | `up` adds `genreId` with a foreign key to `genre.id`. `down` drops the column without `dropForeign`, and MySQL refuses to drop a column a foreign key uses. | `down` right after `up`: it copies the names back, then fails at step 3, leaving `genreId` and the genre table. | Drop the foreign key, then the column, then the table, so that `down` undoes `up`. | not executed; depends on the server being MySQL | GenreMigration.DownAfterUp | GenreMigration.UpThenDownRestores |
