# Online book store: cart engine, account rules and catalog gate

This project models the request handlers of an online bookstore backend written in Go (gin + MongoDB).
The model covers the handlers' sequential logic, not the web or database plumbing:

- **Account rules** (`controllers/userController.go`). Sign-up refuses a second admin and a duplicate email, and stores only the hash of the password. Login checks a password against the stored hash. A password update replaces the stored hash.
- **Cart engine** (same file). Each cart operation reads the user's embedded cart, changes it and writes the whole list back. Adding appends a line with quantity 1. Incrementing bumps every line with the id. Removing splices out the first line with the id.
- **Catalog rules** (`controllers/booksController.go`). Book names are listed in collection order, and search compares six fields. Add, update and delete are gated on the role `"admin"`. The update patch is built from the non-empty request fields, and a delete count of zero is answered with 404.

The two MongoDB collections are an in-memory `Store.Database`. Users are a `map` keyed by email, and books are a `seq` in natural order. Each handler is a method that takes the database, the foreign services, what the request carries, and a flag for each store call that can fail. It returns a `Http.Result`: `Ok`, or one of the three error responses the code sends (400, 404 or 500, each with the code's own message).

Modules follow the source:
- `Models`: the records of `models/`.
- `Http`: responses and decoded bodies.
- `Auth`: the Authorization header and the foreign services.
- `Cart` and `Catalog`: the list logic.
- `Store`: the collections.
- `UserController` and `BooksController`: the handlers.

The foreign code is passed in as a `Services` value of four functions (`hash`, `verifyPassword`, `issueToken`, `verifyToken`). What these calls draw from outside is a parameter of the call: `hash` takes the salt bcrypt draws, and `issueToken` takes the time of issue. So two hashes of one password, or two tokens for one email, need not agree, and the model assumes nothing else about bcrypt or the token format.

Points where the code behaves other than one might expect, which the model follows:
- The code never looks at the first seven characters of the Authorization header; any prefix of that length works like `Bearer ` (`Auth.PrefixNeverChecked`).
- Sign-up stores whatever cart the request body carries, so a cart line with quantity 1 or more is not guaranteed. The model proves instead that every line the increment touches is priced correctly (`Cart.IncrementKeepsPrices`).
- AddBookToCart answers with a message only, not the new line, and the model returns `()`.
- When several cart lines share an id, the increment bumps all of them and reports the last one (`Cart.IsLastMatch`).
- The one deliberate departure: a header of 1 to 6 bytes makes the code panic (see "## Findings"). The handlers use the corrected header handling and answer such a header with 500 "internal server error".

## Model

| member | source | states |
|---|---|---|
| Auth.StripBearerAsWritten | controllers/booksController.go:81-86 | As written: an empty header is refused, a header of 1 to 6 characters panics on the slice, and otherwise the token is everything after the first 7 characters |
| Auth.ShortHeaderPanics | controllers/userController.go:191-196 | The 5-character header "Basic" reaches the out-of-range slice |
| Auth.StripBearer | controllers/booksController.go:81-86 | Corrected: a header shorter than 7 characters is refused with 500 "internal server error"; otherwise the token is the header minus its first 7 characters |
| Auth.StripBearerAgrees | controllers/booksController.go:81-86 | On every header the code as written answers, the corrected handling gives the same answer |
| Auth.StripBearerRoundTrip | controllers/userController.go:196 | "Bearer " + t yields exactly t |
| Auth.PrefixNeverChecked | controllers/booksController.go:86 | Any 7-character prefix gives the same token as "Bearer " |
| Store.OnlyOneAdminPasses | controllers/booksController.go:100 | In a valid store, any two headers that authenticate to users passing the role check stand for the same stored user, so the admin gate lets one account through |
| Cart.NewLine | controllers/userController.go:214-219 | The new line carries the fresh id and the book's name, price and author, with quantity 1 and amount = price, so it is priced correctly |
| Cart.AddAppendsOneLine | controllers/userController.go:214-220 | Adding appends exactly one line at the end, with the id, the book's name, price and author, quantity 1 and amount = price; earlier lines are unchanged |
| Cart.AddTwiceGivesTwoLines | controllers/userController.go:214-220 | Adding the same book twice gives two lines of quantity 1, not one line of quantity 2 |
| Cart.Bump | controllers/userController.go:269-270 | Quantity goes up by one, the amount is price × new quantity, and id, name, price and author are kept |
| Cart.Incremented | controllers/userController.go:264-275 | Same length; each line with the id has quantity + 1 and amount = price × new quantity; every other line is identical |
| Cart.IncrementKeepsOrder | controllers/userController.go:267-275 | Ids, names, prices and authors stay at their positions |
| Cart.IncrementKeepsPrices | controllers/userController.go:269-270 | Every bumped line is correctly priced; a cart of correctly priced lines stays so |
| Cart.IncrementMissingIsIdentity | controllers/userController.go:267-280 | An id on no line leaves the cart unchanged |
| Cart.BumpQuantities | controllers/userController.go:264-275 | The loop builds exactly the incremented cart; the found flag holds iff some line has the id; the reported item is the bumped last matching line |
| Cart.FirstMatch | controllers/userController.go:324-330 | -1 iff no line has the id; otherwise the first line with the id |
| Cart.FindLineIndex | controllers/userController.go:324-330 | The loop with break returns the first matching index, or -1 |
| Cart.RemoveAt | controllers/userController.go:337 | The splice drops line k: length − 1, prefix kept, later lines shifted down by one, multiset minus exactly that line |
| Cart.RemoveDropsFirstMatch | controllers/userController.go:324-337 | Removal takes out the first line with the id, and no earlier line had it |
| Catalog.BookNames | controllers/booksController.go:32-40 | One name per book, in collection order |
| Catalog.Search | controllers/booksController.go:51-60 | A book is in the result iff it is stored and the parameter equals its name, author_name, genre, description, publication or category |
| Catalog.SearchAppend | controllers/booksController.go:61-70 | The search keeps collection order: searching a + b gives Search(a) + Search(b) |
| Catalog.AuthorInfoNotSearched | controllers/booksController.go:51-60 | A book matching only by author_info is not found |
| Catalog.FindByName | controllers/userController.go:209-213 | None iff no book has the name; otherwise the first book with it |
| Catalog.FirstWithId | controllers/booksController.go:189-195 | -1 iff no book has the id; otherwise the first one |
| Catalog.BuildPatch | controllers/booksController.go:162-187 | The conditional appends produce the patch PatchOf(body, now) |
| Catalog.PatchShape | controllers/booksController.go:162-187 | The patch holds exactly the non-empty fields among author_info, author_name, category, description, genre, name and publication, with the request's values, in that order, followed by updated_at = now |
| Catalog.PatchMerges | controllers/booksController.go:162-195 | Applying the patch to a stored book gives the merge: each text field is taken from the request when non-empty and kept otherwise, and updated_at is set to now |
| Catalog.PatchKeepsFixedFields | controllers/booksController.go:164-195 | The update never changes id, price or created_at |
| Catalog.UpdateFirst | controllers/booksController.go:189-195 | Same length; with no book of that id nothing changes; otherwise the first book with the id is patched and every other book is kept at its position |
| Catalog.DeleteFirst | controllers/booksController.go:242-251 | Deleted count ≤ 1; zero iff no book has the id, and then nothing changes; a count of 1 removes exactly the first book with the id, keeping the earlier books and shifting the later ones down in order, multiset minus that book |
| Catalog.DeleteAnswer | controllers/booksController.go:248-253 | A count of 0 is a 404 "book not found"; any other count is success |
| Store.Database.AdminCount | controllers/userController.go:35-44 | Positive iff an admin exists; at most 1 in a valid store |
| Store.Database.Authenticate | controllers/userController.go:191-208 | Succeeds iff the header is usable, the token is accepted and the claims' email is stored; the result is that stored user. An unusable header gives 500 "internal server error", a refused token 500 with VerifyToken's message, and an unknown email 500 "user not found" |
| Store.Database.InsertUser | controllers/userController.go:59-63 | The user is added under its email and the store invariant is kept |
| Store.Database.SetPassword | controllers/userController.go:166-168 | Only the user's password field changes |
| Store.Database.SetCart | controllers/userController.go:221-225 | Writing by `_id` replaces the cart of exactly the user with that email |
| Store.Database.InsertBook | controllers/booksController.go:111-115 | A book whose id is not yet stored is appended to the collection; the users are unchanged |
| Store.Database.UpdateBook | controllers/booksController.go:189-195 | The first book with the id is patched |
| Store.Database.DeleteBook | controllers/booksController.go:242 | The first book with the id is removed, and the count is reported |
| UserController.SignUp | controllers/userController.go:21-69 | Errors come in the code's order: body, admin count, second admin, existing email, token, insert. On success the user is stored with the fresh id and the hash of the password under this call's salt, and the token is returned. A non-admin role is unaffected by the admin count. Every failure leaves the users unchanged |
| UserController.Login | controllers/userController.go:71-102 | Succeeds iff the email is stored, verifyPassword accepts the stored hash and a token is issued; each failure has the code's message |
| UserController.UserProfile | controllers/userController.go:104-134 | Succeeds iff authentication does; returns that user's name, email, role and cart |
| UserController.UpdatePassword | controllers/userController.go:136-176 | On success exactly the caller's stored password becomes the hash of the new password under this call's salt; every failure leaves the users unchanged |
| UserController.AddBookToCart | controllers/userController.go:178-232 | On success the caller's cart becomes the old cart plus one new line for the first book with that name; an unknown name, a bad header or a store failure leaves every cart unchanged |
| UserController.UpdateBookQuantity | controllers/userController.go:234-291 | On success the caller's cart becomes the incremented cart and the bumped last match is returned; an empty id gives 400 and an unknown id 404, with no write |
| UserController.RemoveBookFromCart | controllers/userController.go:293-348 | On success the first line with the id is spliced out; an empty id gives 400 and an unknown id 404, with no write |
| UserController.SignUpThenLogIn | controllers/userController.go:52-92 | A fresh sign-up followed by a login with the same credentials both succeed, given that verifyPassword accepts its own hashes; each answers with the token issued at its own time, and the stored password is the hash |
| BooksController.GetBooks | controllers/booksController.go:23-43 | Same count as the collection, one name per book, in order |
| BooksController.GetBookByParameter | controllers/booksController.go:44-73 | Exactly the stored books matching one of the six fields, in collection order |
| BooksController.AddBook | controllers/booksController.go:75-119 | A non-admin is refused before the body is read and before the books are touched; on success the book is appended with the fresh (unused) id and both timestamps = now |
| BooksController.UpdateBookInfo | controllers/booksController.go:120-206 | A non-admin is refused, then an unparsable id gives 400, both before any update; on success the first book with the id becomes Merge(stored, request, now) and an unknown id changes nothing |
| BooksController.DeleteBook | controllers/booksController.go:208-255 | A non-admin is refused, then an unparsable id gives 400, both before any delete; success iff a book had the id, otherwise 404 "book not found"; the first such book is removed |

## Left out

- MongoDB access and per-call deadlines. The collections are in memory. A failing store call is a boolean parameter of the handler, so the failure branches can be taken. The timeouts are not modelled.
- Failing reads. A `FindOne` error other than "no document" is not modelled. SignUp's email check treats such an error as "email free".
- The two `Find` failure paths that are not separate. A cursor decode failure in GetBooks and a `cursor.All` failure in GetBookByParameter are folded into the handlers' one `findFails`.
- gin request binding and struct validation. A body is a `Http.Binding`, either decoded or a decoder error. Validation failures in SignUp are among the binding errors.
- Success payloads. `userInfo` and the JSON messages on 200 are not modelled. An empty Go slice is encoded as `null`, which the model does not distinguish from an empty list.
- bcrypt. `hash` and `verifyPassword` are parameters. The random salt bcrypt draws on every call is a parameter of SignUp and UpdatePassword, so no contract compares two hashes. HashPassword's `log.Panic` when bcrypt fails is not modelled.
- The `tokens` package is not part of this model. TokenGenerator and VerifyToken are parameters; TokenGenerator also takes the time of the call, since its claims carry issue and expiry times. Signing, expiry and claims are not modelled.
- ObjectID generation and `ObjectIDFromHex`. Fresh ids and the parse result are parameters. UserController.SignUp and BooksController.AddBook require their fresh id to be unused, as the generator ensures. So the `InsertOne` failure that MongoDB's unique `_id` index would raise on a reused id is not modelled; an insert fails only through the handler's `insertFails` flag.
- The clock. `now` is a parameter. The seconds truncation of AddBook's RFC 3339 round trip is not modelled.
- BooksController.AddBook: the code reads the clock twice (controllers/booksController.go:109-110), so created_at and updated_at can differ by a tick; the model sets both from one `now`.
- BooksController.GetBooks: the code never checks the cursor's error after `for result.Next(ctx)` (controllers/booksController.go:33), so a failure mid-iteration answers 200 with a short list. The model always lists the whole collection.
- The protected handlers (UserProfile, UpdatePassword, AddBookToCart, UpdateBookQuantity, RemoveBookFromCart, AddBook, UpdateBookInfo, DeleteBook) are modelled with the corrected header handling, `Auth.StripBearer`. On a header of 1 to 6 characters they answer 500 "internal server error", where the code panics and sends nothing (controllers/userController.go:114, 152, 196, 244, 303; controllers/booksController.go:86, 133, 220). The code's behaviour is modelled only by `Auth.StripBearerAsWritten`.
- Concurrency. Two cart writes can race, and the last whole-list write wins. The model runs one handler at a time.
- Cart.Bump: amounts use unbounded integers, so Go's `int` overflow in `Price * Quantity` is not modelled.
- Auth.StripBearerAsWritten: the header is a sequence of characters, while Go's `len` and `[len("Bearer "):]` count bytes. The two agree on ASCII headers only. A non-ASCII header such as "éééé" (4 characters, 8 bytes) is called out of range here, while the code slices it and passes the rest to VerifyToken.
- Auth.StripBearer: the same character/byte gap. The corrected handling refuses a header shorter than 7 characters, where a byte-counting fix would refuse one shorter than 7 bytes. The two agree on ASCII headers, and Auth.StripBearerAgrees holds with that reading.
- Routing and bootstrap (`routes/`, `main.go`), except for one fact used in the finding below: the router is created with `gin.New()`, which has no recovery middleware.

## Findings

| source | as written | input that shows it | evidently intended | confidence | as-written member | corrected member |
|---|---|---|---|---|---|---|
| controllers/booksController.go:81-86 | Only an empty Authorization header is refused, then the header is sliced at byte offset 7. Every protected handler does the same (e.g. controllers/userController.go:191-196). | Header `Basic` (5 bytes). The slice is out of range, and with `gin.New()` and no recovery the handler panics and no response is sent. | Refuse any header too short to hold the 7-byte prefix, with the same 500 "internal server error" | high; not executed | Auth.StripBearerAsWritten, Auth.ShortHeaderPanics | Auth.StripBearer, Auth.StripBearerAgrees |
