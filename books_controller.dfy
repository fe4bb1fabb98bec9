/**
 * The handlers of controllers/booksController.go.  The three catalog
 * mutations share the same gate: an authenticated user whose role is exactly
 * "admin", checked before the books collection is touched.  ObjectID parsing
 * and clocks are outside the model, so the parsed id and the current time
 * come in as parameters.
 */
module BooksController {
  import opened Wrappers
  import opened Models
  import opened Http
  import opened Auth
  import opened Catalog
  import opened Store

  /** The answer every catalog mutation gives a user who is not the admin. */
  const NotAdmin := ServerError("only admin is allowed to add books")

  /** GetBooks (booksController.go:23-43): the names of all books, in collection order. */
  method GetBooks(db: Database, findFails: bool) returns (r: Result<seq<string>>)
    ensures findFails ==> r == Err(ServerError("error occured while listing books"))
    ensures !findFails ==> r.Ok? && |r.value| == |db.books|
    ensures !findFails ==> forall i | 0 <= i < |db.books| :: r.value[i] == db.books[i].name
  {
    if findFails {
      return Err(ServerError("error occured while listing books"));
    }
    var booksNames := BookNames(db.books);
    r := Ok(booksNames);
  }

  /**
   * GetBookByParameter (booksController.go:44-73): the books in which one of
   * name, author_name, genre, description, publication or category equals
   * the parameter, in collection order.
   */
  method GetBookByParameter(db: Database, parameter: string, findFails: bool) returns (r: Result<seq<Book>>)
    ensures findFails ==> r == Err(ServerError("Error finding books"))
    ensures !findFails ==> r == Ok(Search(db.books, parameter))
    ensures !findFails ==> forall b :: b in r.value <==> b in db.books && Matches(b, parameter)
  {
    if findFails {
      return Err(ServerError("Error finding books"));
    }
    r := Ok(Search(db.books, parameter));
  }

  /**
   * AddBook (booksController.go:75-119): the admin's book is appended with a
   * fresh id and both timestamps set to `now`.  The body is only decoded
   * after the role check.
   */
  method AddBook(db: Database, svc: Services, header: string, body: Binding<Book>,
                 newId: ObjectId, now: Timestamp, insertFails: bool)
    returns (r: Result<()>)
    requires db.Valid()
    requires forall i | 0 <= i < |db.books| :: db.books[i].id != newId
    modifies db
    ensures db.Valid() && db.users == old(db.users)
    ensures match old(db.Authenticate(svc, header))
      case Err(f) => r == Err(f) && db.books == old(db.books)
      case Ok(u) =>
        if !IsAdmin(u) then r == Err(NotAdmin) && db.books == old(db.books)
        else
          match body
          case BindError(m) => r == Err(BadRequest(m)) && db.books == old(db.books)
          case Bound(b) =>
            if insertFails then r == Err(ServerError("Book is not created")) && db.books == old(db.books)
            else r == Ok(()) && db.books == old(db.books) + [b.(id := newId, createdAt := now, updatedAt := now)]
  {
    var auth := db.Authenticate(svc, header);
    if auth.Err? {
      return Err(auth.failure);
    }
    var foundUser := auth.value;
    if foundUser.role != AdminRole {
      return Err(NotAdmin);
    }
    if body.BindError? {
      return Err(BadRequest(body.message));
    }
    var book := body.value.(id := newId);
    book := book.(createdAt := now, updatedAt := now);
    if insertFails {
      return Err(ServerError("Book is not created"));
    }
    db.InsertBook(book);
    r := Ok(());
  }

  /**
   * UpdateBookInfo (booksController.go:120-206): the first book with the id
   * takes every non-empty text field of the request and updated_at := now;
   * its id, price and created_at stay.  A well-formed id that no book has
   * still succeeds and changes nothing.
   */
  method UpdateBookInfo(db: Database, svc: Services, header: string, parsedId: Option<ObjectId>,
                        body: Binding<Book>, now: Timestamp, updateFails: bool)
    returns (r: Result<()>)
    requires db.Valid()
    modifies db
    ensures db.Valid() && db.users == old(db.users)
    ensures match old(db.Authenticate(svc, header))
      case Err(f) => r == Err(f) && db.books == old(db.books)
      case Ok(u) =>
        if !IsAdmin(u) then r == Err(NotAdmin) && db.books == old(db.books)
        else if parsedId.None? then r == Err(BadRequest("Invalid book ID")) && db.books == old(db.books)
        else
          match body
          case BindError(m) => r == Err(BadRequest(m)) && db.books == old(db.books)
          case Bound(b) =>
            if updateFails then r == Err(ServerError("book update failed")) && db.books == old(db.books)
            else
              r == Ok(()) &&
              db.books == (var k := FirstWithId(old(db.books), parsedId.value);
                           if k < 0 then old(db.books) else old(db.books)[k := Merge(old(db.books)[k], b, now)])
  {
    var auth := db.Authenticate(svc, header);
    if auth.Err? {
      return Err(auth.failure);
    }
    var foundUser := auth.value;
    if foundUser.role != AdminRole {
      return Err(NotAdmin);
    }
    if parsedId.None? {
      return Err(BadRequest("Invalid book ID"));
    }
    var objId := parsedId.value;
    if body.BindError? {
      return Err(BadRequest(body.message));
    }
    var updateObj := BuildPatch(body.value, now);
    if updateFails {
      return Err(ServerError("book update failed"));
    }
    ghost var k := FirstWithId(db.books, objId);
    if k >= 0 {
      PatchMerges(db.books[k], body.value, now);
    }
    db.UpdateBook(objId, updateObj);
    r := Ok(());
  }

  /**
   * DeleteBook (booksController.go:208-255): the first book with the id is
   * removed; a deleted count of zero is a 404.
   */
  method DeleteBook(db: Database, svc: Services, header: string, parsedId: Option<ObjectId>, deleteFails: bool)
    returns (r: Result<()>)
    requires db.Valid()
    modifies db
    ensures db.Valid() && db.users == old(db.users)
    ensures match old(db.Authenticate(svc, header))
      case Err(f) => r == Err(f) && db.books == old(db.books)
      case Ok(u) =>
        if !IsAdmin(u) then r == Err(NotAdmin) && db.books == old(db.books)
        else if parsedId.None? then r == Err(BadRequest("Invalid book ID")) && db.books == old(db.books)
        else if deleteFails then r == Err(ServerError("failed to delete book")) && db.books == old(db.books)
        else
          (r.Ok? <==> exists i | 0 <= i < |old(db.books)| :: old(db.books)[i].id == parsedId.value) &&
          (r.Err? ==> r == Err(NotFound("book not found"))) &&
          db.books == DeleteFirst(old(db.books), parsedId.value).0
  {
    var auth := db.Authenticate(svc, header);
    if auth.Err? {
      return Err(auth.failure);
    }
    var foundUser := auth.value;
    if foundUser.role != AdminRole {
      return Err(NotAdmin);
    }
    if parsedId.None? {
      return Err(BadRequest("Invalid book ID"));
    }
    var objId := parsedId.value;
    if deleteFails {
      return Err(ServerError("failed to delete book"));
    }
    var deletedCount := db.DeleteBook(objId);
    r := DeleteAnswer(deletedCount);
  }
}
