/**
 * The two MongoDB collections the controllers share, held in memory: "user"
 * keyed by email (the key every handler looks users up by) and "books" in
 * natural order.  Each method is one store call a handler makes; failures of
 * the store itself are decided by the handlers' callers and never reach here.
 */
module Store {
  import opened Wrappers
  import opened Models
  import opened Http
  import opened Auth
  import Catalog

  class Database {
    /** The "user" collection, keyed by email. */
    var users: map<string, User>
    /** The "books" collection, in natural (insertion) order. */
    var books: seq<Book>

    /**
     * The collection invariants the handlers keep: each user is filed under
     * its email, user ids are unique (fresh ObjectIDs), and at most one user
     * holds the admin role (SignUp refuses a second one).
     */
    ghost predicate Valid()
      reads this
    {
      (forall e | e in users :: users[e].email == e) &&
      (forall e1, e2 | e1 in users && e2 in users && users[e1].id == users[e2].id :: e1 == e2) &&
      (forall e1, e2 | e1 in users && e2 in users && IsAdmin(users[e1]) && IsAdmin(users[e2]) :: e1 == e2)
    }

    constructor ()
      ensures Valid() && users == map[] && books == []
    {
      users := map[];
      books := [];
    }

    /** Some stored user has the admin role. */
    ghost predicate HasAdmin()
      reads this
    {
      exists e | e in users :: IsAdmin(users[e])
    }

    /** `CountDocuments({"role": "admin"})`; positive exactly when an admin exists, and never above one. */
    function AdminCount(): (n: nat)
      reads this
      ensures n > 0 <==> HasAdmin()
      ensures Valid() ==> n <= 1
    {
      var admins := set e | e in users && IsAdmin(users[e]);
      assert forall e | e in users && IsAdmin(users[e]) :: e in admins;
      assert Valid() ==> forall a, b | a in admins && b in admins :: a == b;
      OneElementAtMost(admins);
      |admins|
    }

    /**
     * The user the Authorization header stands for: the header stripped of
     * its prefix, the token accepted by tokens.VerifyToken, and a stored user
     * with the claims' email.  The error is the one every handler sends.
     */
    function Authenticate(svc: Services, header: string): (r: Result<User>)
      reads this
      ensures r.Ok? <==>
        StripBearer(header).Ok? && svc.verifyToken(StripBearer(header).value).msg == "" &&
        svc.verifyToken(StripBearer(header).value).email in users
      ensures r.Ok? ==> r.value == users[svc.verifyToken(StripBearer(header).value).email]
      ensures r.Ok? && Valid() ==> r.value.email in users && users[r.value.email] == r.value
      ensures StripBearer(header).Err? ==> r == Err(ServerError(InternalError))
      ensures StripBearer(header).Ok? && svc.verifyToken(StripBearer(header).value).msg != "" ==>
        r == Err(ServerError(svc.verifyToken(StripBearer(header).value).msg))
      ensures StripBearer(header).Ok? ==>
        var claims := svc.verifyToken(StripBearer(header).value);
        claims.msg == "" && claims.email !in users ==> r == Err(ServerError("user not found"))
    {
      match StripBearer(header)
      case Err(f) => Err(f)
      case Ok(token) =>
        var claims := svc.verifyToken(token);
        if claims.msg != "" then Err(ServerError(claims.msg))
        else if claims.email in users then Ok(users[claims.email])
        else Err(ServerError("user not found"))
    }

    /** `InsertOne` of a new user whose email and id are not yet taken. */
    method InsertUser(u: User)
      requires Valid() && u.email !in users
      requires forall e | e in users :: users[e].id != u.id
      requires IsAdmin(u) ==> !HasAdmin()
      modifies this
      ensures Valid() && books == old(books)
      ensures users == old(users)[u.email := u]
    {
      users := users[u.email := u];
    }

    /** `UpdateOne({"email": email}, {"$set": {"password": hash}})`. */
    method SetPassword(email: string, hash: string)
      requires Valid() && email in users
      modifies this
      ensures Valid() && books == old(books)
      ensures users == old(users)[email := old(users)[email].(password := hash)]
    {
      users := users[email := users[email].(password := hash)];
    }

    /**
     * `UpdateOne({"_id": id}, {"$set": {"cart": cart}})`: the whole cart of the
     * user with that id is replaced.  Ids are unique, so that user is the one
     * filed under `email`.
     */
    method SetCart(id: ObjectId, cart: seq<CartLine>, ghost email: string)
      requires Valid() && email in users && users[email].id == id
      modifies this
      ensures Valid() && books == old(books)
      ensures users == old(users)[email := old(users)[email].(cart := cart)]
    {
      users := map e | e in users :: if users[e].id == id then users[e].(cart := cart) else users[e];
      assert forall e | e in old(users) :: (old(users)[e].id == id) == (e == email);
    }

    /** `InsertOne` of a book, whose id is not yet taken, at the end of the collection. */
    method InsertBook(b: Book)
      requires Valid()
      requires forall i | 0 <= i < |books| :: books[i].id != b.id
      modifies this
      ensures Valid() && users == old(users)
      ensures books == old(books) + [b]
    {
      books := books + [b];
    }

    /** `UpdateOne({"_id": id}, {"$set": patch})` on the books collection. */
    method UpdateBook(id: ObjectId, patch: Catalog.Patch)
      requires Valid()
      modifies this
      ensures Valid() && users == old(users)
      ensures books == Catalog.UpdateFirst(old(books), id, patch)
    {
      books := Catalog.UpdateFirst(books, id, patch);
    }

    /** `DeleteOne({"_id": id})`, reporting how many documents went. */
    method DeleteBook(id: ObjectId) returns (deletedCount: nat)
      requires Valid()
      modifies this
      ensures Valid() && users == old(users)
      ensures (books, deletedCount) == Catalog.DeleteFirst(old(books), id)
    {
      var outcome := Catalog.DeleteFirst(books, id);
      books, deletedCount := outcome.0, outcome.1;
    }
  }

  /**
   * The admin gate of AddBook, UpdateBookInfo and DeleteBook lets through one
   * account only: in a valid store, any two headers that authenticate to users
   * passing the role check stand for the same stored user.
   */
  lemma OnlyOneAdminPasses(db: Database, svc: Services, h1: string, h2: string)
    requires db.Valid()
    requires db.Authenticate(svc, h1).Ok? && IsAdmin(db.Authenticate(svc, h1).value)
    requires db.Authenticate(svc, h2).Ok? && IsAdmin(db.Authenticate(svc, h2).value)
    ensures db.Authenticate(svc, h1).value == db.Authenticate(svc, h2).value
  {
  }

  /** A set in which any two elements are equal has at most one element. */
  lemma OneElementAtMost<T>(s: set<T>)
    ensures (forall a, b | a in s && b in s :: a == b) ==> |s| <= 1
  {
    if s != {} && forall a, b | a in s && b in s :: a == b {
      var a :| a in s;
      assert s == {a};
    }
  }
}
