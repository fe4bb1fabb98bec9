/**
 * The handlers of controllers/userController.go.  Each takes the store, the
 * foreign services, what the request carries (body, Authorization header,
 * path parameter) and, for every store call that can fail, whether it does.
 * A handler answers with a Result and changes the store only on its success
 * path.
 */
module UserController {
  import opened Wrappers
  import opened Models
  import opened Http
  import opened Auth
  import opened Cart
  import opened Store

  /** The fields UserProfile sends back; the password hash is not among them. */
  datatype Profile = Profile(name: string, email: string, role: string, cart: seq<CartLine>)

  /**
   * SignUp (userController.go:21-69).  `body` is the decoded and validated
   * request, `newId` the ObjectID generated for the user; on success the user
   * is stored with that id and the hash of the submitted password under the
   * bcrypt salt `salt` drawn for this call, and the answer is the token issued
   * for the email at `now`.
   */
  method SignUp(db: Database, svc: Services, body: Binding<User>, newId: ObjectId, salt: string,
                now: Timestamp, countFails: bool, insertFails: bool)
    returns (r: Result<string>)
    requires db.Valid()
    requires forall e | e in db.users :: db.users[e].id != newId
    modifies db
    ensures db.Valid() && db.books == old(db.books)
    ensures match body
      case BindError(m) => r == Err(BadRequest(m)) && db.users == old(db.users)
      case Bound(u) =>
        if countFails then
          r == Err(ServerError("Error checking admin count")) && db.users == old(db.users)
        else if old(db.HasAdmin()) && IsAdmin(u) then
          r == Err(ServerError("Only one admin user is allowed")) && db.users == old(db.users)
        else if u.email in old(db.users) then
          r == Err(ServerError("user already exist")) && db.users == old(db.users)
        else if svc.issueToken(u.email, now).None? then
          r == Err(ServerError(InternalError)) && db.users == old(db.users)
        else if insertFails then
          r == Err(ServerError("User is not created")) && db.users == old(db.users)
        else
          r == Ok(svc.issueToken(u.email, now).value) &&
          db.users == old(db.users)[u.email := u.(id := newId, password := svc.hash(u.password, salt))]
  {
    if body.BindError? {
      return Err(BadRequest(body.message));
    }
    var user := body.value;
    if countFails {
      return Err(ServerError("Error checking admin count"));
    }
    var adminCount := db.AdminCount();
    if adminCount > 0 && user.role == AdminRole {
      return Err(ServerError("Only one admin user is allowed"));
    }
    if user.email in db.users {
      return Err(ServerError("user already exist"));
    }
    user := user.(id := newId);
    var password := svc.hash(user.password, salt);
    user := user.(password := password);
    var token := svc.issueToken(user.email, now);
    if token.None? {
      return Err(ServerError(InternalError));
    }
    if insertFails {
      return Err(ServerError("User is not created"));
    }
    db.InsertUser(user);
    r := Ok(token.value);
  }

  /** Login (userController.go:71-102): the stored hash must accept the submitted password; the token is issued at `now`. */
  method Login(db: Database, svc: Services, body: Binding<User>, now: Timestamp) returns (r: Result<string>)
    requires db.Valid()
    ensures body.BindError? ==> r == Err(BadRequest(body.message))
    ensures body.Bound? && body.value.email !in db.users ==>
              r == Err(ServerError("user not found,login seems to be incorrect"))
    ensures body.Bound? && body.value.email in db.users &&
            !svc.verifyPassword(body.value.password, db.users[body.value.email].password) ==>
              r == Err(ServerError("password is invalid"))
    ensures r.Ok? <==>
              body.Bound? && body.value.email in db.users &&
              svc.verifyPassword(body.value.password, db.users[body.value.email].password) &&
              svc.issueToken(body.value.email, now).Some?
    ensures r.Ok? ==> r.value == svc.issueToken(body.value.email, now).value
    ensures r.Err? && body.Bound? && body.value.email in db.users &&
            svc.verifyPassword(body.value.password, db.users[body.value.email].password) ==>
              r == Err(ServerError(InternalError))
  {
    if body.BindError? {
      return Err(BadRequest(body.message));
    }
    var user := body.value;
    if user.email !in db.users {
      return Err(ServerError("user not found,login seems to be incorrect"));
    }
    var foundUser := db.users[user.email];
    var passwordIsValid := svc.verifyPassword(user.password, foundUser.password);
    if !passwordIsValid {
      return Err(ServerError("password is invalid"));
    }
    var token := svc.issueToken(foundUser.email, now);
    if token.None? {
      return Err(ServerError(InternalError));
    }
    r := Ok(token.value);
  }

  /** UserProfile (userController.go:104-134): the authenticated user's name, email, role and cart. */
  method UserProfile(db: Database, svc: Services, header: string) returns (r: Result<Profile>)
    requires db.Valid()
    ensures r.Ok? <==> db.Authenticate(svc, header).Ok?
    ensures r.Err? ==> r.failure == db.Authenticate(svc, header).failure
    ensures r.Ok? ==>
      var u := db.Authenticate(svc, header).value;
      r.value.name == u.name && r.value.email == u.email && r.value.role == u.role &&
      r.value.cart == u.cart && u.email in db.users && db.users[u.email] == u
  {
    var auth := db.Authenticate(svc, header);
    if auth.Err? {
      return Err(auth.failure);
    }
    var foundUser := auth.value;
    r := Ok(Profile(foundUser.name, foundUser.email, foundUser.role, foundUser.cart));
  }

  /**
   * UpdatePassword (userController.go:136-176): the authenticated user's
   * stored password becomes the hash of the submitted one under this call's
   * salt; nothing else changes.  The current password is not asked for.
   */
  method UpdatePassword(db: Database, svc: Services, body: Binding<User>, header: string, salt: string,
                        writeFails: bool)
    returns (r: Result<()>)
    requires db.Valid()
    modifies db
    ensures db.Valid() && db.books == old(db.books)
    ensures match body
      case BindError(m) => r == Err(BadRequest(m)) && db.users == old(db.users)
      case Bound(req) =>
        match old(db.Authenticate(svc, header))
        case Err(f) => r == Err(f) && db.users == old(db.users)
        case Ok(u) =>
          if writeFails then
            r == Err(ServerError("error updating password")) && db.users == old(db.users)
          else
            r == Ok(()) && db.users == old(db.users)[u.email := u.(password := svc.hash(req.password, salt))]
  {
    if body.BindError? {
      return Err(BadRequest(body.message));
    }
    var auth := db.Authenticate(svc, header);
    if auth.Err? {
      return Err(auth.failure);
    }
    var foundUser := auth.value;
    var hashedPassword := svc.hash(body.value.password, salt);
    if writeFails {
      return Err(ServerError("error updating password"));
    }
    db.SetPassword(foundUser.email, hashedPassword);
    r := Ok(());
  }

  /**
   * AddBookToCart (userController.go:178-232): the first catalog book with
   * the requested name is appended to the cart as a new line with id
   * `lineId`, and the whole cart is written back.
   */
  method AddBookToCart(db: Database, svc: Services, body: Binding<Book>, header: string,
                       lineId: ObjectId, writeFails: bool)
    returns (r: Result<()>)
    requires db.Valid()
    modifies db
    ensures db.Valid() && db.books == old(db.books)
    ensures match body
      case BindError(m) => r == Err(BadRequest(m)) && db.users == old(db.users)
      case Bound(req) =>
        match old(db.Authenticate(svc, header))
        case Err(f) => r == Err(f) && db.users == old(db.users)
        case Ok(u) =>
          match Catalog.FindByName(old(db.books), req.name)
          case None => r == Err(ServerError("book not found")) && db.users == old(db.users)
          case Some(book) =>
            if writeFails then
              r == Err(ServerError("failed to add item in the cart")) && db.users == old(db.users)
            else
              r == Ok(()) && db.users == old(db.users)[u.email := u.(cart := u.cart + [NewLine(lineId, book)])]
  {
    if body.BindError? {
      return Err(BadRequest(body.message));
    }
    var auth := db.Authenticate(svc, header);
    if auth.Err? {
      return Err(auth.failure);
    }
    var foundUser := auth.value;
    var foundBook := Catalog.FindByName(db.books, body.value.name);
    if foundBook.None? {
      return Err(ServerError("book not found"));
    }
    var line := NewLine(lineId, foundBook.value);
    var cart := foundUser.cart + [line];
    if writeFails {
      return Err(ServerError("failed to add item in the cart"));
    }
    db.SetCart(foundUser.id, cart, foundUser.email);
    r := Ok(());
  }

  /**
   * UpdateBookQuantity (userController.go:234-291): every cart line with the
   * id gets one more copy and its amount recomputed, the other lines stay as
   * they were, and the last bumped line is returned.  No match is a 404 and
   * nothing is written.
   */
  method UpdateBookQuantity(db: Database, svc: Services, header: string, cartId: string, writeFails: bool)
    returns (r: Result<CartLine>)
    requires db.Valid()
    modifies db
    ensures db.Valid() && db.books == old(db.books)
    ensures match old(db.Authenticate(svc, header))
      case Err(f) => r == Err(f) && db.users == old(db.users)
      case Ok(u) =>
        if cartId == "" then
          r == Err(BadRequest("cart_id is required")) && db.users == old(db.users)
        else if !HasLine(u.cart, cartId) then
          r == Err(NotFound("cart item not found")) && db.users == old(db.users)
        else if writeFails then
          r == Err(ServerError("failed to update cart")) && db.users == old(db.users)
        else
          r.Ok? && (exists k :: IsLastMatch(u.cart, cartId, k) && r.value == Bump(u.cart[k])) &&
          db.users == old(db.users)[u.email := u.(cart := Incremented(u.cart, cartId))]
  {
    var auth := db.Authenticate(svc, header);
    if auth.Err? {
      return Err(auth.failure);
    }
    var foundUser := auth.value;
    if cartId == "" {
      return Err(BadRequest("cart_id is required"));
    }
    var updatedCart, updatedItem, itemFound := BumpQuantities(foundUser.cart, cartId);
    if !itemFound {
      return Err(NotFound("cart item not found"));
    }
    if writeFails {
      return Err(ServerError("failed to update cart"));
    }
    db.SetCart(foundUser.id, updatedCart, foundUser.email);
    r := Ok(updatedItem);
  }

  /**
   * RemoveBookFromCart (userController.go:293-348): the first cart line with
   * the id is spliced out and the shortened cart written back.  No match is a
   * 404 and nothing is written.
   */
  method RemoveBookFromCart(db: Database, svc: Services, header: string, cartId: string, writeFails: bool)
    returns (r: Result<()>)
    requires db.Valid()
    modifies db
    ensures db.Valid() && db.books == old(db.books)
    ensures match old(db.Authenticate(svc, header))
      case Err(f) => r == Err(f) && db.users == old(db.users)
      case Ok(u) =>
        if cartId == "" then
          r == Err(BadRequest("cart_id is required")) && db.users == old(db.users)
        else if !HasLine(u.cart, cartId) then
          r == Err(NotFound("cart item not found")) && db.users == old(db.users)
        else if writeFails then
          r == Err(ServerError("failed to delete item from cart")) && db.users == old(db.users)
        else
          r == Ok(()) &&
          db.users == old(db.users)[u.email := u.(cart := RemoveAt(u.cart, FirstMatch(u.cart, cartId)))]
  {
    var auth := db.Authenticate(svc, header);
    if auth.Err? {
      return Err(auth.failure);
    }
    var foundUser := auth.value;
    if cartId == "" {
      return Err(BadRequest("cart_id is required"));
    }
    var indexToRemove := FindLineIndex(foundUser.cart, cartId);
    if indexToRemove == -1 {
      return Err(NotFound("cart item not found"));
    }
    var cart := foundUser.cart[..indexToRemove] + foundUser.cart[indexToRemove + 1..];
    if writeFails {
      return Err(ServerError("failed to delete item from cart"));
    }
    db.SetCart(foundUser.id, cart, foundUser.email);
    r := Ok(());
  }

  /**
   * The round trip the two account handlers promise together: a user who
   * signed up at `signupAt` can log in at `loginAt` with the same email and
   * password, given that the hasher accepts its own hash of that password and
   * tokens can be issued at both times.  Each answer is the token issued at
   * its own time; the two are not claimed to be equal.
   */
  method SignUpThenLogIn(db: Database, svc: Services, u: User, newId: ObjectId, salt: string,
                         signupAt: Timestamp, loginAt: Timestamp)
    returns (signup: Result<string>, login: Result<string>)
    requires db.Valid()
    requires forall e | e in db.users :: db.users[e].id != newId
    requires u.email !in db.users && !(db.HasAdmin() && IsAdmin(u))
    requires svc.verifyPassword(u.password, svc.hash(u.password, salt))
    requires svc.issueToken(u.email, signupAt).Some? && svc.issueToken(u.email, loginAt).Some?
    modifies db
    ensures signup == Ok(svc.issueToken(u.email, signupAt).value)
    ensures login == Ok(svc.issueToken(u.email, loginAt).value)
    ensures u.email in db.users && db.users[u.email].password == svc.hash(u.password, salt)
  {
    signup := SignUp(db, svc, Bound(u), newId, salt, signupAt, false, false);
    login := Login(db, svc, Bound(u), loginAt);
  }
}
