/**
 * The documents of the "user" and "books" collections (models/user.go,
 * models/books.go).  Strings stay strings; Go's `int` is an unbounded `int`.
 */
module Models {
  /** A MongoDB ObjectID, kept as its hexadecimal form (what `ID.Hex()` yields). */
  type ObjectId = string

  /** A point in time as the store records it; clocks are not part of the model. */
  type Timestamp = int

  /** The role whose holder may change the catalog. */
  const AdminRole := "admin"

  /** One entry of a user's embedded cart (models.Cart). */
  datatype CartLine = CartLine(
    id: ObjectId,
    name: string,
    price: int,
    quantity: int,
    author: string,
    amount: int)

  /** A document of the "user" collection (models.User); `password` holds a hash once stored. */
  datatype User = User(
    id: ObjectId,
    name: string,
    email: string,
    password: string,
    role: string,
    cart: seq<CartLine>)

  /** A document of the "books" collection (models.Books). */
  datatype Book = Book(
    id: ObjectId,
    name: string,
    authorName: string,
    price: int,
    description: string,
    authorInfo: string,
    publication: string,
    genre: string,
    category: string,
    createdAt: Timestamp,
    updatedAt: Timestamp)

  /** The role check of AddBook, UpdateBookInfo and DeleteBook: the role must be exactly "admin". */
  predicate IsAdmin(u: User) {
    u.role == AdminRole
  }
}
