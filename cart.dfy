/**
 * The cart engine of controllers/userController.go: the list operations that
 * AddBookToCart, UpdateBookQuantity and RemoveBookFromCart perform on a user's
 * embedded cart before writing the whole list back.
 */
module Cart {
  import opened Models

  /** The line AddBookToCart builds from a catalog book (userController.go:214-219). */
  function NewLine(id: ObjectId, book: Book): (r: CartLine)
    ensures r.id == id && r.name == book.name && r.price == book.price && r.author == book.authorName
    ensures r.quantity == 1 && r.amount == book.price && Priced(r)
  {
    var quantity := 1;
    CartLine(id, book.name, book.price, quantity, book.authorName, quantity * book.price)
  }

  /** A line whose amount agrees with its price and quantity. */
  predicate Priced(line: CartLine) {
    line.amount == line.price * line.quantity
  }

  /** Some line of the cart carries this id. */
  predicate HasLine(cart: seq<CartLine>, id: ObjectId) {
    exists i | 0 <= i < |cart| :: cart[i].id == id
  }

  /** One more copy of the book on this line, with the amount recomputed. */
  function Bump(line: CartLine): (r: CartLine)
    ensures r.quantity == line.quantity + 1 && Priced(r)
    ensures r.id == line.id && r.name == line.name && r.price == line.price && r.author == line.author
  {
    line.(quantity := line.quantity + 1, amount := line.price * (line.quantity + 1))
  }

  /** Adding a book appends one fresh line and keeps every earlier line where it was. */
  lemma AddAppendsOneLine(cart: seq<CartLine>, id: ObjectId, book: Book, r: seq<CartLine>)
    requires r == cart + [NewLine(id, book)]
    ensures |r| == |cart| + 1 && r[..|cart|] == cart &&
      r[|cart|].id == id && r[|cart|].name == book.name && r[|cart|].price == book.price &&
      r[|cart|].author == book.authorName && r[|cart|].quantity == 1 &&
      r[|cart|].amount == book.price && Priced(r[|cart|])
  {
  }

  /** Adding the same book twice gives two separate lines of quantity 1, never one line of quantity 2. */
  lemma AddTwiceGivesTwoLines(
    cart: seq<CartLine>, id1: ObjectId, id2: ObjectId, book: Book, r: seq<CartLine>)
    requires r == cart + [NewLine(id1, book)] + [NewLine(id2, book)]
    ensures |r| == |cart| + 2 && r[..|cart|] == cart &&
      r[|cart|].name == r[|cart| + 1].name == book.name &&
      r[|cart|].quantity == r[|cart| + 1].quantity == 1
  {
  }

  /** The cart UpdateBookQuantity writes back: every line with the id bumped, all others as they were. */
  function Incremented(cart: seq<CartLine>, id: ObjectId): (r: seq<CartLine>)
    ensures |r| == |cart|
    ensures forall i | 0 <= i < |cart| && cart[i].id == id :: r[i] == Bump(cart[i])
    ensures forall i | 0 <= i < |cart| && cart[i].id != id :: r[i] == cart[i]
  {
    if cart == [] then []
    else [if cart[0].id == id then Bump(cart[0]) else cart[0]] + Incremented(cart[1..], id)
  }

  /** Incrementing keeps the order of the lines: ids, names, prices and authors stay in place. */
  lemma IncrementKeepsOrder(cart: seq<CartLine>, id: ObjectId, r: seq<CartLine>)
    requires r == Incremented(cart, id)
    ensures forall i | 0 <= i < |cart| ::
        r[i].id == cart[i].id && r[i].name == cart[i].name &&
        r[i].price == cart[i].price && r[i].author == cart[i].author
  {
  }

  /**
   * Every line the increment touches is priced correctly afterwards, so a cart
   * whose lines were all priced correctly stays so.
   */
  lemma IncrementKeepsPrices(cart: seq<CartLine>, id: ObjectId)
    ensures forall i | 0 <= i < |cart| && cart[i].id == id :: Priced(Incremented(cart, id)[i])
    ensures (forall i | 0 <= i < |cart| :: Priced(cart[i])) ==>
              forall i | 0 <= i < |cart| :: Priced(Incremented(cart, id)[i])
  {
  }

  /** Incrementing an id that no line carries changes nothing. */
  lemma IncrementMissingIsIdentity(cart: seq<CartLine>, id: ObjectId)
    requires !HasLine(cart, id)
    ensures Incremented(cart, id) == cart
  {
  }

  /** `k` is a line with the id and no later line has it: the line UpdateBookQuantity reports. */
  ghost predicate IsLastMatch(cart: seq<CartLine>, id: ObjectId, k: int) {
    0 <= k < |cart| && cart[k].id == id &&
    forall j | k < j < |cart| :: cart[j].id != id
  }

  /**
   * The loop of UpdateBookQuantity (userController.go:264-275): copy the cart,
   * bumping every line whose id matches, remember the last bumped line and
   * whether any line matched.
   */
  method BumpQuantities(cart: seq<CartLine>, id: ObjectId)
    returns (updated: seq<CartLine>, item: CartLine, found: bool)
    ensures updated == Incremented(cart, id)
    ensures found <==> HasLine(cart, id)
    ensures found ==> exists k :: IsLastMatch(cart, id, k) && item == Bump(cart[k])
  {
    updated := [];
    item := CartLine("", "", 0, 0, "", 0);
    found := false;
    ghost var last := -1;
    for i := 0 to |cart|
      invariant |updated| == i
      invariant forall j | 0 <= j < i && cart[j].id == id :: updated[j] == Bump(cart[j])
      invariant forall j | 0 <= j < i && cart[j].id != id :: updated[j] == cart[j]
      invariant found <==> exists j | 0 <= j < i :: cart[j].id == id
      invariant found ==> 0 <= last < i && cart[last].id == id && item == Bump(cart[last])
      invariant found ==> forall j | last < j < i :: cart[j].id != id
    {
      var line := cart[i];
      if line.id == id {
        line := line.(quantity := line.quantity + 1);
        line := line.(amount := line.price * line.quantity);
        item := line;
        found := true;
        last := i;
      }
      updated := updated + [line];
    }
    var expected := Incremented(cart, id);
    forall j | 0 <= j < |cart|
      ensures updated[j] == expected[j]
    {
      if cart[j].id == id {
        assert expected[j] == Bump(cart[j]);
      } else {
        assert expected[j] == cart[j];
      }
    }
    if found {
      assert IsLastMatch(cart, id, last);
    }
  }

  /** The index of the first line with the id, -1 when there is none; Catalog.FirstWithId is the same search over books. */
  function FirstMatch(cart: seq<CartLine>, id: ObjectId): (k: int)
    ensures -1 <= k < |cart|
    ensures k == -1 <==> !HasLine(cart, id)
    ensures 0 <= k ==> cart[k].id == id && forall j | 0 <= j < k :: cart[j].id != id
  {
    if cart == [] then -1
    else if cart[0].id == id then 0
    else
      var k := FirstMatch(cart[1..], id);
      assert forall j | 0 <= j < |cart| - 1 :: cart[1..][j] == cart[j + 1];
      if k == -1 then -1 else k + 1
  }

  /** The search loop of RemoveBookFromCart (userController.go:324-330), which stops at the first match. */
  method FindLineIndex(cart: seq<CartLine>, id: ObjectId) returns (index: int)
    ensures index == FirstMatch(cart, id)
  {
    index := -1;
    for i := 0 to |cart|
      invariant index == -1
      invariant forall j | 0 <= j < i :: cart[j].id != id
    {
      if cart[i].id == id {
        index := i;
        break;
      }
    }
  }

  /** The splice `append(cart[:k], cart[k+1:]...)`: line k goes, the rest keep their order. */
  function RemoveAt(cart: seq<CartLine>, k: int): (r: seq<CartLine>)
    requires 0 <= k < |cart|
    ensures |r| == |cart| - 1
    ensures r[..k] == cart[..k]
    ensures forall i | k <= i < |r| :: r[i] == cart[i + 1]
    ensures multiset(r) + multiset{cart[k]} == multiset(cart)
  {
    assert cart == cart[..k] + [cart[k]] + cart[k + 1..];
    cart[..k] + cart[k + 1..]
  }

  /** Removing an id drops exactly one line, the first one carrying it; no other line is lost. */
  lemma RemoveDropsFirstMatch(cart: seq<CartLine>, id: ObjectId, k: int)
    requires HasLine(cart, id) && k == FirstMatch(cart, id)
    ensures 0 <= k < |cart| && cart[k].id == id && !HasLine(cart[..k], id)
    ensures |RemoveAt(cart, k)| == |cart| - 1 && RemoveAt(cart, k) == cart[..k] + cart[k + 1..]
  {
  }
}
