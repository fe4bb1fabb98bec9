/**
 * The catalog rules of controllers/booksController.go: listing, the six-field
 * search, the optional-field update patch and how it changes a stored book,
 * and the outcome of a delete.
 */
module Catalog {
  import opened Wrappers
  import opened Models
  import opened Http

  /** The loop of GetBooks (booksController.go:32-40): the name of every book, in collection order. */
  method BookNames(books: seq<Book>) returns (names: seq<string>)
    ensures |names| == |books|
    ensures forall i | 0 <= i < |books| :: names[i] == books[i].name
  {
    names := [];
    for i := 0 to |books|
      invariant |names| == i
      invariant forall j | 0 <= j < i :: names[j] == books[j].name
    {
      names := names + [books[i].name];
    }
  }

  /** The `$or` filter of GetBookByParameter: six fields are compared, author_info is not. */
  predicate Matches(book: Book, parameter: string) {
    parameter == book.name || parameter == book.authorName || parameter == book.genre ||
    parameter == book.description || parameter == book.publication || parameter == book.category
  }

  /** The books the search returns, in collection order. */
  function Search(books: seq<Book>, parameter: string): (r: seq<Book>)
    ensures |r| <= |books|
    ensures forall b :: b in r <==> b in books && Matches(b, parameter)
  {
    if books == [] then []
    else (if Matches(books[0], parameter) then [books[0]] else []) + Search(books[1..], parameter)
  }

  /** The search keeps collection order: searching a concatenation concatenates the results. */
  lemma {:induction false} SearchAppend(a: seq<Book>, b: seq<Book>, parameter: string)
    ensures Search(a + b, parameter) == Search(a, parameter) + Search(b, parameter)
  {
    if a == [] {
      assert a + b == b;
    } else {
      assert (a + b)[1..] == a[1..] + b;
      SearchAppend(a[1..], b, parameter);
    }
  }

  /** A book that matches only through its author_info is not found. */
  lemma AuthorInfoNotSearched(book: Book, parameter: string)
    requires book.authorInfo == parameter
    requires parameter != book.name && parameter != book.authorName && parameter != book.genre
    requires parameter != book.description && parameter != book.publication && parameter != book.category
    ensures Search([book], parameter) == []
  {
  }

  /** The first book with this name, as `FindOne({"name": name})` returns it. */
  function FindByName(books: seq<Book>, name: string): (r: Option<Book>)
    ensures r.None? <==> forall i | 0 <= i < |books| :: books[i].name != name
    ensures r.Some? ==> exists k | 0 <= k < |books| ::
      books[k] == r.value && r.value.name == name && forall j | 0 <= j < k :: books[j].name != name
  {
    if books == [] then None
    else if books[0].name == name then Some(books[0])
    else
      var r := FindByName(books[1..], name);
      assert forall j | 0 <= j < |books| - 1 :: books[1..][j] == books[j + 1];
      if r.Some? then
        var k :| 0 <= k < |books| - 1 && books[1..][k] == r.value && r.value.name == name &&
                 forall j | 0 <= j < k :: books[1..][j].name != name;
        assert books[k + 1] == r.value;
        r
      else r
  }

  /**
   * The index of the first book with this id, -1 when there is none (the
   * document `UpdateOne`/`DeleteOne` reach); the same search Cart.FirstMatch
   * makes over cart lines.
   */
  function FirstWithId(books: seq<Book>, id: ObjectId): (k: int)
    ensures -1 <= k < |books|
    ensures k == -1 <==> forall i | 0 <= i < |books| :: books[i].id != id
    ensures 0 <= k ==> books[k].id == id && forall j | 0 <= j < k :: books[j].id != id
  {
    if books == [] then -1
    else if books[0].id == id then 0
    else
      var k := FirstWithId(books[1..], id);
      assert forall j | 0 <= j < |books| - 1 :: books[1..][j] == books[j + 1];
      if k == -1 then -1 else k + 1
  }

  // ---------------------------------------------------------------------------
  // The update patch of UpdateBookInfo (booksController.go:162-187)
  // ---------------------------------------------------------------------------

  /** A value in a `$set` document. */
  datatype Value = Text(text: string) | Number(n: int) | Time(at: Timestamp)

  /** The stored field a `$set` element names. */
  datatype Key =
    | AuthorInfo | AuthorName | Category | Description | Genre | Name | Publication
    | Price | CreatedAt | UpdatedAt

  /** The field name the document uses for each key. */
  function KeyName(k: Key): string {
    match k
    case AuthorInfo => "author_info"
    case AuthorName => "author_name"
    case Category => "category"
    case Description => "description"
    case Genre => "genre"
    case Name => "name"
    case Publication => "publication"
    case Price => "price"
    case CreatedAt => "created_at"
    case UpdatedAt => "updated_at"
  }

  /** One `bson.E{key, value}` element. */
  datatype SetField = SetField(key: Key, value: Value)

  /** The `bson.D` handed to `$set`. */
  type Patch = seq<SetField>

  /** The text fields the patch may carry, in the order the handler tests them. */
  const TextKeys: seq<Key> := [AuthorInfo, AuthorName, Category, Description, Genre, Name, Publication]

  /** The position of a key in TextKeys, -1 for the other keys. */
  function Rank(k: Key): int {
    match k
    case AuthorInfo => 0
    case AuthorName => 1
    case Category => 2
    case Description => 3
    case Genre => 4
    case Name => 5
    case Publication => 6
    case _ => -1
  }

  /** The rank of the key at position r of TextKeys is r: Rank inverts the key order. */
  lemma RankOfKey(r: nat)
    requires r < |TextKeys|
    ensures Rank(TextKeys[r]) == r
  {
  }

  /** The text field of `book` stored under `TextKeys[r]`. */
  function FieldAt(book: Book, r: nat): string
    requires r < |TextKeys|
  {
    match TextKeys[r]
    case AuthorInfo => book.authorInfo
    case AuthorName => book.authorName
    case Category => book.category
    case Description => book.description
    case Genre => book.genre
    case Name => book.name
    case _ => book.publication
  }

  /** One conditional append: the field goes in only when the request gave a non-empty value. */
  function OptionalEntry(key: Key, value: string): Patch {
    if value != "" then [SetField(key, Text(value))] else []
  }

  /** The entries for the first `n` text fields, appended in TextKeys order. */
  function TextEntries(body: Book, n: nat): Patch
    requires n <= |TextKeys|
  {
    if n == 0 then [] else TextEntries(body, n - 1) + OptionalEntry(TextKeys[n - 1], FieldAt(body, n - 1))
  }

  /** The whole patch: the non-empty text fields, then always updated_at. */
  function PatchOf(body: Book, now: Timestamp): Patch {
    TextEntries(body, |TextKeys|) + [SetField(UpdatedAt, Time(now))]
  }

  /** The conditional appends of UpdateBookInfo, one per optional field, then updated_at. */
  method BuildPatch(body: Book, now: Timestamp) returns (patch: Patch)
    ensures patch == PatchOf(body, now)
  {
    patch := [];
    if body.authorInfo != "" {
      patch := patch + [SetField(AuthorInfo, Text(body.authorInfo))];
    }
    assert patch == TextEntries(body, 1);
    if body.authorName != "" {
      patch := patch + [SetField(AuthorName, Text(body.authorName))];
    }
    assert patch == TextEntries(body, 2);
    if body.category != "" {
      patch := patch + [SetField(Category, Text(body.category))];
    }
    assert patch == TextEntries(body, 3);
    if body.description != "" {
      patch := patch + [SetField(Description, Text(body.description))];
    }
    assert patch == TextEntries(body, 4);
    if body.genre != "" {
      patch := patch + [SetField(Genre, Text(body.genre))];
    }
    assert patch == TextEntries(body, 5);
    if body.name != "" {
      patch := patch + [SetField(Name, Text(body.name))];
    }
    assert patch == TextEntries(body, 6);
    if body.publication != "" {
      patch := patch + [SetField(Publication, Text(body.publication))];
    }
    assert patch == TextEntries(body, 7);
    patch := patch + [SetField(UpdatedAt, Time(now))];
  }

  /** Every entry among the first `n` text appends is a given field of rank below `n`, with the request's value. */
  lemma {:induction false} TextEntriesValues(body: Book, n: nat, p: Patch)
    requires n <= |TextKeys| && p == TextEntries(body, n)
    ensures forall i | 0 <= i < |p| ::
      0 <= Rank(p[i].key) < n && p[i].value == Text(FieldAt(body, Rank(p[i].key))) &&
      p[i].value.text != ""
  {
    if n > 0 {
      var q := TextEntries(body, n - 1);
      TextEntriesValues(body, n - 1, q);
      RankOfKey(n - 1);
      assert p == q + OptionalEntry(TextKeys[n - 1], FieldAt(body, n - 1));
      forall i | 0 <= i < |p|
        ensures 0 <= Rank(p[i].key) < n && p[i].value == Text(FieldAt(body, Rank(p[i].key))) &&
                p[i].value.text != ""
      {
        if i < |q| {
          assert p[i] == q[i];
        } else {
          assert p[i] == SetField(TextKeys[n - 1], Text(FieldAt(body, n - 1)));
        }
      }
    }
  }

  /** The first `n` text appends come in strictly increasing TextKeys order. */
  lemma {:induction false} TextEntriesOrdered(body: Book, n: nat, p: Patch)
    requires n <= |TextKeys| && p == TextEntries(body, n)
    ensures forall i, j | 0 <= i < j < |p| :: Rank(p[i].key) < Rank(p[j].key)
  {
    if n > 0 {
      var q := TextEntries(body, n - 1);
      TextEntriesOrdered(body, n - 1, q);
      TextEntriesValues(body, n - 1, q);
      RankOfKey(n - 1);
      assert p == q + OptionalEntry(TextKeys[n - 1], FieldAt(body, n - 1));
      forall i, j | 0 <= i < j < |p|
        ensures Rank(p[i].key) < Rank(p[j].key)
      {
        assert p[i] == q[i];
        if j < |q| {
          assert p[j] == q[j];
        } else {
          assert p[j].key == TextKeys[n - 1];
        }
      }
    }
  }

  /** One step of TextEntriesComplete: the append for rank n - 1 adds that key when given, and no other. */
  lemma TextEntriesCompleteStep(body: Book, n: nat, q: Patch, p: Patch, r: nat)
    requires 0 < n <= |TextKeys| && r < n
    requires p == q + OptionalEntry(TextKeys[n - 1], FieldAt(body, n - 1))
    requires forall i | 0 <= i < |q| :: 0 <= Rank(q[i].key) < n - 1
    requires r < n - 1 ==> (FieldAt(body, r) != "" <==> exists i | 0 <= i < |q| :: q[i].key == TextKeys[r])
    ensures FieldAt(body, r) != "" <==> exists i | 0 <= i < |p| :: p[i].key == TextKeys[r]
  {
    RankOfKey(r);
    if r < n - 1 {
      if exists i | 0 <= i < |q| :: q[i].key == TextKeys[r] {
        var i :| 0 <= i < |q| && q[i].key == TextKeys[r];
        assert p[i] == q[i];
      }
      if exists i | 0 <= i < |p| :: p[i].key == TextKeys[r] {
        var i :| 0 <= i < |p| && p[i].key == TextKeys[r];
        if i >= |q| {
          RankOfKey(n - 1);
          assert false;
        }
        assert q[i].key == TextKeys[r];
      }
    } else if FieldAt(body, r) != "" {
      assert p[|q|].key == TextKeys[r];
    } else {
      assert p == q;
    }
  }

  /** A field of rank below `n` appears among the first `n` text appends exactly when the request gave it. */
  lemma {:induction false} TextEntriesComplete(body: Book, n: nat, p: Patch)
    requires n <= |TextKeys| && p == TextEntries(body, n)
    ensures forall r | 0 <= r < n :: FieldAt(body, r) != "" <==> exists i | 0 <= i < |p| :: p[i].key == TextKeys[r]
  {
    if n > 0 {
      var q := TextEntries(body, n - 1);
      TextEntriesComplete(body, n - 1, q);
      TextEntriesValues(body, n - 1, q);
      assert p == q + OptionalEntry(TextKeys[n - 1], FieldAt(body, n - 1));
      forall r | 0 <= r < n
        ensures FieldAt(body, r) != "" <==> exists i | 0 <= i < |p| :: p[i].key == TextKeys[r]
      {
        TextEntriesCompleteStep(body, n, q, p, r);
      }
    }
  }

  /**
   * The patch has exactly the non-empty fields among author_info, author_name,
   * category, description, genre, name and publication, each with the
   * request's value, in that order, and ends with updated_at.
   */
  lemma {:induction false} PatchShape(body: Book, now: Timestamp, p: Patch)
    requires p == PatchOf(body, now)
    ensures |p| >= 1 && p[|p| - 1] == SetField(UpdatedAt, Time(now)) &&
      (forall i | 0 <= i < |p| - 1 ::
         0 <= Rank(p[i].key) < |TextKeys| && p[i].value == Text(FieldAt(body, Rank(p[i].key))) &&
         p[i].value.text != "") &&
      (forall i, j | 0 <= i < j < |p| - 1 :: Rank(p[i].key) < Rank(p[j].key)) &&
      (forall r | 0 <= r < |TextKeys| ::
         FieldAt(body, r) != "" <==> exists i | 0 <= i < |p| - 1 :: p[i].key == TextKeys[r])
  {
    var q := TextEntries(body, |TextKeys|);
    TextEntriesValues(body, |TextKeys|, q);
    TextEntriesOrdered(body, |TextKeys|, q);
    TextEntriesComplete(body, |TextKeys|, q);
    assert forall i | 0 <= i < |p| - 1 :: p[i] == q[i];
  }

  /** `$set` of one element on a stored book; a value of the wrong kind for its field leaves the book as it was. */
  function SetOne(book: Book, f: SetField): Book {
    match (f.key, f.value)
    case (AuthorInfo, Text(s)) => book.(authorInfo := s)
    case (AuthorName, Text(s)) => book.(authorName := s)
    case (Category, Text(s)) => book.(category := s)
    case (Description, Text(s)) => book.(description := s)
    case (Genre, Text(s)) => book.(genre := s)
    case (Name, Text(s)) => book.(name := s)
    case (Publication, Text(s)) => book.(publication := s)
    case (Price, Number(n)) => book.(price := n)
    case (CreatedAt, Time(t)) => book.(createdAt := t)
    case (UpdatedAt, Time(t)) => book.(updatedAt := t)
    case _ => book
  }

  /** `$set` of a whole patch, element by element. */
  function ApplyPatch(book: Book, patch: Patch): Book
    decreases |patch|
  {
    if patch == [] then book else ApplyPatch(SetOne(book, patch[0]), patch[1..])
  }

  /** Applying a concatenated patch is applying its two parts one after the other. */
  lemma {:induction false} ApplyPatchAppend(book: Book, p: Patch, q: Patch)
    ensures ApplyPatch(book, p + q) == ApplyPatch(ApplyPatch(book, p), q)
    decreases |p|
  {
    if p == [] {
      assert p + q == q;
    } else {
      assert (p + q)[1..] == p[1..] + q;
      ApplyPatchAppend(SetOne(book, p[0]), p[1..], q);
    }
  }

  /** A one-element patch is a single `$set`. */
  lemma ApplySingle(book: Book, f: SetField)
    ensures ApplyPatch(book, [f]) == SetOne(book, f)
  {
    assert [f][1..] == [];
  }

  /** The stored book with the first `n` text fields of TextKeys taken from the request when given. */
  function MergeUpTo(stored: Book, body: Book, n: nat): Book {
    stored.(
      authorInfo := if 0 < n then Pick(body.authorInfo, stored.authorInfo) else stored.authorInfo,
      authorName := if 1 < n then Pick(body.authorName, stored.authorName) else stored.authorName,
      category := if 2 < n then Pick(body.category, stored.category) else stored.category,
      description := if 3 < n then Pick(body.description, stored.description) else stored.description,
      genre := if 4 < n then Pick(body.genre, stored.genre) else stored.genre,
      name := if 5 < n then Pick(body.name, stored.name) else stored.name,
      publication := if 6 < n then Pick(body.publication, stored.publication) else stored.publication)
  }

  /** The conditional append for rank n - 1 takes the merge of the first n - 1 fields to that of the first n. */
  lemma ApplyOptionalEntry(stored: Book, body: Book, n: nat)
    requires 0 < n <= |TextKeys|
    ensures ApplyPatch(MergeUpTo(stored, body, n - 1), OptionalEntry(TextKeys[n - 1], FieldAt(body, n - 1))) ==
      MergeUpTo(stored, body, n)
  {
    var value := FieldAt(body, n - 1);
    if value != "" {
      ApplySingle(MergeUpTo(stored, body, n - 1), SetField(TextKeys[n - 1], Text(value)));
    }
  }

  /** Applying the first `n` conditional appends to a stored book merges the first `n` text fields. */
  lemma {:induction false} ApplyTextEntries(stored: Book, body: Book, n: nat)
    requires n <= |TextKeys|
    ensures ApplyPatch(stored, TextEntries(body, n)) == MergeUpTo(stored, body, n)
  {
    if n > 0 {
      var e := OptionalEntry(TextKeys[n - 1], FieldAt(body, n - 1));
      ApplyPatchAppend(stored, TextEntries(body, n - 1), e);
      ApplyTextEntries(stored, body, n - 1);
      ApplyOptionalEntry(stored, body, n);
    }
  }

  /** A request value replaces the stored one only when it is non-empty. */
  function Pick(requested: string, stored: string): string {
    if requested != "" then requested else stored
  }

  /**
   * The book the handler means to produce: each of the seven text fields
   * taken from the request when given, updated_at set to now, and id, price
   * and created_at as stored.
   */
  function Merge(stored: Book, body: Book, now: Timestamp): Book {
    stored.(
      authorInfo := Pick(body.authorInfo, stored.authorInfo),
      authorName := Pick(body.authorName, stored.authorName),
      category := Pick(body.category, stored.category),
      description := Pick(body.description, stored.description),
      genre := Pick(body.genre, stored.genre),
      name := Pick(body.name, stored.name),
      publication := Pick(body.publication, stored.publication),
      updatedAt := now)
  }

  /** Applying the patch to a stored book yields exactly the merged book. */
  lemma {:induction false} PatchMerges(stored: Book, body: Book, now: Timestamp)
    ensures ApplyPatch(stored, PatchOf(body, now)) == Merge(stored, body, now)
  {
    var u := SetField(UpdatedAt, Time(now));
    ApplyPatchAppend(stored, TextEntries(body, |TextKeys|), [u]);
    ApplyTextEntries(stored, body, |TextKeys|);
    ApplySingle(MergeUpTo(stored, body, |TextKeys|), u);
  }

  /** The update never changes id, price or created_at, and always sets updated_at. */
  lemma {:induction false} PatchKeepsFixedFields(stored: Book, body: Book, now: Timestamp, b: Book)
    requires b == ApplyPatch(stored, PatchOf(body, now))
    ensures b.id == stored.id && b.price == stored.price && b.createdAt == stored.createdAt &&
      b.updatedAt == now
  {
    PatchMerges(stored, body, now);
  }

  /** `UpdateOne({"_id": id}, {"$set": patch})`: the first book with the id is patched; none, nothing changes. */
  function UpdateFirst(books: seq<Book>, id: ObjectId, patch: Patch): (r: seq<Book>)
    ensures |r| == |books|
    ensures FirstWithId(books, id) == -1 ==> r == books
    ensures forall i | 0 <= i < |books| && i != FirstWithId(books, id) :: r[i] == books[i]
    ensures 0 <= FirstWithId(books, id) ==>
      r[FirstWithId(books, id)] == ApplyPatch(books[FirstWithId(books, id)], patch)
  {
    var k := FirstWithId(books, id);
    if k < 0 then books else books[k := ApplyPatch(books[k], patch)]
  }

  /** `DeleteOne({"_id": id})`: the remaining books and the deleted count. */
  function DeleteFirst(books: seq<Book>, id: ObjectId): (r: (seq<Book>, nat))
    ensures r.1 <= 1 && |r.0| == |books| - r.1
    ensures r.1 == 0 <==> forall i | 0 <= i < |books| :: books[i].id != id
    ensures r.1 == 0 ==> r.0 == books
    ensures r.1 == 1 ==> 0 <= FirstWithId(books, id)
    ensures r.1 == 1 ==> r.0[..FirstWithId(books, id)] == books[..FirstWithId(books, id)]
    ensures r.1 == 1 ==> forall i | FirstWithId(books, id) <= i < |r.0| :: r.0[i] == books[i + 1]
    ensures r.1 == 1 ==> multiset(r.0) + multiset{books[FirstWithId(books, id)]} == multiset(books)
  {
    var k := FirstWithId(books, id);
    if k < 0 then (books, 0)
    else
      assert books == books[..k] + [books[k]] + books[k + 1..];
      (books[..k] + books[k + 1..], 1)
  }

  /** The answer of DeleteBook to the store's deleted count. */
  function DeleteAnswer(deletedCount: nat): (r: Result<()>)
    ensures r.Err? <==> deletedCount == 0
    ensures r.Err? ==> r.failure == NotFound("book not found") && r.Status() == 404
  {
    if deletedCount == 0 then Err(NotFound("book not found")) else Ok(())
  }
}
