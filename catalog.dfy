/** The records of the book catalog, the seed collection and lookup by identifier. */
module Catalog {

  /** One catalog record: identifier, title, author and the number of copies on the shelf.
      The quantity is a plain integer: nothing in the record type keeps it non-negative. */
  datatype Book = Book(id: string, title: string, author: string, quantity: int)

  datatype Option<T> = None | Some(value: T)

  /** What a request against the catalog produces: the record it returns, or the reason it failed. */
  datatype Outcome = Ok(book: Book) | MissingParameter | NotFound | Unavailable

  /** The four records the collection holds when the process starts. */
  function Seed(): (s: seq<Book>)
    ensures |s| == 4
    ensures NonNegative(s) && UniqueIds(s)
  {
    [ Book("1", "Little Women", "Louisa May Alcott", 3),
      Book("2", "Pride, Price and Prejudice", "Jane Austen", 1),
      Book("3", "Red Rising", "Pierce Brown", 4),
      Book("4", "The Master and Margarita", "Mikhail Bulgakov", 2) ]
  }

  /** No record of `books` carries identifier `id`. */
  predicate Absent(books: seq<Book>, id: string) {
    forall j :: 0 <= j < |books| ==> books[j].id != id
  }

  /** Slot `i` holds identifier `id` and no earlier slot does. */
  predicate IsFirst(books: seq<Book>, i: int, id: string) {
    0 <= i < |books| && books[i].id == id &&
    forall j :: 0 <= j < i ==> books[j].id != id
  }

  /** Every record has a quantity of zero or more. */
  predicate NonNegative(books: seq<Book>) {
    forall j :: 0 <= j < |books| ==> books[j].quantity >= 0
  }

  /** No two records share an identifier. */
  predicate UniqueIds(books: seq<Book>) {
    forall j, k :: 0 <= j < k < |books| ==> books[j].id != books[k].id
  }

  /** The index of the first record whose identifier is `id`, scanning in stored order. */
  function Lookup(books: seq<Book>, id: string): (r: Option<nat>)
    ensures r.Some? ==> IsFirst(books, r.value, id)
    ensures r.None? <==> Absent(books, id)
  {
    if |books| == 0 then None
    else if books[0].id == id then Some(0)
    else match Lookup(books[1..], id)
      case None => None
      case Some(k) => Some(k + 1)
  }

  /** The first match is the only index Lookup can return: an index with the identifier
      and no earlier match is exactly Lookup's answer. */
  lemma LookupIsFirst(books: seq<Book>, i: int, id: string)
    requires IsFirst(books, i, id)
    ensures Lookup(books, id) == Some(i)
  {
  }

  /** A later record with an identifier already present is shadowed: Lookup never returns it. */
  lemma LaterDuplicateShadowed(books: seq<Book>, i: int, k: int)
    requires 0 <= i < k < |books| && books[i].id == books[k].id
    ensures Lookup(books, books[k].id).Some? && Lookup(books, books[k].id).value <= i
  {
  }

  /** Lookup depends on identifiers only: two collections with the same identifiers in the
      same slots answer every lookup alike. */
  lemma LookupSameIds(a: seq<Book>, b: seq<Book>, id: string)
    requires |a| == |b|
    requires forall j :: 0 <= j < |a| ==> a[j].id == b[j].id
    ensures Lookup(a, id) == Lookup(b, id)
  {
  }

  /** Appending a record leaves every earlier match in place, and makes the new record
      findable exactly when its identifier was absent before. */
  lemma LookupAfterAppend(books: seq<Book>, b: Book, id: string)
    ensures Lookup(books + [b], id) ==
      if !Absent(books, id) then Lookup(books, id)
      else if b.id == id then Some(|books|)
      else None
  {
    var s := books + [b];
    if !Absent(books, id) {
      var i := Lookup(books, id).value;
      assert s[i] == books[i];
      LookupIsFirst(s, i, id);
    } else if b.id == id {
      assert s[|books|] == b;
      LookupIsFirst(s, |books|, id);
    } else {
      assert forall j :: 0 <= j < |s| ==> s[j] == if j < |books| then books[j] else b;
    }
  }
}
