/** The operations on the catalog as functions from the collection before a request to the
    outcome and the collection after it, and what they promise together. */
module Inventory {
  import opened Catalog

  /** The result of one request: what it answers, and the collection it leaves behind. */
  datatype Reply = Reply(outcome: Outcome, books: seq<Book>)

  /** `after` is `before` with the quantity of slot `i` moved by `delta`; every other slot,
      every other field and the length are as they were. */
  predicate Adjusted(before: seq<Book>, after: seq<Book>, i: int, delta: int) {
    0 <= i < |before| && |after| == |before| &&
    after[i] == before[i].(quantity := before[i].quantity + delta) &&
    forall j :: 0 <= j < |before| && j != i ==> after[j] == before[j]
  }

  /** Two adjustments of the same slot add up. */
  lemma AdjustedTwice(a: seq<Book>, b: seq<Book>, c: seq<Book>, i: int, d: int, e: int)
    requires Adjusted(a, b, i, d) && Adjusted(b, c, i, e)
    ensures Adjusted(a, c, i, d + e)
  {
  }

  /** Adjusting a quantity leaves every lookup answer where it was. */
  lemma AdjustedLookup(a: seq<Book>, b: seq<Book>, i: int, d: int, id: string)
    requires Adjusted(a, b, i, d)
    ensures Lookup(b, id) == Lookup(a, id)
  {
  }

  /** Fetching one record by identifier: the first record with that identifier, or NotFound. */
  function Fetch(books: seq<Book>, id: string): (r: Outcome)
    ensures r.Ok? || r == NotFound
    ensures r == NotFound <==> Absent(books, id)
    ensures r.Ok? ==> exists i :: IsFirst(books, i, id) && r.book == books[i]
  {
    match Lookup(books, id)
    case None => NotFound
    case Some(i) => Ok(books[i])
  }

  /** Checking out one copy of the record named by the `id` query parameter. */
  function Checkout(books: seq<Book>, id: Option<string>): (r: Reply)
    ensures r.outcome == MissingParameter <==> id.None?
    ensures r.outcome == NotFound <==> id.Some? && Absent(books, id.value)
    ensures r.outcome == Unavailable <==>
      id.Some? && Lookup(books, id.value).Some? && books[Lookup(books, id.value).value].quantity <= 0
    ensures !r.outcome.Ok? ==> r.books == books
    ensures r.outcome.Ok? ==>
      id.Some? && Lookup(books, id.value).Some? &&
      var i := Lookup(books, id.value).value;
      books[i].quantity > 0 && Adjusted(books, r.books, i, -1) && r.outcome.book == r.books[i]
  {
    match id
    case None => Reply(MissingParameter, books)
    case Some(key) =>
      match Lookup(books, key)
      case None => Reply(NotFound, books)
      case Some(i) =>
        if books[i].quantity <= 0 then Reply(Unavailable, books)
        else
          var updated := books[i := books[i].(quantity := books[i].quantity - 1)];
          Reply(Ok(updated[i]), updated)
  }

  /** Returning one copy of the record named by the `id` query parameter. There is no
      upper bound: any quantity goes up by one. */
  function Return(books: seq<Book>, id: Option<string>): (r: Reply)
    ensures r.outcome != Unavailable
    ensures r.outcome == MissingParameter <==> id.None?
    ensures r.outcome == NotFound <==> id.Some? && Absent(books, id.value)
    ensures !r.outcome.Ok? ==> r.books == books
    ensures r.outcome.Ok? ==>
      id.Some? && Lookup(books, id.value).Some? &&
      var i := Lookup(books, id.value).value;
      Adjusted(books, r.books, i, 1) && r.outcome.book == r.books[i]
  {
    match id
    case None => Reply(MissingParameter, books)
    case Some(key) =>
      match Lookup(books, key)
      case None => Reply(NotFound, books)
      case Some(i) =>
        var updated := books[i := books[i].(quantity := books[i].quantity + 1)];
        Reply(Ok(updated[i]), updated)
  }

  /** Creating a record from an already decoded body: appended at the end, whatever its
      identifier or quantity. */
  function Create(books: seq<Book>, b: Book): (r: Reply)
    ensures r.outcome == Ok(b)
    ensures |r.books| == |books| + 1 && r.books[|books|] == b
    ensures forall j :: 0 <= j < |books| ==> r.books[j] == books[j]
  {
    Reply(Ok(b), books + [b])
  }

  /** A successful checkout followed by a return of the same identifier gives back the
      collection as it was, and the return answers with the original record. */
  lemma CheckoutThenReturn(books: seq<Book>, id: string)
    requires Checkout(books, Some(id)).outcome.Ok?
    ensures Return(Checkout(books, Some(id)).books, Some(id)) ==
      Reply(Ok(books[Lookup(books, id).value]), books)
  {
  }

  /** Checkout never takes a quantity below zero: a collection without negative quantities
      keeps that property. */
  lemma CheckoutKeepsNonNegative(books: seq<Book>, id: Option<string>)
    requires NonNegative(books)
    ensures NonNegative(Checkout(books, id).books)
  {
  }

  /** Return never makes a quantity negative either. */
  lemma ReturnKeepsNonNegative(books: seq<Book>, id: Option<string>)
    requires NonNegative(books)
    ensures NonNegative(Return(books, id).books)
  {
  }

  /** Create performs no quantity check: the collection stays free of negative quantities
      exactly when the new record's quantity is not negative. */
  lemma CreateNonNegative(books: seq<Book>, b: Book)
    requires NonNegative(books)
    ensures NonNegative(Create(books, b).books) <==> b.quantity >= 0
  {
  }

  /** Create performs no uniqueness check: identifiers stay unique exactly when the new
      identifier was absent. */
  lemma CreateUniqueIds(books: seq<Book>, b: Book)
    requires UniqueIds(books)
    ensures UniqueIds(Create(books, b).books) <==> Absent(books, b.id)
  {
  }

  /** Checkout and return touch quantities only, so unique identifiers stay unique. */
  lemma AdjustKeepsUniqueIds(books: seq<Book>, id: Option<string>)
    requires UniqueIds(books)
    ensures UniqueIds(Checkout(books, id).books) && UniqueIds(Return(books, id).books)
  {
  }

  /** Creating a record and then fetching its identifier returns that record when the
      identifier was new; otherwise the earlier record still answers and the new one is
      shadowed. Fetches of every other identifier are unaffected. */
  lemma CreateThenFetch(books: seq<Book>, b: Book, id: string)
    ensures Fetch(Create(books, b).books, id) ==
      if id == b.id && Absent(books, id) then Ok(b) else Fetch(books, id)
  {
  }

  /** The collection after `n` checkout requests for `id`. */
  function CheckoutTimes(books: seq<Book>, id: string, n: nat): (s: seq<Book>)
    ensures |s| == |books|
  {
    if n == 0 then books else Checkout(CheckoutTimes(books, id, n - 1), Some(id)).books
  }

  /** While copies remain, each checkout succeeds and takes exactly one copy from the first
      record with that identifier, and from no other record. */
  lemma {:induction false} CheckoutTimesCounts(books: seq<Book>, id: string, i: nat, n: nat)
    requires Lookup(books, id) == Some(i)
    requires n <= books[i].quantity
    ensures Adjusted(books, CheckoutTimes(books, id, n), i, -(n as int))
  {
    if n > 0 {
      var m: nat := n - 1;
      CheckoutTimesCounts(books, id, i, m);
      var prev := CheckoutTimes(books, id, m);
      AdjustedLookup(books, prev, i, -(m as int), id);
      CheckoutStep(prev, id, i);
      AdjustedTwice(books, prev, CheckoutTimes(books, id, n), i, -(m as int), -1);
    }
  }

  /** One successful checkout of the first match `i` moves only slot `i` and leaves the
      lookup answer where it was. */
  lemma CheckoutStep(books: seq<Book>, id: string, i: nat)
    requires Lookup(books, id) == Some(i) && books[i].quantity > 0
    ensures Adjusted(books, Checkout(books, Some(id)).books, i, -1)
  {
  }

  /** Once a record's quantity has been checked out down to zero, the next checkout is
      refused as unavailable and changes nothing. */
  lemma CheckoutExhausted(books: seq<Book>, id: string, i: nat)
    requires Lookup(books, id) == Some(i)
    requires books[i].quantity >= 0
    ensures Checkout(CheckoutTimes(books, id, books[i].quantity), Some(id)) ==
      Reply(Unavailable, CheckoutTimes(books, id, books[i].quantity))
  {
    var drained := CheckoutTimes(books, id, books[i].quantity);
    CheckoutTimesCounts(books, id, i, books[i].quantity);
    AdjustedLookup(books, drained, i, -books[i].quantity, id);
  }

  /** The seeded catalog: record "1" has three copies, so three checkouts succeed with 2, 1
      and 0 copies left and a fourth is refused; identifier "999" is not found; a return of
      record "2" brings it from one copy to two. */
  lemma SeedScenarios()
    ensures Checkout(Seed(), Some("1")).outcome == Ok(Seed()[0].(quantity := 2))
    ensures Checkout(CheckoutTimes(Seed(), "1", 1), Some("1")).outcome == Ok(Seed()[0].(quantity := 1))
    ensures Checkout(CheckoutTimes(Seed(), "1", 2), Some("1")).outcome == Ok(Seed()[0].(quantity := 0))
    ensures Checkout(CheckoutTimes(Seed(), "1", 3), Some("1")).outcome == Unavailable
    ensures Fetch(Seed(), "999") == NotFound
    ensures Return(Seed(), Some("2")).outcome == Ok(Seed()[1].(quantity := 2))
  {
  }
}
