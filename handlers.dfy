/** The process-wide collection and the request handlers that read and change it. The
    collection is a field that the handlers update in place: checkout and return rewrite the
    quantity of one stored slot, create appends. */
module Handlers {
  import opened Catalog
  import Inventory

  class BookStore {
    /** The shared collection, in insertion order. */
    var books: seq<Book>

    /** The collection as the process starts: the four seeded records. */
    constructor ()
      ensures books == Seed()
    {
      books := Seed();
    }

    /** Listing every record, in stored order. */
    method GetBooks() returns (all: seq<Book>)
      ensures all == books
    {
      all := books;
    }

    /** The linear scan: the index of the first record with identifier `id`, or None. */
    method GetBookById(id: string) returns (r: Option<nat>)
      ensures r == Lookup(books, id)
      ensures r.Some? ==> r.value < |books| && books[r.value].id == id
      ensures r.None? <==> forall j :: 0 <= j < |books| ==> books[j].id != id
    {
      var i := 0;
      while i < |books|
        invariant 0 <= i <= |books|
        invariant forall j :: 0 <= j < i ==> books[j].id != id
      {
        if books[i].id == id {
          LookupIsFirst(books, i, id);
          return Some(i);
        }
        i := i + 1;
      }
      return None;
    }

    /** Fetching one record by identifier; nothing changes. */
    method BookById(id: string) returns (out: Outcome)
      ensures out == Inventory.Fetch(books, id)
    {
      var found := GetBookById(id);
      if found.None? {
        return NotFound;
      }
      out := Ok(books[found.value]);
    }

    /** Checking out one copy: the first record with that identifier loses one copy in
        place; every refusal leaves the collection as it was. */
    method CheckoutBook(id: Option<string>) returns (out: Outcome)
      modifies this
      ensures Inventory.Reply(out, books) == Inventory.Checkout(old(books), id)
      ensures !out.Ok? ==> books == old(books)
      ensures out.Ok? ==>
                id.Some? &&
                exists i :: IsFirst(old(books), i, id.value) &&
                            Inventory.Adjusted(old(books), books, i, -1) && out == Ok(books[i])
    {
      if id.None? {
        return MissingParameter;
      }
      var found := GetBookById(id.value);
      if found.None? {
        return NotFound;
      }
      var i := found.value;
      if books[i].quantity <= 0 {
        return Unavailable;
      }
      books := books[i := books[i].(quantity := books[i].quantity - 1)];
      out := Ok(books[i]);
    }

    /** Returning one copy: the first record with that identifier gains one copy in place,
        with no upper bound; every refusal leaves the collection as it was. */
    method ReturnBook(id: Option<string>) returns (out: Outcome)
      modifies this
      ensures Inventory.Reply(out, books) == Inventory.Return(old(books), id)
      ensures !out.Ok? ==> books == old(books)
      ensures out.Ok? ==>
                id.Some? &&
                exists i :: IsFirst(old(books), i, id.value) &&
                            Inventory.Adjusted(old(books), books, i, 1) && out == Ok(books[i])
    {
      if id.None? {
        return MissingParameter;
      }
      var found := GetBookById(id.value);
      if found.None? {
        return NotFound;
      }
      var i := found.value;
      books := books[i := books[i].(quantity := books[i].quantity + 1)];
      out := Ok(books[i]);
    }

    /** Creating a record from an already decoded body: appended at the end, with no check
        on its identifier or quantity. */
    method CreateBook(newBook: Book) returns (out: Outcome)
      modifies this
      ensures Inventory.Reply(out, books) == Inventory.Create(old(books), newBook)
      ensures books == old(books) + [newBook] && out == Ok(newBook)
    {
      books := books + [newBook];
      out := Ok(newBook);
    }
  }
}
