# Book catalog: in-memory store, lookup, checkout, return, create

This project models the core of a small library-catalog web service written in Go
(`main.go`). The service keeps one process-wide slice of book records
(identifier, title, author, quantity), seeded with four entries. Its handlers do these things:

- list the records;
- fetch one record by identifier;
- check a copy out: refused when the quantity is zero or less, otherwise the quantity drops by one;
- return a copy: the quantity rises by one, with no cap;
- create a record: appended at the end.

Every lookup is the same linear scan. It returns a pointer to the first record whose
identifier matches, so checkout and return change the stored record itself.

The Dafny model has three modules:

- `Catalog` (`catalog.dfy`): the `Book` record and the `Outcome` of a request
  (`Ok(book)`, `MissingParameter`, `NotFound`, `Unavailable`). It also holds the seed
  collection and `Lookup`, the first-match search as a function on `seq<Book>`, with
  lemmas about first-match, shadowing of duplicates and lookups after an append.
- `Inventory` (`inventory.dfy`): each request as a function from the collection before it
  to a `Reply`, which holds the outcome and the collection after it. The module also holds
  the lemmas that relate several requests: checkout then return restores the collection,
  repeated checkouts drain a record and then are refused, create then fetch, and the
  invariants that each operation keeps or can break (non-negative quantities, unique
  identifiers).
- `Handlers` (`handlers.dfy`): the class `BookStore` with the mutable field `books`. It
  stands for the package-level slice. The handlers are methods with `modifies this`.
  `GetBookById` is the scanning loop with its invariant. Checkout and return rewrite one
  slot of the field in place, and create appends to it. The `ensures` of each checkout,
  return and create handler ties its outcome and the new field value to the matching
  `Inventory` function of the old value. The checkout and return handlers also say directly
  which slot changed and by how much. `GetBookById` is proved equal to `Catalog.Lookup`,
  `BookById` to `Inventory.Fetch`, and `GetBooks` returns the field itself.

A missing `id` query parameter is modelled as `None` of an `Option<string>` argument. The
create handler's body is modelled as an already-decoded `Book`.

Create checks neither identifier uniqueness nor the sign of the quantity (main.go:119):

- `CreateUniqueIds` shows that uniqueness survives a create exactly when the new
  identifier was absent.
- `LaterDuplicateShadowed` shows that the lookup never finds a later duplicate.
- `CreateNonNegative` shows that non-negative quantities survive a create exactly when
  the new record's quantity is non-negative.

Checkout refuses a record whose quantity is `<= 0` (main.go:61), and the model makes the same test.

## Model

| member | source | states |
|---|---|---|
| `Catalog.Seed` | main.go:20-25 | the four seeded records, in order; all quantities are non-negative and the identifiers are unique |
| `Catalog.Lookup` | main.go:93-101 | a found index holds the queried identifier and no earlier slot does; the result is not-found exactly when no record has the identifier |
| `Catalog.LookupIsFirst` | main.go:94-98 | any index that holds the identifier with no earlier match is exactly what the lookup returns |
| `Catalog.LaterDuplicateShadowed` | main.go:94-98 | when two records share an identifier, the lookup never returns the later one |
| `Catalog.LookupSameIds` | main.go:94-98 | the scan compares identifiers only, so two collections with the same identifiers slot by slot give the same lookup answer |
| `Catalog.LookupAfterAppend` | main.go:119 | after an append, an identifier already present is found where it was; the new record is found at the end only if its identifier was absent; any other identifier is still not found |
| `Inventory.Fetch` | main.go:32-42 | not-found exactly when no record has the identifier; otherwise it returns the first record with it |
| `Inventory.Checkout` | main.go:46-69 | missing parameter exactly when `id` is absent; not-found exactly when no record matches; unavailable exactly when the first match has quantity <= 0; every failure leaves the collection unchanged; on success only the first match's quantity drops by 1, with the other slots, the other fields and the length unchanged, and the updated record is returned |
| `Inventory.Return` | main.go:73-90 | never unavailable; missing parameter and not-found as for checkout, leaving the collection unchanged; on success only the first match's quantity rises by 1, whatever its value, and the updated record is returned |
| `Inventory.Create` | main.go:112-121 | the new record is returned and appended at the end; the length grows by 1 and every earlier record is unchanged |
| `Inventory.CheckoutStep` | main.go:61-66 | a checkout of a found record with copies left decrements exactly that slot |
| `Inventory.CheckoutThenReturn` | main.go:46-90 | a successful checkout followed by a return of the same identifier restores the original collection and answers with the original record |
| `Inventory.CheckoutKeepsNonNegative` | main.go:61-66 | checkout never makes a non-negative quantity negative |
| `Inventory.ReturnKeepsNonNegative` | main.go:88 | return keeps all quantities non-negative |
| `Inventory.CreateNonNegative` | main.go:119 | create performs no quantity check: non-negative quantities survive exactly when the new record's quantity is non-negative |
| `Inventory.CreateUniqueIds` | main.go:119 | create performs no uniqueness check: unique identifiers survive exactly when the new identifier was absent |
| `Inventory.AdjustKeepsUniqueIds` | main.go:46-90 | checkout and return keep identifiers unique |
| `Inventory.CreateThenFetch` | main.go:112-121 | after a create, fetching the new identifier returns the new record when the identifier was new, and otherwise the earlier record (the new one is shadowed); fetches of other identifiers are unaffected |
| `Inventory.CheckoutTimesCounts` | main.go:61-66 | n successive checkouts with n at most the first match's quantity all decrement that same slot, taking it down by exactly n and touching nothing else |
| `Inventory.CheckoutExhausted` | main.go:61-64 | once a record has been checked out down to zero, the next checkout is unavailable and changes nothing |
| `Inventory.SeedScenarios` | main.go:20-69 | on the seed, record "1" goes 3 -> 2 -> 1 -> 0 on checkout and the fourth checkout is unavailable; "999" is not found; returning "2" takes it from 1 to 2 |
| `Handlers.BookStore.constructor` | main.go:20-25 | a new store holds exactly the seeded records |
| `Handlers.BookStore.GetBooks` | main.go:28-30 | lists the whole collection in stored order, unchanged |
| `Handlers.BookStore.GetBookById` | main.go:93-101 | the loop returns the lookup's first-match index, or none exactly when no record matches |
| `Handlers.BookStore.BookById` | main.go:32-42 | answers what `Inventory.Fetch` answers on the current collection |
| `Handlers.BookStore.CheckoutBook` | main.go:46-69 | the outcome and new collection are those of `Inventory.Checkout` on the old one; failures change nothing; on success, exactly the first match's slot lost one copy in place |
| `Handlers.BookStore.ReturnBook` | main.go:73-90 | the outcome and new collection are those of `Inventory.Return` on the old one; failures change nothing; on success, exactly the first match's slot gained one copy in place |
| `Handlers.BookStore.CreateBook` | main.go:112-121 | the new collection is the old one with the record appended, and the record is returned |

## Left out

- HTTP routing, the extraction of the query and path parameters, JSON serialisation of the
  responses and the status codes and messages are left out. The gin library does this
  work, and the model only returns the `Outcome` from which those responses are chosen.
- JSON decoding of the create body is left out. So is the path that silently drops a
  malformed body: decoding is a library call, so `CreateBook` takes an already-decoded
  record.
- Server startup and binding the listening address are left out.
- Concurrency is left out. The handlers share the slice with no lock, and the model has
  one sequential caller.
- Inventory.Return: uses unbounded integers and does not model the wrap-around of Go's
  64-bit `int` after repeated returns. The source has no cap on the quantity.
- Handlers.BookStore.ReturnBook: same as `Inventory.Return`; 64-bit wrap-around is not modelled.
- Handlers.BookStore.CheckoutBook: the handler updates the record through a pointer into
  the slice's backing array. The model rewrites the slot of the `books` field. Aliasing of
  that pointer is not modelled, and neither is a later append moving the backing array.
- Handlers.BookStore.ReturnBook: changes the record through the same pointer as
  `CheckoutBook`; the model rewrites the slot, and the same aliasing is not modelled.
