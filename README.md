# Book library API: the in-memory book store

The application keeps its books in one module-level list of records
`{id, title, author}`, seeded with two books, and five HTTP handlers read and
change it: list all books, get one book by id, create a book, update a book,
delete a book. This project models that list and those five handlers in Dafny
and proves what each handler does to the list and what it answers.

- `wrappers.dfy`: module `Wrappers`, the `Option` type used for JSON fields
  that may be missing.
- `book_store.dfy`: module `BookStore`.
  - Data: `Book`, the parsed JSON object body `Payload` (a map from keys to
    values), the `Status` codes (200/201/400/404), the response `Reply`.
  - Pure functions on the list: `Find` (the generator scan that takes the
    first record with an id), `NextId` (one more than the LAST record's id,
    or 1 on an empty list), `Without` (the list comprehension that filters an
    id out).
  - Class `Store`: its field `books` is the mutable list. `GetBooks` and
    `GetBook` are read-only functions. `AddBook`, `UpdateBook` and
    `DeleteBook` are methods that reassign `books`.

The store invariant `Store.Valid` says ids are positive and strictly
increasing in list order, so they are unique. The seed data establishes it
and every handler preserves it. Because a new id is computed from the last
record and not from a counter, deleting the last book and then creating one
issues the deleted id or a smaller id that was issued earlier (for instance,
after creating book 3 and deleting books 2 and 3, the next book is book 2).
`DeleteLastAllowsReuse` proves that the next id is then at most the deleted
one, and `SeedReissuesDeletedId` shows the deleted id itself coming back on
the seed data. It is harmless because the old record is gone, and `NextId`'s
contract shows the new id differs from every id still in the store.

## Model

| member | source | states |
|---|---|---|
| `BookStore.Store.constructor` | app.py:6-9 | the store starts with the two seed books, ids 1 and 2, and the id invariant holds |
| `BookStore.SeedReissuesDeletedId` | app.py:6-9 | the seed data has increasing ids; after deleting book 2 the next book created gets id 2 again |
| `BookStore.Find` | app.py:19 | the result is the index of the FIRST record with the id (no earlier record has it), and it is None exactly when no record has the id |
| `BookStore.FindUnique` | app.py:19 | with increasing ids, looking up the id of record i finds record i |
| `BookStore.Store.GetBooks` | app.py:13-14 | answers 200 with the whole list, in order |
| `BookStore.Store.GetBook` | app.py:17-22 | answers 404 "Book not found" exactly when no record has the id; otherwise 200 with a record of that id that no earlier record's id matches |
| `BookStore.Store.AddBook` | app.py:26-36 | a missing body, or one lacking title or author, answers 400 with the list unchanged; otherwise exactly one record with the next id and the given title and author is appended after the unchanged old records, and the answer is 201 with that record; the id invariant is kept |
| `BookStore.Complete` | app.py:28 | the body is accepted exactly when it is present and has both the "title" and the "author" key; the falsy-body test rejects nothing more |
| `BookStore.NextId` | app.py:31 | with increasing ids, the id given to a new record is positive and larger than every id in the list |
| `BookStore.AppendKeepsIncreasing` | app.py:31-35 | appending a record with the next id keeps ids positive and increasing |
| `BookStore.AddThenFind` | app.py:30-36 | after a create, looking up the new id finds the new record, last in the list, with the given fields |
| `BookStore.Store.UpdateBook` | app.py:40-49 | an id no record has answers 404 with the list unchanged, with or without a body; otherwise only the first matching record changes, each key missing from the body keeps its old value, the id stays, and the answer is 200 with the new record |
| `BookStore.UpdateKeepsIncreasing` | app.py:45-48 | overwriting title and author of one record while keeping its id keeps the id invariant |
| `BookStore.Store.DeleteBook` | app.py:53-56 | the new list is the old one with every record of that id filtered out, the answer is always 200, and the id invariant is kept |
| `BookStore.Without` | app.py:55 | no record of the filtered list has the deleted id, and the list does not grow |
| `BookStore.WithoutMembers` | app.py:55 | a record survives the filter exactly when it was in the list and has another id |
| `BookStore.WithoutConcat` | app.py:55 | filtering distributes over concatenation, so surviving records keep their relative order |
| `BookStore.WithoutAbsent` | app.py:55 | deleting an id that no record has leaves the list unchanged |
| `BookStore.DeleteThenFind` | app.py:55 | after deleting an id, a lookup of it finds nothing (a following GET answers 404) |
| `BookStore.WithoutIdempotent` | app.py:55 | deleting the same id twice leaves the same list as deleting it once |
| `BookStore.WithoutKeepsIncreasing` | app.py:55 | filtering keeps ids positive and increasing |
| `BookStore.WithoutSplit` | app.py:55 | filtering out an id that only one record has removes that record and keeps the records before and after it, in order |
| `BookStore.WithoutRemovesFound` | app.py:55 | with increasing ids, deleting a present id removes exactly the one record found and nothing else |
| `BookStore.DeleteLastAllowsReuse` | app.py:31 | deleting the last record leaves the list before it, and the next id is then at most the deleted id, so ids can be issued again |

## Left out

- Flask routing, reading the request body, JSON serialisation and starting the server: framework I/O. A parsed body is an optional `Payload` map; a response is a `Reply` with a status and a body.
- The error and message texts are modelled as `Error("Book not found")`, `Error("Invalid input")` and `Deleted(id)`; formatting the id into "Book <id> deleted" is serialisation and is not modelled.
- Title and author, and every other value of a body, are modelled as strings. The code copies any JSON value without checking its type, and a body that is JSON but not an object is not modelled.
- `UpdateBook` requires a body whenever the id exists. The handler looks the id up before it reads the body, so a PUT without a JSON body gets 404 for an unknown id (modelled), but raises an exception at `data.get` for an existing id; that crash is a framework failure, not designed behaviour, and is not modelled.
- Ids are unbounded integers, like Python's. The positive-id part of the invariant holds for the seed data and for every id the store creates.
- Concurrent requests mutating the shared list are not modelled; handlers run one at a time.
- Registration, login, JWT authentication, owner checks and file-backed persistence with a write lock are not part of this model: that code is not in app.py.
