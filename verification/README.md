# Book collection handler

A Dafny model of the `/books` router of a small Express service. The router
keeps an ordered collection of `{name, author, id}` records in memory and
answers four requests against it:

- **GET /books** returns the collection as it is.
- **POST /books** validates the body (`name` and `author` present and
  non-empty), pushes `{name, author, id}` onto the in-memory collection and
  then calls `save` on it.
- **PUT /books/:bookid** validates the body first, then looks the id up; when
  found it builds a fresh sequence with every matching record renamed and
  hands that sequence to `save`.
- **DELETE /books/:bookid** looks the id up; when found it builds a fresh
  sequence without the matching records and hands that sequence to `save`.

The model has four modules:

- `Wrappers` (`wrappers.dfy`): `Option` and `Result`.
- `Collection` (`collection.dfy`): the `Book` record and the three array
  operations: `find`, the updating `map` and the deleting `filter`.
- `Validation` (`validation.dfy`): the two required-field checks and the
  error list they produce.
- `BooksRoute` (`books_route.dfy`): the four handlers.

Each handler is a pure function of the in-memory collection. GET returns
the collection itself. POST, PUT and DELETE return an `Outcome` with three
parts:

- the result: a value, or a `Failure` (`Invalid` with the error list,
  `NotFound`, or `NotSaved`);
- the sequence handed to `save`, or `None` when `save` was not called;
- the in-memory collection afterwards.

`save` is an arbitrary function `seq<Book> -> bool`. The service makes the
new record's id with `Math.random()`, so the model takes it as a parameter.

Two behaviours of the handlers are easy to miss, and the model keeps both:

- POST pushes the new record into memory before calling `save`. The record
  stays there even when `save` fails and the request answers "Could not save
  book".
- PUT and DELETE never change the in-memory collection. They only pass a new
  array to `save`. So after a successful DELETE, GET still lists the deleted
  record (`BooksRoute.ListAfterDeleteStillShowsRecord`), and after a
  successful PUT, GET still shows the old fields
  (`BooksRoute.UpdatesAndDeletesKeepList`).

Validation errors carry their text in `msg`, as express-validator produces and
tests/bookroute.integration.test.js:47 expects.

Ids are integers. The handlers compare the path parameter with `==`, which is
modelled as integer equality.

## Model

| member | source | states |
|---|---|---|
| `BooksRoute.List` | routes/books.route.js:8-10 | GET answers with the in-memory collection exactly as it is |
| `Validation.Validate` | routes/books.route.js:17-25 | the error list is empty exactly when both fields are present and non-empty; it has an error for `name` exactly when `name` is missing or empty, and one for `author` exactly when `author` is missing or empty; at most one error per field, `name` before `author`; every error has location `body` and its field's message; `value` echoes the submitted value and is absent when the field was not submitted |
| `Validation.ValidateIgnoresFilledText` | routes/books.route.js:53-54 | the error list depends only on which fields are blank and on their blank values, never on the text of a filled field |
| `Validation.MissingNameRejected` | tests/bookroute.integration.test.js:36-51 | a body with only a non-empty `author` gives exactly one error: `name`, "Book name is required", no `value` |
| `Validation.EmptyFieldsRejected` | tests/bookroute.integration.test.js:69-90 | a body with both fields empty gives two errors, `name` then `author`, each echoing the empty value |
| `BooksRoute.Create` | routes/books.route.js:14-47 | an invalid body is rejected with exactly the validation errors, with no `save` call and no change; a valid body appends exactly one record `{name, author, newId}` at the end with every earlier record unchanged; that longer collection is what is saved and what stays in memory whether or not `save` succeeds; the result is success exactly when `save` accepts it |
| `BooksRoute.Update` | routes/books.route.js:50-103 | the in-memory collection never changes; an invalid body is rejected with exactly its validation errors before any lookup, even for an unknown id, and nothing is saved; an unknown id gives NotFound with no `save` call; otherwise the saved sequence has the same length and the same ids in the same order, every record with the id gets the new name and author, every other record is identical, and the answer is the record with the looked-up id and new fields when `save` succeeds, NotSaved when it fails |
| `BooksRoute.Delete` | routes/books.route.js:105-132 | the in-memory collection never changes; an unknown id gives NotFound with no `save` call; otherwise the saved sequence holds exactly the records without that id, none with it, and is shorter by the number of matches (at least one); the result is success exactly when `save` accepts it |
| `Collection.Find` | routes/books.route.js:68 | the lookup finds nothing exactly when no record has the id; otherwise it returns the first record with that id |
| `Collection.CountId` | routes/books.route.js:117 | the number of records with the id is positive exactly when some record has it, and is at most the length |
| `Collection.UpdateMatching` | routes/books.route.js:77-89 | the mapped sequence keeps the length and every id in place; records with the id get the new name and author and the rest are identical; the closure variable ends as the renamed record when some record matched and keeps its initial value otherwise |
| `Collection.RemoveMatching` | routes/books.route.js:117 | the filtered sequence is shorter than the input by exactly the number of records with the id |
| `Collection.RemoveMatchingMembers` | routes/books.route.js:117 | a record is in the filtered sequence exactly when it is in the input and its id differs; no record with the id remains |
| `Collection.RemoveMatchingKeepsOrder` | routes/books.route.js:117 | the filtered sequence is the input taken at strictly increasing positions, and those positions include every record without the id, so the relative order of the kept records is preserved |
| `Collection.RemoveMatchingAppend` | routes/books.route.js:117 | filtering a concatenation is the concatenation of the filtered parts |
| `Collection.RemoveAfterUpdate` | routes/books.route.js:79-89 | deleting an id after the update map removes the same records as deleting it from the original sequence |
| `Collection.UpdateMatchingIdempotent` | routes/books.route.js:79-89 | applying the update map twice with the same fields gives the same sequence as applying it once |
| `Collection.RemoveMatchingIdempotent` | routes/books.route.js:117 | filtering twice by the same id gives the same sequence as filtering once |
| `Collection.RemoveMatchingAbsent` | routes/books.route.js:117 | filtering by an id that no record has leaves the sequence unchanged |
| `BooksRoute.CreateThenListShowsRecord` | routes/books.route.js:28-33 | after a valid POST, GET lists the new record and its id, even when `save` failed |
| `BooksRoute.ListAfterDeleteStillShowsRecord` | routes/books.route.js:117-131 | DELETE of a known id succeeds exactly when `save` accepts the filtered sequence, and GET afterwards still lists that id |
| `BooksRoute.UpdatesAndDeletesKeepList` | routes/books.route.js:79-90 | any series of PUT and DELETE requests leaves what GET shows unchanged |
| `BooksRoute.DeleteAfterUpdateSavesSame` | routes/books.route.js:117 | a DELETE applied to what a PUT saved hands `save` the same sequence as a DELETE of the original collection |
| `BooksRoute.UpdateScenario` | tests/bookroute.integration.test.js:92-104 | on a two-record collection holding id 3, PUT of `{Nightmares, Jamie Wilde}` to id 3 with `save` succeeding answers `{name: Nightmares, author: Jamie Wilde, id: 3}`, and the saved sequence keeps the first record and renames the second in place |

## Left out

- Express routing, the HTTP status codes and the JSON response bodies. The handlers return an abstract `Outcome`. `Invalid`, `NotFound` and `NotSaved` stand for the 400, 404 and "Could not save book" responses.
- `save` and the JSON data file it writes (`services/book.service.js`, `data/books.json`) are not part of this model. `save` is an arbitrary boolean function of the sequence it is handed. The initial collection is the function argument `books`.
- `Math.random()` id generation is left out because it is a random floating-point value. The new id is a parameter, and no uniqueness of ids is claimed because the service does not ensure it.
- JavaScript's loose `==` between the string path parameter and the stored number is left out. Ids are integers and the comparison is integer equality.
- express-validator beyond the "present and non-empty" rule is left out. Fields are text or absent; non-string values and their string conversion are not modelled. `check` also looks at query, params, headers and cookies, but only the body is modelled.
- Concurrent requests racing on the shared array are left out, because each handler is modelled as one atomic step.
- The `{...book}` spread of the update copies any extra fields a stored record might carry. Records here have exactly `name`, `author` and `id`.
