/** The four handlers of the `/books` router as pure functions over the
    in-memory collection. `save` is the persistence call, passed in as an
    arbitrary boolean oracle over the sequence it is handed; the id of a new
    record (a random number in the service) is passed in as well. */
module BooksRoute {
  import opened Wrappers
  import opened Collection
  import opened Validation

  /** Why a handler rejected the request. */
  datatype Failure =
    | Invalid(errors: seq<FieldError>)  // 400 with the validation error list
    | NotFound                          // 404 "Book not found"
    | NotSaved                          // 400 "Could not save book"

  /** What one handler call leaves behind: its result, the sequence it handed
      to `save` (None when it never called `save`), and the in-memory
      collection afterwards. */
  datatype Outcome<+T> = Outcome(result: Result<T, Failure>, saved: Option<seq<Book>>, books: seq<Book>)

  /** GET /books: the in-memory collection, as it is. */
  function List(books: seq<Book>): (r: seq<Book>)
    ensures r == books
  {
    books
  }

  /** POST /books. A valid body is pushed onto the in-memory collection as
      `{name, author, id: newId}` before `save` is called, and the push stays
      whatever `save` answers. */
  function Create(books: seq<Book>, body: Payload, newId: int, save: seq<Book> -> bool): (o: Outcome<()>)
    ensures !Valid(body) ==> o.result == Err(Invalid(Validate(body))) && o.saved == None && o.books == books
    ensures Valid(body) ==>
              && |o.books| == |books| + 1
              && o.books[..|books|] == books
              && o.books[|books|] == Book(body.name.value, body.author.value, newId)
              && o.saved == Some(o.books)
              && o.result == (if save(o.books) then Ok(()) else Err(NotSaved))
  {
    var errors := Validate(body);
    if errors != [] then Outcome(Err(Invalid(errors)), None, books)
    else
      var pushed := books + [Book(body.name.value, body.author.value, newId)];
      if !save(pushed) then Outcome(Err(NotSaved), Some(pushed), pushed)
      else Outcome(Ok(()), Some(pushed), pushed)
  }

  /** PUT /books/:bookid. Validation runs before the lookup; the updated
      sequence is a fresh one handed only to `save`, so the in-memory
      collection is never changed. */
  function Update(books: seq<Book>, bookId: int, body: Payload, save: seq<Book> -> bool): (o: Outcome<Book>)
    ensures o.books == books
    ensures !Valid(body) ==> o.result == Err(Invalid(Validate(body))) && o.saved == None
    ensures Valid(body) && !HasId(books, bookId) ==> o.result == Err(NotFound) && o.saved == None
    ensures Valid(body) && HasId(books, bookId) ==>
              && o.saved.Some?
              && |o.saved.value| == |books|
              && (forall i :: 0 <= i < |books| ==> o.saved.value[i].id == books[i].id)
              && (forall i :: 0 <= i < |books| && books[i].id == bookId ==>
                    o.saved.value[i] == Book(body.name.value, body.author.value, bookId))
              && (forall i :: 0 <= i < |books| && books[i].id != bookId ==> o.saved.value[i] == books[i])
              && o.result == (if save(o.saved.value)
                              then Ok(Book(body.name.value, body.author.value, bookId))
                              else Err(NotSaved))
  {
    var errors := Validate(body);
    if errors != [] then Outcome(Err(Invalid(errors)), None, books)
    else
      match Find(books, bookId)
      case None => Outcome(Err(NotFound), None, books)
      case Some(_) =>
        var (updatedBooks, updatedBook) := UpdateMatching(books, bookId, body.name.value, body.author.value, None);
        if !save(updatedBooks) then Outcome(Err(NotSaved), Some(updatedBooks), books)
        else Outcome(Ok(updatedBook.value), Some(updatedBooks), books)
  }

  /** DELETE /books/:bookid. The filtered sequence is a fresh one handed only
      to `save`, so the in-memory collection is never changed. */
  function Delete(books: seq<Book>, bookId: int, save: seq<Book> -> bool): (o: Outcome<()>)
    ensures o.books == books
    ensures !HasId(books, bookId) ==> o.result == Err(NotFound) && o.saved == None
    ensures HasId(books, bookId) ==>
              && o.saved == Some(RemoveMatching(books, bookId))
              && |o.saved.value| == |books| - CountId(books, bookId) < |books|
              && (forall b :: b in o.saved.value <==> b in books && b.id != bookId)
              && !HasId(o.saved.value, bookId)
              && o.result == (if save(o.saved.value) then Ok(()) else Err(NotSaved))
  {
    match Find(books, bookId)
    case None => Outcome(Err(NotFound), None, books)
    case Some(_) =>
      RemoveMatchingMembers(books, bookId);
      var updatedBooks := RemoveMatching(books, bookId);
      if !save(updatedBooks) then Outcome(Err(NotSaved), Some(updatedBooks), books)
      else Outcome(Ok(()), Some(updatedBooks), books)
  }

  /** After a valid POST the list holds the new record, even when `save`
      failed. */
  lemma CreateThenListShowsRecord(books: seq<Book>, body: Payload, newId: int, save: seq<Book> -> bool)
    requires Valid(body)
    ensures Book(body.name.value, body.author.value, newId) in List(Create(books, body, newId, save).books)
    ensures HasId(List(Create(books, body, newId, save).books), newId)
  {
  }

  /** A successful DELETE leaves the deleted id in the list: the filtered
      sequence only reaches `save`. */
  lemma ListAfterDeleteStillShowsRecord(books: seq<Book>, bookId: int, save: seq<Book> -> bool)
    requires HasId(books, bookId)
    ensures Delete(books, bookId, save).result.Ok? <==> save(RemoveMatching(books, bookId))
    ensures HasId(List(Delete(books, bookId, save).books), bookId)
  {
  }

  /** Neither PUT nor DELETE ever changes the in-memory collection, so any
      run of them leaves what GET shows as it was. */
  lemma {:induction false} UpdatesAndDeletesKeepList(books: seq<Book>, requests: seq<(int, Option<Payload>)>, save: seq<Book> -> bool)
    ensures List(Replay(books, requests, save)) == books
  {
    if |requests| != 0 {
      UpdatesAndDeletesKeepList(books, requests[1..], save);
    }
  }

  /** Runs a series of PUT (`Some(body)`) and DELETE (`None`) requests one
      after the other against the in-memory collection each leaves. */
  function Replay(books: seq<Book>, requests: seq<(int, Option<Payload>)>, save: seq<Book> -> bool): seq<Book>
  {
    if |requests| == 0 then books
    else
      var (id, body) := requests[0];
      var after := match body
        case Some(p) => Update(books, id, p, save).books
        case None => Delete(books, id, save).books;
      Replay(after, requests[1..], save)
  }

  /** DELETE of the id a PUT just saved hands `save` the same sequence as
      DELETE against the original collection. */
  lemma DeleteAfterUpdateSavesSame(books: seq<Book>, bookId: int, body: Payload, save: seq<Book> -> bool)
    requires Valid(body) && HasId(books, bookId)
    ensures var put := Update(books, bookId, body, save);
            Delete(put.saved.value, bookId, save).saved == Delete(books, bookId, save).saved
  {
    var put := Update(books, bookId, body, save);
    RemoveAfterUpdate(books, bookId, body.name.value, body.author.value, None);
    assert put.saved.value == UpdateMatching(books, bookId, body.name.value, body.author.value, None).0;
    assert HasId(put.saved.value, bookId) by {
      var i :| 0 <= i < |books| && books[i].id == bookId;
      assert put.saved.value[i].id == bookId;
    }
  }

  /** The PUT scenario: with `save` succeeding, replacing record 3 answers
      with the new fields and the looked-up id, and the saved sequence holds
      the renamed record in place of the old one. */
  lemma UpdateScenario()
    ensures var books := [Book("Lion's dream", "Julie England", 2), Book("Dreams", "Ann Wilde", 3)];
            var put := Update(books, 3, Payload(Some("Nightmares"), Some("Jamie Wilde")), _ => true);
            && put.result == Ok(Book("Nightmares", "Jamie Wilde", 3))
            && put.saved == Some([books[0], Book("Nightmares", "Jamie Wilde", 3)])
  {
    var books := [Book("Lion's dream", "Julie England", 2), Book("Dreams", "Ann Wilde", 3)];
    assert books[1].id == 3;
    var saved := Update(books, 3, Payload(Some("Nightmares"), Some("Jamie Wilde")), _ => true).saved.value;
    assert saved == [saved[0], saved[1]];
  }
}
