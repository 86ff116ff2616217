/** The in-memory book collection: an ordered sequence of `{name, author, id}`
    records, and the three array operations the route handlers run over it
    (`find`, the updating `map` and the deleting `filter`). Ids are integers;
    the loose `==` of the handlers becomes integer equality. */
module Collection {
  import opened Wrappers

  /** One stored record. */
  datatype Book = Book(name: string, author: string, id: int)

  /** Some record of `books` carries `id`. */
  predicate HasId(books: seq<Book>, id: int) {
    exists i :: 0 <= i < |books| && books[i].id == id
  }

  /** A non-empty sequence carries `id` in its head or in its tail. */
  lemma HasIdStep(books: seq<Book>, id: int)
    requires |books| > 0
    ensures HasId(books, id) <==> books[0].id == id || HasId(books[1..], id)
  {
  }

  /** Number of records of `books` that carry `id`. */
  function CountId(books: seq<Book>, id: int): (n: nat)
    ensures n <= |books|
    ensures n > 0 <==> HasId(books, id)
  {
    if |books| == 0 then 0
    else
      var rest := CountId(books[1..], id);
      HasIdStep(books, id);
      (if books[0].id == id then 1 else 0) + rest
  }

  /** `bookData.find(book => book.id == bookid)`: the first record carrying `id`,
      or None when there is none. */
  function Find(books: seq<Book>, id: int): (r: Option<Book>)
    ensures r.None? <==> !HasId(books, id)
    ensures r.Some? ==> r.value.id == id
    ensures r.Some? ==> exists i :: 0 <= i < |books| && books[i] == r.value
                                  && forall j :: 0 <= j < i ==> books[j].id != id
  {
    if |books| == 0 then None
    else if books[0].id == id then Some(books[0])
    else
      var r := Find(books[1..], id);
      HasIdStep(books, id);
      assert r.Some? ==> exists i :: 0 <= i < |books| && books[i] == r.value
                                && forall j :: 0 <= j < i ==> books[j].id != id by {
        if r.Some? {
          var k :| 0 <= k < |books[1..]| && books[1..][k] == r.value
                   && forall j :: 0 <= j < k ==> books[1..][j].id != id;
          assert books[k + 1] == r.value;
          assert forall j :: 0 <= j < k + 1 ==> books[j].id != id by {
            forall j | 0 <= j < k + 1
              ensures books[j].id != id
            {
              if j > 0 {
                assert books[j] == books[1..][j - 1];
              }
            }
          }
        }
      }
      r
  }

  /** The record the update callback writes: `{...book, name, author}`. */
  function Rename(book: Book, name: string, author: string): Book {
    book.(name := name, author := author)
  }

  /** The update `map` of the PUT handler, run left to right. Each record
      carrying `id` is replaced by its renamed copy, and the closure variable
      `updated` (first `null`, here `updated` on entry) is overwritten with
      every replacement written, so on exit it holds the last one. Returns the
      new sequence and the final value of that variable. */
  function UpdateMatching(books: seq<Book>, id: int, name: string, author: string, updated: Option<Book>)
    : (r: (seq<Book>, Option<Book>))
    ensures |r.0| == |books|
    ensures forall i :: 0 <= i < |books| ==> r.0[i].id == books[i].id
    ensures forall i :: 0 <= i < |books| && books[i].id == id ==> r.0[i] == Book(name, author, id)
    ensures forall i :: 0 <= i < |books| && books[i].id != id ==> r.0[i] == books[i]
    ensures r.1 == if HasId(books, id) then Some(Book(name, author, id)) else updated
  {
    if |books| == 0 then ([], updated)
    else
      var book := if books[0].id == id then Rename(books[0], name, author) else books[0];
      var next := if books[0].id == id then Some(book) else updated;
      var rest := UpdateMatching(books[1..], id, name, author, next);
      HasIdStep(books, id);
      ([book] + rest.0, rest.1)
  }

  /** The delete `filter` of the DELETE handler: keeps exactly the records
      whose id differs from `id`. */
  function RemoveMatching(books: seq<Book>, id: int): (r: seq<Book>)
    ensures |r| == |books| - CountId(books, id)
  {
    if |books| == 0 then []
    else (if books[0].id != id then [books[0]] else []) + RemoveMatching(books[1..], id)
  }

  /** The filter keeps exactly the records without `id`, so none with it
      remains. */
  lemma {:induction false} RemoveMatchingMembers(books: seq<Book>, id: int)
    ensures forall b :: b in RemoveMatching(books, id) <==> b in books && b.id != id
    ensures !HasId(RemoveMatching(books, id), id)
  {
    if |books| != 0 {
      RemoveMatchingMembers(books[1..], id);
      var rest := RemoveMatching(books[1..], id);
      var r := RemoveMatching(books, id);
      assert books == [books[0]] + books[1..];
      assert r == (if books[0].id != id then [books[0]] else []) + rest;
    }
  }

  /** `idx` lists strictly increasing positions. */
  ghost predicate Increasing(idx: seq<nat>) {
    forall k, l :: 0 <= k < l < |idx| ==> idx[k] < idx[l]
  }

  /** `r` is the subsequence of `books` taken at the strictly increasing
      positions `idx`. */
  ghost predicate Embeds(r: seq<Book>, books: seq<Book>, idx: seq<nat>) {
    && |idx| == |r|
    && Increasing(idx)
    && forall k :: 0 <= k < |idx| ==> idx[k] < |books| && r[k] == books[idx[k]]
  }

  /** Every position of `books` holding a record without `id` is in `idx`. */
  ghost predicate Covers(books: seq<Book>, id: int, idx: seq<nat>) {
    forall i :: 0 <= i < |books| && books[i].id != id ==> i in idx
  }

  /** The filter preserves relative order: its result is the subsequence of
      `books` at strictly increasing positions `idx`, and those positions
      include every record that does not carry `id`. */
  lemma {:induction false} RemoveMatchingKeepsOrder(books: seq<Book>, id: int) returns (idx: seq<nat>)
    ensures Embeds(RemoveMatching(books, id), books, idx)
    ensures Covers(books, id, idx)
  {
    if |books| == 0 {
      idx := [];
      return;
    }
    var tail := RemoveMatchingKeepsOrder(books[1..], id);
    var rest := RemoveMatching(books[1..], id);
    var shifted := Shift(tail);
    ShiftEmbeds(rest, books, id, tail);
    if books[0].id != id {
      assert RemoveMatching(books, id) == [books[0]] + rest;
      idx := Prepend(shifted);
      PrependEmbeds(rest, books, shifted);
      PrependCovers(books, id, shifted);
    } else {
      assert RemoveMatching(books, id) == rest;
      idx := shifted;
    }
  }

  /** Lifting positions in `books[1..]` to positions in `books`. */
  lemma ShiftEmbeds(rest: seq<Book>, books: seq<Book>, id: int, tail: seq<nat>)
    requires |books| > 0
    requires Embeds(rest, books[1..], tail)
    requires Covers(books[1..], id, tail)
    ensures Embeds(rest, books, Shift(tail))
    ensures forall i :: 1 <= i < |books| && books[i].id != id ==> i in Shift(tail)
  {
  }

  /** Keeping the head record adds position 0 in front. */
  lemma PrependEmbeds(rest: seq<Book>, books: seq<Book>, shifted: seq<nat>)
    requires |books| > 0
    requires Embeds(rest, books, shifted)
    requires forall k :: 0 <= k < |shifted| ==> shifted[k] > 0
    ensures Embeds([books[0]] + rest, books, Prepend(shifted))
  {
  }

  /** Position 0 together with every later uncovered position is all of them. */
  lemma PrependCovers(books: seq<Book>, id: int, shifted: seq<nat>)
    requires forall k :: 0 <= k < |shifted| ==> shifted[k] > 0
    requires forall i :: 1 <= i < |books| && books[i].id != id ==> i in shifted
    ensures Covers(books, id, Prepend(shifted))
  {
  }

  /** Every position of `idx` moved one place to the right. */
  ghost function Shift(idx: seq<nat>): (r: seq<nat>)
    ensures |r| == |idx|
    ensures forall k :: 0 <= k < |idx| ==> r[k] == idx[k] + 1
    ensures Increasing(idx) ==> Increasing(r)
    ensures forall k :: 0 <= k < |r| ==> r[k] > 0
  {
    seq(|idx|, k requires 0 <= k < |idx| => idx[k] + 1)
  }

  /** Position 0 followed by the (all positive) positions of `idx`. */
  ghost function Prepend(idx: seq<nat>): (r: seq<nat>)
    requires forall k :: 0 <= k < |idx| ==> idx[k] > 0
    ensures |r| == |idx| + 1 && r[0] == 0
    ensures forall k :: 0 <= k < |idx| ==> r[k + 1] == idx[k]
    ensures forall i :: i in idx ==> i in r
    ensures Increasing(idx) ==> Increasing(r)
  {
    [0] + idx
  }

  /** The filter distributes over concatenation, so it works record by record
      and never reorders. */
  lemma {:induction false} RemoveMatchingAppend(a: seq<Book>, b: seq<Book>, id: int)
    ensures RemoveMatching(a + b, id) == RemoveMatching(a, id) + RemoveMatching(b, id)
  {
    if |a| == 0 {
      assert a + b == b;
    } else {
      assert (a + b)[1..] == a[1..] + b;
      RemoveMatchingAppend(a[1..], b, id);
    }
  }

  /** Deleting an id after updating it removes the same records as deleting
      it straight away: the update never changes which records carry `id`. */
  lemma {:induction false} RemoveAfterUpdate(books: seq<Book>, id: int, name: string, author: string, updated: Option<Book>)
    ensures RemoveMatching(UpdateMatching(books, id, name, author, updated).0, id) == RemoveMatching(books, id)
  {
    if |books| != 0 {
      var next := if books[0].id == id then Some(Rename(books[0], name, author)) else updated;
      var u := UpdateMatching(books, id, name, author, updated).0;
      assert u[1..] == UpdateMatching(books[1..], id, name, author, next).0;
      RemoveAfterUpdate(books[1..], id, name, author, next);
    }
  }

  /** Updating twice with the same fields saves the same sequence as
      updating once. */
  lemma UpdateMatchingIdempotent(books: seq<Book>, id: int, name: string, author: string)
    ensures var once := UpdateMatching(books, id, name, author, None).0;
            UpdateMatching(once, id, name, author, None).0 == once
  {
  }

  /** Filtering twice by the same id removes nothing more. */
  lemma RemoveMatchingIdempotent(books: seq<Book>, id: int)
    ensures RemoveMatching(RemoveMatching(books, id), id) == RemoveMatching(books, id)
  {
    RemoveMatchingMembers(books, id);
    RemoveMatchingAbsent(RemoveMatching(books, id), id);
  }

  /** Filtering out an id no record carries keeps the sequence as it is. */
  lemma {:induction false} RemoveMatchingAbsent(books: seq<Book>, id: int)
    requires !HasId(books, id)
    ensures RemoveMatching(books, id) == books
  {
    if |books| != 0 {
      assert books[0].id != id;
      RemoveMatchingAbsent(books[1..], id);
      assert books == [books[0]] + books[1..];
    }
  }
}
