/**
 * The in-memory book store of the book library REST API: a list of records
 * `{id, title, author}` and the five handlers that list, look up, create,
 * update and delete them. HTTP routing and JSON (de)serialisation are not
 * modelled; a parsed request body is a `Payload`, a response is a `Reply`.
 */
module BookStore {
  import opened Wrappers

  /** One record of the store. */
  datatype Book = Book(id: int, title: string, author: string)

  /** A parsed JSON object body: its keys and their values. */
  type Payload = map<string, string>

  /** `data.get(key, default)`: the value under `key`, or `default` when the key is missing. */
  function Get(data: Payload, key: string, default: string): string {
    if key in data then data[key] else default
  }

  /** The HTTP status codes the handlers return. */
  datatype Status = Ok | Created | BadRequest | NotFound {
    function Code(): int {
      match this
      case Ok => 200
      case Created => 201
      case BadRequest => 400
      case NotFound => 404
    }
  }

  /** The JSON body of a response. */
  datatype Body =
    | OneBook(book: Book)
    | AllBooks(books: seq<Book>)
    | Error(message: string)
    | Deleted(deletedId: int)   // the message "Book <id> deleted"

  datatype Reply = Reply(status: Status, body: Body)

  /** The two records the store starts with. */
  function Seed(): seq<Book> {
    [ Book(1, "1984", "George Orwell"),
      Book(2, "To Kill a Mockingbird", "Harper Lee") ]
  }

  /**
   * Ids are positive and strictly increase in list order; in particular no two
   * records share an id.
   */
  ghost predicate IdsIncreasing(books: seq<Book>) {
    && (forall i :: 0 <= i < |books| ==> 1 <= books[i].id)
    && (forall i, j :: 0 <= i < j < |books| ==> books[i].id < books[j].id)
  }

  /** No record of `books` has id `id`. */
  ghost predicate Absent(books: seq<Book>, id: int) {
    forall j :: 0 <= j < |books| ==> books[j].id != id
  }

  /** The linear scan that takes the first record with the given id. */
  function Find(books: seq<Book>, id: int): (r: Option<nat>)
    ensures r.Some? ==> r.value < |books| && books[r.value].id == id
    ensures r.Some? ==> forall j :: 0 <= j < r.value ==> books[j].id != id
    ensures r.None? <==> Absent(books, id)
  {
    if |books| == 0 then None
    else if books[0].id == id then Some(0)
    else
      match Find(books[1..], id)
      case None => None
      case Some(i) => Some(i + 1)
  }

  /**
   * The id a new record gets: one more than the id of the LAST record, or 1.
   * With increasing ids it is positive and larger than every id in the list.
   */
  function NextId(books: seq<Book>): (r: int)
    ensures IdsIncreasing(books) ==> 1 <= r
    ensures IdsIncreasing(books) ==> forall j :: 0 <= j < |books| ==> books[j].id < r
  {
    if |books| == 0 then 1 else books[|books| - 1].id + 1
  }

  /**
   * A request body is accepted for creation unless it is missing or falsy (an
   * empty object) or lacks "title" or "author". The falsy test adds nothing:
   * the body is accepted exactly when it is present and has both keys.
   */
  function Complete(data: Option<Payload>): (ok: bool)
    ensures ok <==> data.Some? && "title" in data.value && "author" in data.value
  {
    !(data.None? || |data.value| == 0 || "title" !in data.value || "author" !in data.value)
  }

  /** The list with every record of id `id` filtered out. */
  function Without(books: seq<Book>, id: int): (r: seq<Book>)
    ensures Absent(r, id)
    ensures |r| <= |books|
  {
    if |books| == 0 then []
    else if books[0].id == id then Without(books[1..], id)
    else [books[0]] + Without(books[1..], id)
  }

  // ---------------------------------------------------------------------
  // Lookup

  /** In a store with increasing ids, the scan finds the one record with that id. */
  lemma FindUnique(books: seq<Book>, i: nat)
    requires IdsIncreasing(books)
    requires i < |books|
    ensures Find(books, books[i].id) == Some(i)
  {
  }

  // ---------------------------------------------------------------------
  // Creation

  /** Appending a record with the next id keeps ids increasing. */
  lemma AppendKeepsIncreasing(books: seq<Book>, title: string, author: string)
    requires IdsIncreasing(books)
    ensures IdsIncreasing(books + [Book(NextId(books), title, author)])
  {
  }

  /** Creating then getting a record returns what was created. */
  lemma {:induction false} AddThenFind(books: seq<Book>, title: string, author: string)
    requires IdsIncreasing(books)
    ensures var added := books + [Book(NextId(books), title, author)];
      Find(added, NextId(books)) == Some(|books|) &&
      added[|books|] == Book(NextId(books), title, author)
  {
    AppendKeepsIncreasing(books, title, author);
    FindUnique(books + [Book(NextId(books), title, author)], |books|);
  }

  // ---------------------------------------------------------------------
  // Deletion

  /** Filtering distributes over concatenation, so the order of survivors is kept. */
  lemma {:induction false} WithoutConcat(s: seq<Book>, t: seq<Book>, id: int)
    ensures Without(s + t, id) == Without(s, id) + Without(t, id)
  {
    if |s| == 0 {
      assert s + t == t;
    } else {
      assert (s + t)[0] == s[0];
      assert (s + t)[1..] == s[1..] + t;
      WithoutConcat(s[1..], t, id);
    }
  }

  /** Filtering an id that no record has changes nothing. */
  lemma {:induction false} WithoutAbsent(books: seq<Book>, id: int)
    requires Absent(books, id)
    ensures Without(books, id) == books
  {
    if |books| > 0 {
      WithoutAbsent(books[1..], id);
      assert books == [books[0]] + books[1..];
    }
  }

  /** A record survives the filter exactly when it was in the list with another id. */
  lemma {:induction false} WithoutMembers(books: seq<Book>, id: int)
    ensures forall b :: b in Without(books, id) <==> b in books && b.id != id
  {
    if |books| > 0 {
      WithoutMembers(books[1..], id);
      assert books == [books[0]] + books[1..];
    }
  }

  /** After deleting an id, the scan no longer finds it. */
  lemma DeleteThenFind(books: seq<Book>, id: int)
    ensures Find(Without(books, id), id) == None
  {
  }

  /** Deleting the same id twice leaves the same list as deleting it once. */
  lemma {:induction false} WithoutIdempotent(books: seq<Book>, id: int)
    ensures Without(Without(books, id), id) == Without(books, id)
  {
    DeleteThenFind(books, id);
    WithoutAbsent(Without(books, id), id);
  }

  /** Every id in `books` exceeds `bound`. */
  ghost predicate Above(books: seq<Book>, bound: int) {
    forall j :: 0 <= j < |books| ==> bound < books[j].id
  }

  /** Filtering keeps a lower bound on the ids. */
  lemma {:induction false} WithoutKeepsAbove(books: seq<Book>, id: int, bound: int)
    requires Above(books, bound)
    ensures Above(Without(books, id), bound)
  {
    if |books| > 0 {
      WithoutKeepsAbove(books[1..], id, bound);
    }
  }

  /** Filtering keeps ids positive and increasing, since it keeps a subsequence. */
  lemma {:induction false} WithoutKeepsIncreasing(books: seq<Book>, id: int)
    requires IdsIncreasing(books)
    ensures IdsIncreasing(Without(books, id))
  {
    if |books| > 0 {
      var rest := books[1..];
      WithoutKeepsIncreasing(rest, id);
      assert Above(rest, books[0].id);
      WithoutKeepsAbove(rest, id, books[0].id);
    }
  }

  /** Filtering out the id of one record, when no other record has it, removes just that record. */
  lemma WithoutSplit(before: seq<Book>, found: Book, after: seq<Book>)
    requires Absent(before, found.id) && Absent(after, found.id)
    ensures Without(before + [found] + after, found.id) == before + after
  {
    var id := found.id;
    assert Without([found], id) == [] by {
      assert [found][0] == found && [found][1..] == [];
    }
    calc {
      Without(before + [found] + after, id);
      { WithoutConcat(before + [found], after, id); }
      Without(before + [found], id) + Without(after, id);
      { WithoutConcat(before, [found], id); }
      Without(before, id) + Without([found], id) + Without(after, id);
      { WithoutAbsent(before, id); WithoutAbsent(after, id); }
      before + [] + after;
    }
    assert before + [] == before;
  }

  /** With increasing ids, no record after position i has the id of record i. */
  lemma AbsentAfter(books: seq<Book>, i: nat)
    requires IdsIncreasing(books)
    requires i < |books|
    ensures Absent(books[i + 1..], books[i].id)
  {
    var after := books[i + 1..];
    forall j | 0 <= j < |after| ensures after[j].id != books[i].id {
      assert after[j] == books[i + 1 + j];
    }
  }

  /** With increasing ids, deleting a present id removes exactly the one record found. */
  lemma {:induction false} WithoutRemovesFound(books: seq<Book>, id: int)
    requires IdsIncreasing(books)
    requires Find(books, id).Some?
    ensures var i := Find(books, id).value;
      Without(books, id) == books[..i] + books[i + 1..]
  {
    var i := Find(books, id).value;
    AbsentAfter(books, i);
    assert books == books[..i] + [books[i]] + books[i + 1..];
    WithoutSplit(books[..i], books[i], books[i + 1..]);
  }

  /**
   * Because the next id comes from the last record rather than from a counter,
   * deleting the last record lets its id, or a smaller one, be issued again.
   */
  lemma {:induction false} DeleteLastAllowsReuse(books: seq<Book>)
    requires IdsIncreasing(books)
    requires |books| > 0
    ensures var last := books[|books| - 1];
      Without(books, last.id) == books[..|books| - 1] &&
      NextId(Without(books, last.id)) <= last.id
  {
    var n := |books|;
    FindUnique(books, n - 1);
    WithoutRemovesFound(books, books[n - 1].id);
    assert books[n..] == [];
    assert books[..n - 1] + [] == books[..n - 1];
  }

  /** On the seed data: delete book 2, then the next book created is again book 2. */
  lemma SeedReissuesDeletedId()
    ensures IdsIncreasing(Seed())
    ensures NextId(Without(Seed(), 2)) == 2
  {
    DeleteLastAllowsReuse(Seed());
  }

  // ---------------------------------------------------------------------
  // Update

  /** Overwriting the fields of one record, keeping its id, keeps ids increasing. */
  lemma UpdateKeepsIncreasing(books: seq<Book>, i: nat, title: string, author: string)
    requires IdsIncreasing(books)
    requires i < |books|
    ensures IdsIncreasing(books[i := Book(books[i].id, title, author)])
  {
  }

  // ---------------------------------------------------------------------
  // The store

  /** The module-level list of the application and the handlers that use it. */
  class Store {
    var books: seq<Book>

    ghost predicate Valid()
      reads this
    {
      IdsIncreasing(books)
    }

    constructor ()
      ensures books == Seed()
      ensures Valid()
    {
      books := Seed();
    }

    /** GET /books: the whole list, in order. */
    function GetBooks(): (r: Reply)
      reads this
      ensures r.status == Ok && r.status.Code() == 200
      ensures r.body.AllBooks? && r.body.books == books
    {
      Reply(Ok, AllBooks(books))
    }

    /** GET /books/<id>: the first record with that id, or 404. */
    function GetBook(id: int): (r: Reply)
      reads this
      ensures r.status == Ok || r.status == NotFound
      ensures r.status == NotFound <==> Absent(books, id)
      ensures r.status == NotFound ==> r.body == Error("Book not found")
      ensures r.status == Ok ==>
        && r.body.OneBook?
        && r.body.book.id == id
        && exists i :: 0 <= i < |books| && books[i] == r.body.book &&
             forall j :: 0 <= j < i ==> books[j].id != id
    {
      match Find(books, id)
      case None => Reply(NotFound, Error("Book not found"))
      case Some(i) => Reply(Ok, OneBook(books[i]))
    }

    /** POST /books: validate the body, then append a record with the next id. */
    method AddBook(data: Option<Payload>) returns (reply: Reply)
      requires Valid()
      modifies this
      ensures Valid()
      ensures !Complete(data) ==>
        reply == Reply(BadRequest, Error("Invalid input")) && books == old(books)
      ensures Complete(data) ==>
        var added := Book(NextId(old(books)), data.value["title"], data.value["author"]);
        books == old(books) + [added] && reply == Reply(Created, OneBook(added))
    {
      if !Complete(data) {
        return Reply(BadRequest, Error("Invalid input"));
      }
      var added := Book(NextId(books), data.value["title"], data.value["author"]);
      AppendKeepsIncreasing(books, added.title, added.author);
      books := books + [added];
      reply := Reply(Created, OneBook(added));
    }

    /**
     * PUT /books/<id>: overwrite the supplied fields of the record found, keep its id.
     * The lookup comes first, so a missing body still gets 404 for an unknown id;
     * for a known id a missing body raises, which the precondition rules out.
     */
    method UpdateBook(id: int, data: Option<Payload>) returns (reply: Reply)
      requires Valid()
      requires data.Some? || Find(books, id).None?
      modifies this
      ensures Valid()
      ensures Find(old(books), id).None? ==>
        reply == Reply(NotFound, Error("Book not found")) && books == old(books)
      ensures Find(old(books), id).Some? ==>
        var i := Find(old(books), id).value;
        var was := old(books)[i];
        var now := Book(was.id, Get(data.value, "title", was.title), Get(data.value, "author", was.author));
        books == old(books)[i := now] && reply == Reply(Ok, OneBook(now))
    {
      match Find(books, id)
      case None =>
        reply := Reply(NotFound, Error("Book not found"));
      case Some(i) =>
        var was := books[i];
        var now := Book(was.id, Get(data.value, "title", was.title), Get(data.value, "author", was.author));
        UpdateKeepsIncreasing(books, i, now.title, now.author);
        books := books[i := now];
        reply := Reply(Ok, OneBook(now));
    }

    /** DELETE /books/<id>: filter out every record with that id; always 200. */
    method DeleteBook(id: int) returns (reply: Reply)
      requires Valid()
      modifies this
      ensures Valid()
      ensures books == Without(old(books), id)
      ensures reply == Reply(Ok, Deleted(id)) && reply.status.Code() == 200
    {
      WithoutKeepsIncreasing(books, id);
      books := Without(books, id);
      reply := Reply(Ok, Deleted(id));
    }
  }
}
