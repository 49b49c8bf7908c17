/**
 * The catalog manager (app/admin/catalog/page.tsx): the book list it loads,
 * the publish toggle, deletion and the search box. Database calls arrive as
 * outcomes; `confirm` is a boolean input. Its role guard and fetch condition
 * are `RouteGuards.CatalogGuard` and `RouteGuards.CatalogShouldFetch`.
 */
module CatalogAdmin {
  import opened Wrappers
  import opened Strings
  import opened Seqs

  /** A `books` row as the list shows it. */
  datatype Book = Book(
    id: string, title: string, subtitle: Option<string>, author: string,
    year: int, category: string, coverUrl: Option<string>,
    status: Option<string>, price: Option<real>, createdAt: Option<string>)

  /** togglePublish's new status: published becomes draft, anything else,
      null included, becomes published. */
  function ToggledStatus(current: Option<string>): (s: string)
    ensures s == "draft" <==> current == Some("published")
    ensures s == "published" <==> current != Some("published")
  {
    if current == Some("published") then "draft" else "published"
  }

  /** Toggling twice restores a published or draft book; any other status
      settles on draft. */
  lemma ToggleTwice(current: Option<string>)
    ensures current in {Some("published"), Some("draft")} ==> ToggledStatus(Some(ToggledStatus(current))) == current.value
    ensures current !in {Some("published"), Some("draft")} ==> ToggledStatus(Some(ToggledStatus(current))) == "draft"
  {
  }

  /** The local update after a successful toggle: every book with that id
      gets the new status; nothing else changes. */
  function WithStatus(books: seq<Book>, id: string, status: string): (r: seq<Book>)
    ensures |r| == |books|
    ensures forall k :: 0 <= k < |books| && books[k].id == id ==> r[k] == books[k].(status := Some(status))
    ensures forall k :: 0 <= k < |books| && books[k].id != id ==> r[k] == books[k]
  {
    if books == [] then []
    else [if books[0].id == id then books[0].(status := Some(status)) else books[0]]
         + WithStatus(books[1..], id, status)
  }

  /** The local update after a successful delete. */
  function WithoutId(books: seq<Book>, id: string): (r: seq<Book>)
    ensures |r| <= |books|
    ensures forall k :: 0 <= k < |r| ==> r[k].id != id && r[k] in books
    ensures forall k :: 0 <= k < |books| && books[k].id != id ==> books[k] in r
  {
    Filter(books, (b: Book) => b.id != id)
  }

  /** Deleting an id that is not listed leaves the list as it was, and the
      deletion works list-segment by list-segment, so the order of the
      remaining books is kept. */
  lemma WithoutIdKeepsOrder(a: seq<Book>, b: seq<Book>, id: string)
    ensures WithoutId(a + b, id) == WithoutId(a, id) + WithoutId(b, id)
    ensures (forall k :: 0 <= k < |a| ==> a[k].id != id) ==> WithoutId(a, id) == a
  {
    FilterAppend(a, b, (x: Book) => x.id != id);
    if forall k :: 0 <= k < |a| ==> a[k].id != id {
      FilterKeepsAll(a, (x: Book) => x.id != id);
    }
  }

  /** A book matches when its lower-cased title or author contains the
      lower-cased term. */
  predicate MatchesSearch(b: Book, term: string) {
    Contains(ToLower(b.title), ToLower(term)) || Contains(ToLower(b.author), ToLower(term))
  }

  /** filteredBooks. */
  function FilteredBooks(books: seq<Book>, term: string): (r: seq<Book>)
    ensures |r| <= |books|
    ensures forall k :: 0 <= k < |r| ==> r[k] in books && MatchesSearch(r[k], term)
    ensures forall k :: 0 <= k < |books| && MatchesSearch(books[k], term) ==> books[k] in r
  {
    Filter(books, (b: Book) => MatchesSearch(b, term))
  }

  /** An empty search box shows every book, in order. */
  lemma EmptySearchKeepsAll(books: seq<Book>)
    ensures FilteredBooks(books, "") == books
  {
    forall k | 0 <= k < |books|
      ensures MatchesSearch(books[k], "")
    {
      ContainsEmpty(ToLower(books[k].title));
    }
    FilterKeepsAll(books, (b: Book) => MatchesSearch(b, ""));
  }

  /** The search ignores the case of the term. */
  lemma SearchIgnoresTermCase(books: seq<Book>, term: string)
    ensures FilteredBooks(books, ToLower(term)) == FilteredBooks(books, term)
  {
    ToLowerIdempotent(term);
    FilterAgree(books, (b: Book) => MatchesSearch(b, ToLower(term)), (b: Book) => MatchesSearch(b, term));
  }

  /** A title that contains the term verbatim is always found. */
  lemma TitleContainingTermIsFound(books: seq<Book>, term: string, k: nat, at: nat)
    requires k < |books|
    requires at + |term| <= |books[k].title| && books[k].title[at..at + |term|] == term
    ensures books[k] in FilteredBooks(books, term)
  {
    var t := ToLower(books[k].title);
    assert t[at..at + |term|] == ToLower(term);
    ContainsAt(t, ToLower(term), at);
  }

  /** The outcome of the books query. */
  datatype FetchOutcome = Rows(data: Option<seq<Book>>) | QueryError(message: string) | FetchThrew

  /** The outcome of an update or delete call. */
  datatype WriteOutcome = WriteOk | WriteError(message: string) | WriteThrew

  class CatalogPage {
    var books: seq<Book>
    var isLoading: bool
    var error: Option<string>

    constructor ()
      ensures books == [] && isLoading && error == None
    {
      books := [];
      isLoading := true;
      error := None;
    }

    /** fetchBooks: a query error is reported with its message, a throw with
        a fixed message; rows replace the list (null rows give an empty
        list); loading always ends. */
    method FetchBooks(outcome: FetchOutcome)
      modifies this
      ensures !isLoading
      ensures outcome.Rows? ==> books == outcome.data.GetOr([]) && error == old(error)
      ensures outcome.QueryError? ==>
                books == old(books) && error == Some("Error al cargar los libros: " + outcome.message)
      ensures outcome.FetchThrew? ==>
                books == old(books) && error == Some("Error inesperado al cargar los libros")
    {
      match outcome {
        case Rows(data) =>
          books := data.GetOr([]);
        case QueryError(message) =>
          error := Some("Error al cargar los libros: " + message);
        case FetchThrew =>
          error := Some("Error inesperado al cargar los libros");
      }
      isLoading := false;
    }

    /** togglePublish: the new status is computed from the status the row was
        rendered with; only a successful update touches the list. Returns
        the alert shown, if any. */
    method TogglePublish(bookId: string, currentStatus: Option<string>, outcome: WriteOutcome)
      returns (alert: Option<string>)
      modifies this
      ensures outcome.WriteOk? ==> books == WithStatus(old(books), bookId, ToggledStatus(currentStatus))
      ensures !outcome.WriteOk? ==> books == old(books)
      ensures alert.None? <==> outcome.WriteOk?
      ensures outcome.WriteError? ==> alert == Some("Error al cambiar estado: " + outcome.message)
      ensures outcome.WriteThrew? ==> alert == Some("Error al cambiar el estado del libro")
      ensures isLoading == old(isLoading) && error == old(error)
    {
      var newStatus := ToggledStatus(currentStatus);
      match outcome {
        case WriteOk =>
          books := WithStatus(books, bookId, newStatus);
          alert := None;
        case WriteError(message) =>
          alert := Some("Error al cambiar estado: " + message);
        case WriteThrew =>
          alert := Some("Error al cambiar el estado del libro");
      }
    }

    /** handleDelete: a declined confirmation does nothing at all; otherwise
        only a successful delete removes the book from the list. */
    method HandleDelete(bookId: string, confirmed: bool, outcome: WriteOutcome)
      returns (alert: Option<string>)
      modifies this
      ensures confirmed && outcome.WriteOk? ==> books == WithoutId(old(books), bookId)
      ensures !(confirmed && outcome.WriteOk?) ==> books == old(books)
      ensures alert.Some? <==> confirmed && !outcome.WriteOk?
      ensures confirmed && outcome.WriteError? ==> alert == Some("Error al eliminar: " + outcome.message)
      ensures confirmed && outcome.WriteThrew? ==> alert == Some("Error al eliminar el libro")
      ensures isLoading == old(isLoading) && error == old(error)
    {
      alert := None;
      if !confirmed {
        return;
      }
      match outcome {
        case WriteOk =>
          books := WithoutId(books, bookId);
        case WriteError(message) =>
          alert := Some("Error al eliminar: " + message);
        case WriteThrew =>
          alert := Some("Error al eliminar el libro");
      }
    }
  }
}
