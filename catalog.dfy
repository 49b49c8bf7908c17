/**
 * The home page's catalog section (components/Catalog.tsx): up to six
 * published books from the database as cards, or the built-in catalog
 * (constants.ts) when none came back, with a heading and a count line.
 */
module Catalog {
  import opened Wrappers
  import opened Strings
  import Login

  /** A `books` row as selected by the section. */
  datatype DbBook = DbBook(id: string, title: string, author: string, category: string,
                           coverUrl: Option<string>, status: string)

  /** A card's key: database ids are text, the built-in catalog's are numbers. */
  datatype BookId = DbId(text: string) | StaticId(number: int)

  /** What a card shows. */
  datatype CardBook = CardBook(id: BookId, title: string, author: string, genre: string, coverUrl: string)

  const PlaceholderCover := "/placeholder-cover.jpg"

  /** CATALOG, the six opening titles (constants.ts); `year` is not shown on
      a card and is left out. */
  const BuiltIn: seq<CardBook> := [
    CardBook(StaticId(1), "El Silencio de los Algoritmos", "Elena Varela", "Ensayo Digital",
             "https://picsum.photos/seed/book1/600/900"),
    CardBook(StaticId(2), "Cartografía del Olvido", "Javier M. Sola", "Poesía",
             "https://picsum.photos/seed/book2/600/900"),
    CardBook(StaticId(3), "Frecuencia Modular", "Anaís Nin (Edición Crítica)", "Clásicos Revisitados",
             "https://picsum.photos/seed/book3/600/900"),
    CardBook(StaticId(4), "Arquitecturas Invisibles", "Dr. L. K. Chen", "Ciencia y Sociedad",
             "https://picsum.photos/seed/book4/600/900"),
    CardBook(StaticId(5), "Bajo el Cemento", "Sofía R. Costa", "Narrativa Contemporánea",
             "https://picsum.photos/seed/book5/600/900"),
    CardBook(StaticId(6), "La Ética del Glitch", "Markus O'Neil", "Tecnología",
             "https://picsum.photos/seed/book6/600/900")
  ]

  /** The built-in catalog has six books with distinct ids 1 to 6, each
      with a cover. */
  lemma BuiltInShape()
    ensures |BuiltIn| == 6
    ensures forall i :: 0 <= i < 6 ==> BuiltIn[i].id == StaticId(i + 1) && BuiltIn[i].coverUrl != ""
  {
  }

  /** One database row as a card. */
  function CardOf(b: DbBook): (c: CardBook)
    ensures c.id == DbId(b.id) && c.title == b.title && c.author == b.author && c.genre == b.category
    ensures c.coverUrl != ""
    ensures b.coverUrl.Some? && b.coverUrl.value != "" ==> c.coverUrl == b.coverUrl.value
    ensures b.coverUrl.None? || b.coverUrl == Some("") ==> c.coverUrl == PlaceholderCover
  {
    CardBook(DbId(b.id), b.title, b.author, b.category, Login.OrElse(b.coverUrl, PlaceholderCover))
  }

  /** `dbBooks.map(...)`. */
  function Cards(books: seq<DbBook>): (cards: seq<CardBook>)
    ensures |cards| == |books|
    ensures forall k :: 0 <= k < |cards| ==> cards[k].coverUrl != ""
  {
    if books == [] then [] else [CardOf(books[0])] + Cards(books[1..])
  }

  /** The cards follow the rows one for one, in order. */
  lemma {:induction false} CardsFollowRows(books: seq<DbBook>)
    ensures |Cards(books)| == |books|
    ensures forall i :: 0 <= i < |books| ==> Cards(books)[i] == CardOf(books[i])
  {
    if books != [] {
      CardsFollowRows(books[1..]);
      assert forall i :: 1 <= i < |books| ==> books[1..][i - 1] == books[i];
    }
  }

  /** displayBooks: the database cards when there is at least one row,
      else the built-in catalog. */
  function DisplayBooks(dbBooks: seq<DbBook>): (cards: seq<CardBook>)
    ensures |cards| > 0
    ensures |dbBooks| > 0 ==> |cards| == |dbBooks|
    ensures forall k :: 0 <= k < |cards| ==> cards[k].coverUrl != ""
  {
    if |dbBooks| > 0 then Cards(dbBooks) else BuiltIn
  }

  /** The database is shown exactly when a row was fetched; then every card
      is one of them, otherwise every card is built in. */
  lemma DisplayFallback(dbBooks: seq<DbBook>)
    ensures |dbBooks| > 0 ==>
              |DisplayBooks(dbBooks)| == |dbBooks| && forall c :: c in DisplayBooks(dbBooks) ==> c.id.DbId?
    ensures |dbBooks| == 0 ==>
              DisplayBooks(dbBooks) == BuiltIn && forall c :: c in DisplayBooks(dbBooks) ==> c.id.StaticId?
  {
    CardsFollowRows(dbBooks);
    if |dbBooks| > 0 {
      forall c | c in DisplayBooks(dbBooks)
        ensures c.id.DbId?
      {
        var i :| 0 <= i < |dbBooks| && Cards(dbBooks)[i] == c;
      }
    }
  }

  /** The section heading. */
  function Heading(count: nat): (h: string)
    ensures count > 0 ==> h == "Nuestro catálogo"
    ensures count == 0 ==> h == "Nuestro catálogo inicial"
  {
    if count > 0 then "Nuestro catálogo" else "Nuestro catálogo inicial"
  }

  const Singular := "libro publicado"
  const Plural := "libros publicados"
  const InPress := " en Ribla Editores."
  const OpeningTitles := "Seis libros que inauguran Ribla Editores."

  /** The count line under the heading. */
  function CountLine(count: nat): (line: string)
    ensures line == OpeningTitles <==> count == 0
    ensures count > 0 ==> |line| > 0 && '0' <= line[0] <= '9' && EndsWith(line, InPress)
  {
    if count > 0 then
      var digits := NatToString(count);
      var line := digits + " " + (if count == 1 then Singular else Plural) + InPress;
      assert line[0] == digits[0];
      assert line[|line| - |InPress|..] == InPress;
      line
    else OpeningTitles
  }

  /** The singular appears for exactly one book, the plural for more; with
      none the line speaks of the six built-in titles. */
  lemma CountLineNumber(count: nat)
    ensures count == 1 ==> CountLine(count) == "1 " + Singular + InPress
    ensures count > 1 ==> CountLine(count) == NatToString(count) + " " + Plural + InPress
    ensures count == 0 ==> CountLine(count) == OpeningTitles
  {
    if count == 1 {
      assert NatToString(1) == "1";
      assert "1" + " " == "1 ";
    }
  }

  /** The query's answer: rows, an error, or a throw. */
  datatype BooksResponse = Rows(rows: seq<DbBook>) | QueryError | Threw

  /** The section's state. */
  class CatalogSection {
    var dbBooks: seq<DbBook>
    var isLoading: bool

    constructor ()
      ensures dbBooks == [] && isLoading
    {
      dbBooks := [];
      isLoading := true;
    }

    /** fetchBooks with the answer supplied: rows replace the list; an
        error or a throw leave it as it was. */
    method FetchBooks(response: BooksResponse)
      modifies this`dbBooks, this`isLoading
      ensures !isLoading
      ensures response.Rows? ==> dbBooks == response.rows
      ensures !response.Rows? ==> dbBooks == old(dbBooks)
    {
      if response.Rows? {
        dbBooks := response.rows;
      }
      isLoading := false;
    }
  }

  /** On a fresh section a failed query leaves the built-in catalog on screen. */
  lemma FailedFetchShowsBuiltIn()
    ensures DisplayBooks([]) == BuiltIn && Heading(0) == "Nuestro catálogo inicial"
  {
  }
}
