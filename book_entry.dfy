/**
 * The logic both new-book forms share (app/admin/books/new/page.tsx and its
 * earlier variant page-Ricardo-PC-Test.tsx): the required-field check and
 * the errors dictionary it fills, the cover and PDF acceptance tests, the
 * upload file extension and the record sent to the `books` table.
 */
module BookEntry {
  import opened Wrappers
  import opened Strings
  import opened Seqs

  /** A file picked in a file input. */
  datatype SelectedFile = SelectedFile(name: string, mimeType: string, size: nat)

  const CoverMaxBytes: nat := 5 * 1024 * 1024
  const PdfMaxBytes: nat := 50 * 1024 * 1024

  /** The cover test: an `image/` type of at most 5 MiB (the limit itself
      passes; only a larger file is refused). */
  predicate AcceptsCover(f: SelectedFile)
    ensures AcceptsCover(f) ==> f.mimeType != "application/pdf" && f.size <= CoverMaxBytes
  {
    ImageTypeIsNotPdf(f.mimeType);
    StartsWith(f.mimeType, "image/") && f.size <= CoverMaxBytes
  }

  /** The PDF test: exactly `application/pdf`, at most 50 MiB. */
  predicate AcceptsPdf(f: SelectedFile)
    ensures AcceptsPdf(f) ==> !StartsWith(f.mimeType, "image/") && f.size <= PdfMaxBytes
  {
    ImageTypeIsNotPdf(f.mimeType);
    f.mimeType == "application/pdf" && f.size <= PdfMaxBytes
  }

  /** An `image/` type is never the PDF type: the two tests are disjoint. */
  lemma ImageTypeIsNotPdf(t: string)
    ensures StartsWith(t, "image/") ==> t != "application/pdf"
  {
    if StartsWith(t, "image/") {
      assert t[0] == t[..6][0] == 'i';
    }
  }

  /** The limits are inclusive: a file of exactly the limit passes, one byte
      more does not. */
  lemma LimitsAreInclusive(name: string)
    ensures AcceptsCover(SelectedFile(name, "image/png", 5242880))
    ensures !AcceptsCover(SelectedFile(name, "image/png", 5242881))
    ensures AcceptsPdf(SelectedFile(name, "application/pdf", 52428800))
    ensures !AcceptsPdf(SelectedFile(name, "application/pdf", 52428801))
  {
  }

  /** The earlier form's messages for a refused cover: the type is checked
      before the size. */
  function CoverRejection(f: SelectedFile): (e: Option<string>)
    ensures e.None? <==> AcceptsCover(f)
    ensures !StartsWith(f.mimeType, "image/") ==> e == Some("Solo se permiten imágenes")
    ensures StartsWith(f.mimeType, "image/") && f.size > CoverMaxBytes ==> e == Some("La imagen no puede superar 5MB")
  {
    if !StartsWith(f.mimeType, "image/") then Some("Solo se permiten imágenes")
    else if f.size > CoverMaxBytes then Some("La imagen no puede superar 5MB")
    else None
  }

  /** The earlier form's messages for a refused PDF. */
  function PdfRejection(f: SelectedFile): (e: Option<string>)
    ensures e.None? <==> AcceptsPdf(f)
    ensures f.mimeType != "application/pdf" ==> e == Some("Solo se permiten archivos PDF")
    ensures f.mimeType == "application/pdf" && f.size > PdfMaxBytes ==> e == Some("El PDF no puede superar 50MB")
  {
    if f.mimeType != "application/pdf" then Some("Solo se permiten archivos PDF")
    else if f.size > PdfMaxBytes then Some("El PDF no puede superar 50MB")
    else None
  }

  /** The text fields of the form, as typed. */
  datatype BookFields = BookFields(
    title: string, subtitle: string, author: string, year: string, isbn: string,
    pages: string, category: string, description: string, price: string, isDigitalOnly: bool)

  /** The keys the form's errors dictionary uses. */
  datatype ErrorKey = Title | Author | Year | Category | Cover | Pdf | Form

  /** The key as written in the dictionary. */
  function KeyName(k: ErrorKey): string {
    match k
    case Title => "title"
    case Author => "author"
    case Year => "year"
    case Category => "category"
    case Cover => "cover"
    case Pdf => "pdf"
    case Form => "form"
  }

  /** The errors dictionary, key to message. */
  type Errors = map<ErrorKey, string>

  const RequiredFields: set<ErrorKey> := {Title, Author, Year, Category, Cover}

  /** Whether the form lacks the required field `k`: title, author and year
      are judged after trimming, the category must be non-empty and a cover
      file must be chosen. */
  predicate Missing(f: BookFields, hasCover: bool, k: ErrorKey) {
    match k
    case Title => IsBlank(f.title)
    case Author => IsBlank(f.author)
    case Year => IsBlank(f.year)
    case Category => f.category == ""
    case Cover => !hasCover
    case _ => false
  }

  /** The message validateForm stores for a missing field. */
  function RequiredMessage(k: ErrorKey): string {
    match k
    case Title => "El título es requerido"
    case Author => "El autor es requerido"
    case Year => "El año es requerido"
    case Category => "Selecciona una categoría"
    case Cover => "La portada es requerida"
    case _ => ""
  }

  /** The entries validateForm has made once it has looked at `keys`. */
  function ErrorsAmong(f: BookFields, hasCover: bool, keys: set<ErrorKey>): map<ErrorKey, string> {
    map k | k in keys && Missing(f, hasCover, k) :: RequiredMessage(k)
  }

  /** validateForm's dictionary: an entry, with its message, for each
      missing required field. */
  function RequiredFieldErrors(f: BookFields, hasCover: bool): (errs: Errors)
    ensures errs.Keys <= RequiredFields
    ensures forall k :: k in errs <==> k in RequiredFields && Missing(f, hasCover, k)
  {
    ErrorsAmong(f, hasCover, RequiredFields)
  }

  /** One entry for each of the five required fields that is missing (text
      fields are judged after trimming; the category must be non-empty; a
      cover file must be chosen), each with its own message. */
  lemma RequiredFieldErrorsMeaning(f: BookFields, hasCover: bool)
    ensures var errs := RequiredFieldErrors(f, hasCover);
      && (Title in errs <==> IsBlank(f.title))
      && (Author in errs <==> IsBlank(f.author))
      && (Year in errs <==> IsBlank(f.year))
      && (Category in errs <==> f.category == "")
      && (Cover in errs <==> !hasCover)
      && (Title in errs ==> errs[Title] == "El título es requerido")
      && (Author in errs ==> errs[Author] == "El autor es requerido")
      && (Year in errs ==> errs[Year] == "El año es requerido")
      && (Category in errs ==> errs[Category] == "Selecciona una categoría")
      && (Cover in errs ==> errs[Cover] == "La portada es requerida")
  {
  }

  /** `Object.keys(newErrors).length === 0`. */
  predicate FormIsValid(f: BookFields, hasCover: bool) {
    |RequiredFieldErrors(f, hasCover).Keys| == 0
  }

  /** The five required fields are all present. */
  predicate RequiredPresent(f: BookFields, hasCover: bool) {
    !IsBlank(f.title) && !IsBlank(f.author) && !IsBlank(f.year) && f.category != "" && hasCover
  }

  /** The form is valid exactly when the title, author and year have
      non-space text, a category is chosen and a cover is present. */
  lemma ValidIffRequiredPresent(f: BookFields, hasCover: bool)
    ensures FormIsValid(f, hasCover) <==> RequiredPresent(f, hasCover)
  {
    var errs := RequiredFieldErrors(f, hasCover);
    if !FormIsValid(f, hasCover) {
      var k :| k in errs.Keys;
    }
  }

  /** An affiliate link as stored with the book. */
  datatype LinkValue = LinkValue(name: string, url: string)

  predicate HasUrl(l: LinkValue) { !IsBlank(l.url) }

  /** The links saved: those whose URL is not blank after trimming, in
      their original order. */
  function SavedLinks(links: seq<LinkValue>): (r: seq<LinkValue>)
    ensures |r| <= |links|
    ensures forall k :: 0 <= k < |r| ==> r[k] in links && !IsBlank(r[k].url)
    ensures forall k :: 0 <= k < |links| && !IsBlank(links[k].url) ==> links[k] in r
  {
    Filter(links, HasUrl)
  }

  /** Saving a list that grows at the end saves the old list's links followed
      by the new link if it has a URL: order is kept. */
  lemma SavedLinksAppend(links: seq<LinkValue>, l: LinkValue)
    ensures SavedLinks(links + [l]) == SavedLinks(links) + (if HasUrl(l) then [l] else [])
  {
    FilterAppend(links, [l], HasUrl);
    assert [l][1..] == [];
  }

  /** `name.split('.').pop()`: the text after the last `.`, or the whole
      name when it has none. */
  function FileExtension(name: string): (ext: string)
    ensures '.' !in ext
    ensures '.' !in name ==> ext == name
    ensures |ext| <= |name| && ext == name[|name| - |ext|..]
  {
    var ext := AfterLast(name, '.');
    if '.' !in name then
      AfterLastWithoutSeparator(name, '.');
      assert name[|name| - |name|..] == name;
      ext
    else ext
  }

  /** `s.trim() || null`. */
  function TrimmedOrNull(s: string): (r: Option<string>)
    ensures r.Some? ==> r.value != "" && |r.value| <= |s|
  {
    BlankIffTrimEmpty(s);
    if IsBlank(s) then None else Some(Trim(s))
  }

  /** `s.trim() || null`: null exactly for a blank text, otherwise the
      trimmed text, which is then never empty. */
  lemma TrimmedOrNullMeaning(s: string)
    ensures TrimmedOrNull(s).None? <==> IsBlank(s)
    ensures TrimmedOrNull(s).Some? ==> TrimmedOrNull(s).value == Trim(s) && TrimmedOrNull(s).value != ""
  {
    BlankIffTrimEmpty(s);
  }

  /** The row sent to `books.insert`. Numeric fields keep the text that
      `parseInt` / `parseFloat` would read; parsing is not modelled. */
  datatype BookRecord = BookRecord(
    title: string, subtitle: Option<string>, author: string, yearText: string,
    isbn: Option<string>, pagesText: Option<string>, category: string,
    description: Option<string>, priceText: Option<string>, isDigitalOnly: bool,
    coverUrl: string, pdfUrl: Option<string>, affiliateLinks: seq<LinkValue>,
    status: string, createdBy: string)

  /** The insert payload built from the form, the upload results and the
      signed-in user's id. */
  function BuildRecord(f: BookFields, links: seq<LinkValue>, coverUrl: string, pdfUrl: string, userId: string): (r: BookRecord)
    ensures r.status == "draft" && r.createdBy == userId
    ensures forall k :: 0 <= k < |r.affiliateLinks| ==> !IsBlank(r.affiliateLinks[k].url)
    ensures r.pdfUrl.Some? ==> r.pdfUrl.value != ""
  {
    BookRecord(
      Trim(f.title), TrimmedOrNull(f.subtitle), Trim(f.author), f.year,
      TrimmedOrNull(f.isbn), if f.pages != "" then Some(f.pages) else None, f.category,
      TrimmedOrNull(f.description), if f.price != "" then Some(f.price) else None, f.isDigitalOnly,
      coverUrl, if pdfUrl != "" then Some(pdfUrl) else None, SavedLinks(links),
      "draft", userId)
  }

  /** The inserted row: a draft owned by the signed-in user, title and
      author trimmed, optional texts null when blank and trimmed otherwise,
      pages and price null when their fields are empty, the PDF URL null
      when none was obtained, and only the links that have a URL. */
  lemma RecordNormalised(f: BookFields, links: seq<LinkValue>, coverUrl: string, pdfUrl: string, userId: string)
    ensures var r := BuildRecord(f, links, coverUrl, pdfUrl, userId);
      && r.status == "draft" && r.createdBy == userId
      && r.title == Trim(f.title) && r.author == Trim(f.author)
      && r.subtitle == TrimmedOrNull(f.subtitle) && r.isbn == TrimmedOrNull(f.isbn)
      && r.description == TrimmedOrNull(f.description)
      && (r.pagesText.None? <==> f.pages == "")
      && (r.priceText.None? <==> f.price == "")
      && (r.pdfUrl.None? <==> pdfUrl == "")
      && r.category == f.category && r.coverUrl == coverUrl && r.yearText == f.year
      && r.affiliateLinks == SavedLinks(links)
  {
  }
}
