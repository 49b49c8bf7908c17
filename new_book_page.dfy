/**
 * The new-book form: app/admin/books/new/page.tsx (`Current`) and its
 * earlier variant app/admin/books/new/page-Ricardo-PC-Test.tsx (`Earlier`).
 * Both validate the five required fields, upload the cover, then the PDF,
 * then insert a draft row, stopping at the first failure. They differ in
 * three places: the current page compresses the cover first (so its upload
 * extension comes from the compressed name) and announces success with an
 * alert; the earlier page checks files inline with messages and reports
 * every thrown error with one fixed message.
 */
module NewBookPage {
  import opened Wrappers
  import opened Strings
  import opened BookEntry
  import opened AffiliateLinks
  import ImageCompression

  datatype Variant = Current | Earlier

  /** compressBookCover: returns, or rejects with a message. */
  datatype Compression = Returned | Threw(message: string)

  /** A storage upload: the public (or signed) URL, an error object, or a throw. */
  datatype Upload = Uploaded(url: string) | UploadFailed(message: string) | UploadThrew(message: string)

  /** The `books.insert` call. */
  datatype Insert = Inserted | InsertFailed(message: string) | InsertThrew(message: string)

  /** What the submit does outside the form's own state, in order. */
  datatype Effect =
    | UploadCover(extension: string)
    | UploadPdf(extension: string)
    | InsertBook(record: BookRecord)
    | Alert(message: string)
    | Navigate(path: string)

  const SavedMessage := "¡Libro guardado correctamente!"
  const CatalogPath := "/admin?section=catalog"

  /** The `catch` block's message. */
  function CaughtMessage(variant: Variant, message: string): (m: string)
    ensures variant == Earlier ==> m == "Error inesperado al guardar el libro"
    ensures variant == Current && message != "" ==> m == "Error al guardar: " + message
    ensures variant == Current && message == "" ==> m == "Error al guardar: Error desconocido"
  {
    match variant
    case Current => "Error al guardar: " + (if message != "" then message else "Error desconocido")
    case Earlier => "Error inesperado al guardar el libro"
  }

  /** The extension of the uploaded cover: taken from the compressed file's
      name on the current page and from the chosen file's name before. */
  function CoverExtension(variant: Variant, file: SelectedFile): (ext: string)
    ensures variant == Earlier ==> ext == FileExtension(file.name)
    ensures variant == Current && file.size < ImageCompression.SkipBelowBytes ==> ext == FileExtension(file.name)
  {
    match variant
    case Current =>
      FileExtension(ImageCompression.CompressedCoverName(ImageCompression.ImageFile(file.name, file.mimeType, file.size)))
    case Earlier => FileExtension(file.name)
  }

  /** The extension of the cover upload, "" when no cover was chosen. */
  function CoverExt(variant: Variant, cover: Option<SelectedFile>): string {
    if cover.Some? then CoverExtension(variant, cover.value) else ""
  }

  /** The form state a submit leaves behind, and the effects it performed. */
  datatype Submission = Submission(errors: Errors, isSaving: bool, effects: seq<Effect>)

  /** A step that failed: one error, saving over. */
  function Failed(key: ErrorKey, message: string, effects: seq<Effect>): Submission {
    Submission(map[key := message], false, effects)
  }

  predicate NoInsert(effects: seq<Effect>) {
    forall k :: 0 <= k < |effects| ==> !effects[k].InsertBook?
  }

  /** Two effect lists without an insert, one after the other, have none. */
  lemma NoInsertAppend(a: seq<Effect>, b: seq<Effect>)
    requires NoInsert(a) && NoInsert(b)
    ensures NoInsert(a + b)
  {
    forall k | 0 <= k < |a + b| ensures !(a + b)[k].InsertBook? {
      if k >= |a| {
        assert (a + b)[k] == b[k - |a|];
      }
    }
  }

  /** Where the uploads left the submit: stopped, showing the state it
      stopped in, or ready to insert with the URLs obtained. */
  datatype Uploads = Stopped(result: Submission) | Ready(coverUrl: string, pdfUrl: string, effects: seq<Effect>)

  /** The upload part of handleSubmit: compress and upload the cover, then
      upload the PDF, each skipped without its file. */
  function UploadFiles(variant: Variant, cover: Option<SelectedFile>, coverExt: string, pdf: Option<SelectedFile>,
                       compression: Compression, coverUp: Upload, pdfUp: Upload): (u: Uploads)
    ensures u.Stopped? ==> !u.result.isSaving && |u.result.errors| == 1
    ensures u.Ready? ==> |u.effects| == (if cover.Some? then 1 else 0) + (if pdf.Some? then 1 else 0)
  {
    if cover.Some? && variant == Current && compression.Threw? then
      Stopped(Failed(Form, CaughtMessage(variant, compression.message), []))
    else
      var coverEffects := if cover.Some? then [UploadCover(coverExt)] else [];
      if cover.Some? && coverUp.UploadFailed? then
        Stopped(Failed(Cover, "Error al subir la portada: " + coverUp.message, coverEffects))
      else if cover.Some? && coverUp.UploadThrew? then
        Stopped(Failed(Form, CaughtMessage(variant, coverUp.message), coverEffects))
      else
        var effects := coverEffects + (if pdf.Some? then [UploadPdf(FileExtension(pdf.value.name))] else []);
        if pdf.Some? && pdfUp.UploadFailed? then
          Stopped(Failed(Pdf, "Error al subir el PDF: " + pdfUp.message, effects))
        else if pdf.Some? && pdfUp.UploadThrew? then
          Stopped(Failed(Form, CaughtMessage(variant, pdfUp.message), effects))
        else
          Ready(if cover.Some? then coverUp.url else "", if pdf.Some? then pdfUp.url else "", effects)
  }

  /** The last step: insert the record, then (on success) alert and navigate. */
  function InsertStep(variant: Variant, record: BookRecord, effects: seq<Effect>, insert: Insert): (s: Submission)
    ensures s.isSaving <==> insert.Inserted?
    ensures s.isSaving ==> s.errors == map[]
    ensures !s.isSaving ==> |s.errors| == 1
    ensures |s.effects| > |effects| && s.effects[|effects|] == InsertBook(record)
  {
    var done := effects + [InsertBook(record)];
    match insert
    case InsertFailed(m) => Failed(Form, "Error al guardar el libro: " + m, done)
    case InsertThrew(m) => Failed(Form, CaughtMessage(variant, m), done)
    case Inserted =>
      var tail := (if variant == Current then [Alert(SavedMessage)] else []) + [Navigate(CatalogPath)];
      Submission(map[], true, done + tail)
  }

  /** The uploads stop with exactly one error and saving over, never having
      inserted anything; they reach the insert exactly when every chosen file
      was uploaded (the cover compressed first on the current page), carrying
      each file's URL, or "" for a file not chosen. */
  lemma UploadFilesOutcome(variant: Variant, cover: Option<SelectedFile>, coverExt: string, pdf: Option<SelectedFile>,
                           compression: Compression, coverUp: Upload, pdfUp: Upload, u: Uploads)
    requires u == UploadFiles(variant, cover, coverExt, pdf, compression, coverUp, pdfUp)
    ensures u.Stopped? ==> !u.result.isSaving && NoInsert(u.result.effects) && |u.result.errors| == 1
    ensures u.Ready? ==> NoInsert(u.effects)
    ensures u.Ready? <==>
              && (cover.None? || ((variant == Earlier || compression.Returned?) && coverUp.Uploaded?))
              && (pdf.None? || pdfUp.Uploaded?)
    ensures u.Ready? ==>
              && u.coverUrl == (if cover.Some? then coverUp.url else "")
              && u.pdfUrl == (if pdf.Some? then pdfUp.url else "")
              && u.effects == (if cover.Some? then [UploadCover(coverExt)] else [])
                              + (if pdf.Some? then [UploadPdf(FileExtension(pdf.value.name))] else [])
    ensures cover.Some? && (variant == Earlier || compression.Returned?) && coverUp.UploadFailed? ==>
              u == Stopped(Failed(Cover, "Error al subir la portada: " + coverUp.message,
                                  [UploadCover(coverExt)]))
    ensures cover.Some? && variant == Current && compression.Threw? ==>
              u == Stopped(Failed(Form, CaughtMessage(variant, compression.message), []))
  {
    var coverEffects := if cover.Some? then [UploadCover(coverExt)] else [];
    var pdfEffects := if pdf.Some? then [UploadPdf(FileExtension(pdf.value.name))] else [];
    NoInsertAppend(coverEffects, pdfEffects);
  }

  /** The insert comes right after the earlier effects and nothing after it
      inserts; saving stays on exactly when the insert succeeded, and then the
      errors are cleared and the page alerts (current page) and navigates. */
  lemma InsertStepOutcome(variant: Variant, record: BookRecord, effects: seq<Effect>, insert: Insert, s: Submission)
    requires s == InsertStep(variant, record, effects, insert)
    ensures |s.effects| > |effects| && s.effects[..|effects| + 1] == effects + [InsertBook(record)]
    ensures NoInsert(s.effects[|effects| + 1..])
    ensures s.isSaving <==> insert.Inserted?
    ensures insert.Inserted? ==>
              && s.errors == map[]
              && s.effects == effects + [InsertBook(record)]
                              + (if variant == Current then [Alert(SavedMessage)] else []) + [Navigate(CatalogPath)]
    ensures insert.InsertFailed? ==>
              s == Failed(Form, "Error al guardar el libro: " + insert.message, effects + [InsertBook(record)])
  {
    var done := effects + [InsertBook(record)];
    assert s.effects[..|effects| + 1] == done;
    if insert.Inserted? {
      var tail := (if variant == Current then [Alert(SavedMessage)] else []) + [Navigate(CatalogPath)];
      assert s.effects[|effects| + 1..] == tail;
    }
  }

  /** handleSubmit as a whole, from the form's contents and the outcome of
      every call it makes. */
  function Submit(variant: Variant, f: BookFields, cover: Option<SelectedFile>, pdf: Option<SelectedFile>,
                  links: seq<LinkValue>, userId: Option<string>, errors: Errors, isSaving: bool,
                  compression: Compression, coverUp: Upload, pdfUp: Upload, insert: Insert): (s: Submission)
    ensures !RequiredPresent(f, cover.Some?) || userId.None? ==> s.effects == [] && s.isSaving == isSaving
    ensures RequiredPresent(f, cover.Some?) && userId.Some? ==> (s.isSaving <==> insert.Inserted? && s.errors == map[])
  {
    if !RequiredPresent(f, cover.Some?) then Submission(RequiredFieldErrors(f, cover.Some?), isSaving, [])
    else if userId.None? then Submission(map[Form := "Debes estar autenticado para crear un libro"], isSaving, [])
    else Proceed(variant, f, cover, pdf, links, userId.value, compression, coverUp, pdfUp, insert)
  }

  /** The part of handleSubmit after the checks: uploads, then the insert. */
  function Proceed(variant: Variant, f: BookFields, cover: Option<SelectedFile>, pdf: Option<SelectedFile>,
                   links: seq<LinkValue>, userId: string,
                   compression: Compression, coverUp: Upload, pdfUp: Upload, insert: Insert): (s: Submission)
    ensures s.isSaving ==> insert.Inserted? && s.errors == map[]
    ensures !s.isSaving ==> |s.errors| == 1
  {
    match UploadFiles(variant, cover, CoverExt(variant, cover), pdf, compression, coverUp, pdfUp)
    case Stopped(result) => result
    case Ready(coverUrl, pdfUrl, effects) =>
      InsertStep(variant, BuildRecord(f, links, coverUrl, pdfUrl, userId), effects, insert)
  }

  /** An invalid form, or a missing user, uploads nothing and inserts
      nothing; `isSaving` is not touched. */
  lemma RefusedSubmitHasNoEffects(variant: Variant, f: BookFields, cover: Option<SelectedFile>, pdf: Option<SelectedFile>,
                                  links: seq<LinkValue>, userId: Option<string>, errors: Errors, isSaving: bool,
                                  compression: Compression, coverUp: Upload, pdfUp: Upload, insert: Insert)
    requires !RequiredPresent(f, cover.Some?) || userId.None?
    ensures var s := Submit(variant, f, cover, pdf, links, userId, errors, isSaving, compression, coverUp, pdfUp, insert);
            && s.effects == [] && s.isSaving == isSaving
            && (!RequiredPresent(f, cover.Some?) ==> s.errors == RequiredFieldErrors(f, cover.Some?))
            && (RequiredPresent(f, cover.Some?) ==> s.errors == map[Form := "Debes estar autenticado para crear un libro"])
  {
  }

  /** A failed cover upload stops before the PDF and the insert, reports
      under `cover` and ends the saving state. */
  lemma CoverFailureStopsEarly(variant: Variant, f: BookFields, cover: SelectedFile, pdf: Option<SelectedFile>,
                               links: seq<LinkValue>, userId: string, errors: Errors, isSaving: bool,
                               pdfUp: Upload, insert: Insert, message: string)
    requires RequiredPresent(f, true)
    ensures Submit(variant, f, Some(cover), pdf, links, Some(userId), errors, isSaving,
                   Returned, UploadFailed(message), pdfUp, insert)
            == Failed(Cover, "Error al subir la portada: " + message, [UploadCover(CoverExtension(variant, cover))])
  {
  }

  /** A failed PDF upload stops before the insert and reports under `pdf`. */
  lemma PdfFailureStopsBeforeInsert(variant: Variant, f: BookFields, cover: SelectedFile, pdf: SelectedFile,
                                    links: seq<LinkValue>, userId: string, errors: Errors, isSaving: bool,
                                    coverUrl: string, insert: Insert, message: string)
    requires RequiredPresent(f, true)
    ensures var s := Submit(variant, f, Some(cover), Some(pdf), links, Some(userId), errors, isSaving,
                            Returned, Uploaded(coverUrl), UploadFailed(message), insert);
            s.errors == map[Pdf := "Error al subir el PDF: " + message] && !s.isSaving && NoInsert(s.effects)
  {
    var u := UploadFiles(variant, Some(cover), CoverExt(variant, Some(cover)), Some(pdf),
                         Returned, Uploaded(coverUrl), UploadFailed(message));
    UploadFilesOutcome(variant, Some(cover), CoverExt(variant, Some(cover)), Some(pdf),
                       Returned, Uploaded(coverUrl), UploadFailed(message), u);
    assert u.Stopped? && u.result.errors == map[Pdf := "Error al subir el PDF: " + message];
  }

  /** The rows an effect list inserts, in order. */
  function InsertedRows(effects: seq<Effect>): (rows: seq<BookRecord>)
    ensures |rows| <= |effects|
  {
    if effects == [] then []
    else (if effects[0].InsertBook? then [effects[0].record] else []) + InsertedRows(effects[1..])
  }

  /** The rows inserted by two effect lists run one after the other. */
  lemma {:induction false} InsertedRowsAppend(a: seq<Effect>, b: seq<Effect>)
    ensures InsertedRows(a + b) == InsertedRows(a) + InsertedRows(b)
  {
    if a != [] {
      assert (a + b)[1..] == a[1..] + b;
      InsertedRowsAppend(a[1..], b);
    } else {
      assert a + b == b;
    }
  }

  /** An effect list without an insert inserts no row, and conversely. */
  lemma {:induction false} NoInsertMeansNoRows(effects: seq<Effect>)
    ensures NoInsert(effects) <==> InsertedRows(effects) == []
  {
    if effects != [] {
      NoInsertMeansNoRows(effects[1..]);
      if !effects[0].InsertBook? {
        assert NoInsert(effects[1..]) ==> NoInsert(effects) by {
          if NoInsert(effects[1..]) {
            forall k | 0 <= k < |effects| ensures !effects[k].InsertBook? {
              if k > 0 { assert effects[k] == effects[1..][k - 1]; }
            }
          }
        }
      }
    }
  }

  /** The last step inserts exactly its record. */
  lemma InsertStepInsertsRecord(variant: Variant, record: BookRecord, effects: seq<Effect>, insert: Insert)
    ensures InsertedRows(InsertStep(variant, record, effects, insert).effects) == InsertedRows(effects) + [record]
  {
    var s := InsertStep(variant, record, effects, insert);
    var n := |effects| + 1;
    assert s.effects == s.effects[..n] + s.effects[n..];
    InsertedRowsAppend(s.effects[..n], s.effects[n..]);
    InsertedRowsAppend(effects, [InsertBook(record)]);
    NoInsertMeansNoRows(s.effects[n..]);
  }

  /** Whatever happens, at most one row is inserted: the normalised draft
      built from the form, the uploaded URLs and the signed-in user's id, and
      only when the form was complete, a user was signed in and every upload
      succeeded. */
  lemma InsertsAtMostTheDraft(variant: Variant, f: BookFields, cover: Option<SelectedFile>, pdf: Option<SelectedFile>,
                              links: seq<LinkValue>, userId: Option<string>, errors: Errors, isSaving: bool,
                              compression: Compression, coverUp: Upload, pdfUp: Upload, insert: Insert)
    ensures var s := Submit(variant, f, cover, pdf, links, userId, errors, isSaving, compression, coverUp, pdfUp, insert);
            var u := UploadFiles(variant, cover, CoverExt(variant, cover), pdf, compression, coverUp, pdfUp);
            InsertedRows(s.effects)
            == if RequiredPresent(f, cover.Some?) && userId.Some? && u.Ready?
               then [BuildRecord(f, links, u.coverUrl, u.pdfUrl, userId.value)]
               else []
  {
    var s := Submit(variant, f, cover, pdf, links, userId, errors, isSaving, compression, coverUp, pdfUp, insert);
    var u := UploadFiles(variant, cover, CoverExt(variant, cover), pdf, compression, coverUp, pdfUp);
    if RequiredPresent(f, cover.Some?) && userId.Some? {
      match u
      case Stopped(result) =>
        UploadFilesOutcome(variant, cover, CoverExt(variant, cover), pdf, compression, coverUp, pdfUp, u);
        NoInsertMeansNoRows(result.effects);
      case Ready(coverUrl, pdfUrl, effects) =>
        UploadFilesOutcome(variant, cover, CoverExt(variant, cover), pdf, compression, coverUp, pdfUp, u);
        NoInsertMeansNoRows(effects);
        InsertStepInsertsRecord(variant, BuildRecord(f, links, coverUrl, pdfUrl, userId.value), effects, insert);
    }
  }

  /** A row is inserted only for a signed-in user with a cover. */
  lemma InsertNeedsUserAndCover(variant: Variant, f: BookFields, cover: Option<SelectedFile>, pdf: Option<SelectedFile>,
                                links: seq<LinkValue>, userId: Option<string>, errors: Errors, isSaving: bool,
                                compression: Compression, coverUp: Upload, pdfUp: Upload, insert: Insert)
    requires InsertedRows(Submit(variant, f, cover, pdf, links, userId, errors, isSaving,
                                 compression, coverUp, pdfUp, insert).effects) != []
    ensures userId.Some? && cover.Some? && coverUp.Uploaded? && (pdf.None? || pdfUp.Uploaded?)
  {
    InsertsAtMostTheDraft(variant, f, cover, pdf, links, userId, errors, isSaving, compression, coverUp, pdfUp, insert);
    var u := UploadFiles(variant, cover, CoverExt(variant, cover), pdf, compression, coverUp, pdfUp);
    assert RequiredPresent(f, cover.Some?) && userId.Some? && u.Ready?;
    UploadFilesOutcome(variant, cover, CoverExt(variant, cover), pdf, compression, coverUp, pdfUp, u);
  }

  /** When every call succeeds the row is inserted, the errors are cleared
      and the page moves to the catalog section, still in its saving state;
      the current page alerts first. */
  lemma SuccessfulSubmit(variant: Variant, f: BookFields, cover: SelectedFile, pdf: Option<SelectedFile>,
                         links: seq<LinkValue>, userId: string, errors: Errors, isSaving: bool,
                         coverUrl: string, pdfUrl: string)
    requires RequiredPresent(f, true)
    ensures var s := Submit(variant, f, Some(cover), pdf, links, Some(userId), errors, isSaving,
                            Returned, Uploaded(coverUrl), Uploaded(pdfUrl), Inserted);
            var record := BuildRecord(f, links, coverUrl, if pdf.Some? then pdfUrl else "", userId);
            && s.errors == map[] && s.isSaving
            && s.effects == [UploadCover(CoverExtension(variant, cover))]
                            + (if pdf.Some? then [UploadPdf(FileExtension(pdf.value.name))] else [])
                            + [InsertBook(record)]
                            + (if variant == Current then [Alert(SavedMessage)] else [])
                            + [Navigate(CatalogPath)]
  {
    var u := UploadFiles(variant, Some(cover), CoverExt(variant, Some(cover)), pdf,
                         Returned, Uploaded(coverUrl), Uploaded(pdfUrl));
    UploadFilesOutcome(variant, Some(cover), CoverExt(variant, Some(cover)), pdf,
                       Returned, Uploaded(coverUrl), Uploaded(pdfUrl), u);
    var record := BuildRecord(f, links, coverUrl, if pdf.Some? then pdfUrl else "", userId);
    InsertStepOutcome(variant, record, u.effects, Inserted, InsertStep(variant, record, u.effects, Inserted));
  }

  /** Once saving has started, it stays on only when the insert succeeded. */
  lemma SavingEndsUnlessInserted(variant: Variant, f: BookFields, cover: Option<SelectedFile>, pdf: Option<SelectedFile>,
                                 links: seq<LinkValue>, userId: Option<string>, errors: Errors, isSaving: bool,
                                 compression: Compression, coverUp: Upload, pdfUp: Upload, insert: Insert)
    requires RequiredPresent(f, cover.Some?) && userId.Some?
    ensures var s := Submit(variant, f, cover, pdf, links, userId, errors, isSaving, compression, coverUp, pdfUp, insert);
            s.isSaving <==> UploadFiles(variant, cover, CoverExt(variant, cover), pdf, compression, coverUp, pdfUp).Ready? && insert.Inserted?
  {
  }

  /** The form: its text fields, chosen files, error dictionary, saving flag,
      the affiliate-link editor it renders, and the effects it has performed. */
  class NewBookForm {
    const variant: Variant
    var fields: BookFields
    var coverFile: Option<SelectedFile>
    var coverPreview: Option<string>
    var pdfFile: Option<SelectedFile>
    var coverInputValue: string
    var pdfInputValue: string
    var isSaving: bool
    var errors: Errors
    var effects: seq<Effect>
    const linksEditor: LinksEditor

    /** Mounting: empty fields except the year, no files, no errors. */
    constructor (variant: Variant, currentYear: string, initialLinks: seq<AffiliateLink>)
      ensures this.variant == variant
      ensures fields == BookFields("", "", "", currentYear, "", "", "", "", "", false)
      ensures coverFile.None? && coverPreview.None? && pdfFile.None?
      ensures !isSaving && errors == map[] && effects == []
      ensures linksEditor.links == initialLinks && linksEditor.defaultLinksCount == 3
      ensures fresh(linksEditor)
    {
      this.variant := variant;
      fields := BookFields("", "", "", currentYear, "", "", "", "", "", false);
      coverFile := None;
      coverPreview := None;
      pdfFile := None;
      coverInputValue := "";
      pdfInputValue := "";
      isSaving := false;
      errors := map[];
      effects := [];
      linksEditor := new LinksEditor(initialLinks, 3);
    }

    /** validateForm: the dictionary is replaced by the required-field
        errors, and the form is valid when there are none. */
    method ValidateForm() returns (valid: bool)
      modifies this`errors
      ensures errors == RequiredFieldErrors(fields, coverFile.Some?)
      ensures valid <==> RequiredPresent(fields, coverFile.Some?)
    {
      var f, hasCover := fields, coverFile.Some?;
      var newErrors := RequiredFieldErrors(f, hasCover);
      errors := newErrors;
      valid := |newErrors.Keys| == 0;
      ValidIffRequiredPresent(f, hasCover);
    }

    /** handleCoverChange on the current page: the component has already
        accepted the file; the cover error is blanked. */
    method HandleCoverChange(file: SelectedFile, previewUrl: string)
      modifies this`coverFile, this`coverPreview, this`errors
      ensures coverFile == Some(file) && coverPreview == Some(previewUrl)
      ensures errors == old(errors)[Cover := ""]
    {
      coverFile := Some(file);
      coverPreview := Some(previewUrl);
      errors := errors[Cover := ""];
    }

    /** The earlier page's inline cover handler: a refused file only sets the
        cover error, keeping the previous file; an accepted one replaces it. */
    method HandleCoverSelected(chosen: Option<SelectedFile>, previewUrl: string)
      modifies this`coverFile, this`coverPreview, this`errors
      ensures chosen.None? ==> coverFile == old(coverFile) && errors == old(errors)
      ensures chosen.Some? && !AcceptsCover(chosen.value) ==>
        coverFile == old(coverFile) && coverPreview == old(coverPreview)
        && errors == old(errors)[Cover := CoverRejection(chosen.value).value]
      ensures chosen.Some? && AcceptsCover(chosen.value) ==>
        coverFile == chosen && coverPreview == Some(previewUrl) && errors == old(errors)[Cover := ""]
    {
      if chosen.Some? {
        var file := chosen.value;
        var rejection := CoverRejection(file);
        if rejection.Some? {
          errors := errors[Cover := rejection.value];
          return;
        }
        coverFile := Some(file);
        coverPreview := Some(previewUrl);
        errors := errors[Cover := ""];
      }
    }

    /** removeCover: no file and no preview; the earlier page also clears its input. */
    method RemoveCover()
      modifies this`coverFile, this`coverPreview, this`coverInputValue
      ensures coverFile.None? && coverPreview.None?
      ensures coverInputValue == (if variant == Earlier then "" else old(coverInputValue))
    {
      coverFile := None;
      coverPreview := None;
      if variant == Earlier {
        coverInputValue := "";
      }
    }

    /** handlePdfChange on the current page: the file is taken, the PDF error blanked. */
    method HandlePdfChange(file: SelectedFile)
      modifies this`pdfFile, this`errors
      ensures pdfFile == Some(file) && errors == old(errors)[Pdf := ""]
    {
      pdfFile := Some(file);
      errors := errors[Pdf := ""];
    }

    /** The earlier page's inline PDF handler. */
    method HandlePdfSelected(chosen: Option<SelectedFile>)
      modifies this`pdfFile, this`errors
      ensures chosen.None? ==> pdfFile == old(pdfFile) && errors == old(errors)
      ensures chosen.Some? && !AcceptsPdf(chosen.value) ==>
        pdfFile == old(pdfFile) && errors == old(errors)[Pdf := PdfRejection(chosen.value).value]
      ensures chosen.Some? && AcceptsPdf(chosen.value) ==>
        pdfFile == chosen && errors == old(errors)[Pdf := ""]
    {
      if chosen.Some? {
        var file := chosen.value;
        var rejection := PdfRejection(file);
        if rejection.Some? {
          errors := errors[Pdf := rejection.value];
          return;
        }
        pdfFile := Some(file);
        errors := errors[Pdf := ""];
      }
    }

    /** removePdf. */
    method RemovePdf()
      modifies this`pdfFile, this`pdfInputValue
      ensures pdfFile.None?
      ensures pdfInputValue == (if variant == Earlier then "" else old(pdfInputValue))
    {
      pdfFile := None;
      if variant == Earlier {
        pdfInputValue := "";
      }
    }

    /** The upload part of handleSubmit, step by step: the state it stops
        in, or the URLs obtained, with the uploads performed. */
    method UploadStep(coverExt: string, compression: Compression, coverUp: Upload, pdfUp: Upload) returns (u: Uploads)
      ensures u == UploadFiles(variant, coverFile, coverExt, pdfFile, compression, coverUp, pdfUp)
      ensures u.Stopped? ==> !u.result.isSaving
    {
      var performed: seq<Effect> := [];
      var coverUrl := "";
      var pdfUrl := "";
      if coverFile.Some? {
        if variant == Current && compression.Threw? {
          return Stopped(Failed(Form, CaughtMessage(variant, compression.message), []));
        }
        performed := performed + [UploadCover(coverExt)];
        match coverUp {
          case UploadFailed(m) =>
            return Stopped(Failed(Cover, "Error al subir la portada: " + m, performed));
          case UploadThrew(m) =>
            return Stopped(Failed(Form, CaughtMessage(variant, m), performed));
          case Uploaded(url) =>
            coverUrl := url;
        }
      }
      if pdfFile.Some? {
        performed := performed + [UploadPdf(FileExtension(pdfFile.value.name))];
        assert performed == (if coverFile.Some? then [UploadCover(coverExt)] else [])
                            + [UploadPdf(FileExtension(pdfFile.value.name))];
        match pdfUp {
          case UploadFailed(m) =>
            return Stopped(Failed(Pdf, "Error al subir el PDF: " + m, performed));
          case UploadThrew(m) =>
            return Stopped(Failed(Form, CaughtMessage(variant, m), performed));
          case Uploaded(url) =>
            pdfUrl := url;
        }
      }
      u := Ready(coverUrl, pdfUrl, performed);
    }

    /** handleSubmit, with the outcome of each call supplied: the checks,
        then the save. */
    method HandleSubmit(userId: Option<string>, compression: Compression, coverUp: Upload, pdfUp: Upload, insert: Insert)
      modifies this`errors, this`isSaving, this`effects
      ensures var s := old(Submit(variant, fields, coverFile, pdfFile, Values(linksEditor.links), userId,
                                  errors, isSaving, compression, coverUp, pdfUp, insert));
              errors == s.errors && isSaving == s.isSaving && effects == old(effects) + s.effects
    {
      var valid := ValidateForm();
      if !valid {
        return;
      }
      if userId.None? {
        errors := map[Form := "Debes estar autenticado para crear un libro"];
        return;
      }
      SaveBook(userId.value, compression, coverUp, pdfUp, insert);
    }

    /** The save, once the form is valid and a user is signed in: saving
        starts with no errors, the files are uploaded, the row inserted. */
    method SaveBook(userId: string, compression: Compression, coverUp: Upload, pdfUp: Upload, insert: Insert)
      modifies this`errors, this`isSaving, this`effects
      ensures var s := old(Proceed(variant, fields, coverFile, pdfFile, Values(linksEditor.links), userId,
                                   compression, coverUp, pdfUp, insert));
              errors == s.errors && isSaving == s.isSaving && effects == old(effects) + s.effects
    {
      var links := Values(linksEditor.links);
      isSaving := true;
      errors := map[];
      var coverExt := CoverExt(variant, coverFile);
      ghost var expected := Proceed(variant, fields, coverFile, pdfFile, links, userId,
                                    compression, coverUp, pdfUp, insert);
      var u := UploadStep(coverExt, compression, coverUp, pdfUp);
      match u {
        case Stopped(result) =>
          assert expected == result;
          effects := effects + result.effects;
          errors := result.errors;
          isSaving := false;
        case Ready(coverUrl, pdfUrl, performed) =>
          var record := BuildRecord(fields, links, coverUrl, pdfUrl, userId);
          assert expected == InsertStep(variant, record, performed, insert);
          InsertRecord(record, performed, insert);
      }
    }

    /** The insert and what follows it: on success the alert (current page)
        and the move to the catalog, on failure one error and saving over. */
    method InsertRecord(record: BookRecord, performed: seq<Effect>, insert: Insert)
      requires isSaving && errors == map[]
      modifies this`errors, this`isSaving, this`effects
      ensures errors == InsertStep(variant, record, performed, insert).errors
      ensures isSaving == InsertStep(variant, record, performed, insert).isSaving
      ensures effects == old(effects) + InsertStep(variant, record, performed, insert).effects
    {
      var done := performed + [InsertBook(record)];
      match insert {
        case InsertFailed(m) =>
          effects := effects + done;
          errors := map[Form := "Error al guardar el libro: " + m];
          isSaving := false;
        case InsertThrew(m) =>
          effects := effects + done;
          errors := map[Form := CaughtMessage(variant, m)];
          isSaving := false;
        case Inserted =>
          var tail := (if variant == Current then [Alert(SavedMessage)] else []) + [Navigate(CatalogPath)];
          effects := effects + (done + tail);
      }
    }
  }
}
