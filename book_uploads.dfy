/**
 * The two file-picker components of the new-book form
 * (components/admin/BookCoverUpload.tsx and components/admin/BookPdfUpload.tsx).
 * They differ only in their acceptance test: a chosen file that passes is
 * handed to the page's callback, one that fails is dropped without a
 * message; removing clears the input element and then tells the page.
 */
module BookUploads {
  import opened Wrappers
  import opened BookEntry

  datatype UploadKind = CoverPicker | PdfPicker

  predicate Accepts(kind: UploadKind, f: SelectedFile) {
    match kind
    case CoverPicker => AcceptsCover(f)
    case PdfPicker => AcceptsPdf(f)
  }

  /** handleChange's decision: the file passed to `onCoverChange` /
      `onPdfChange`, if any. */
  function Handoff(kind: UploadKind, chosen: Option<SelectedFile>): (r: Option<SelectedFile>)
    ensures r.Some? <==> chosen.Some? && Accepts(kind, chosen.value)
    ensures r.Some? ==> r == chosen
  {
    match chosen
    case None => None
    case Some(f) => if Accepts(kind, f) then Some(f) else None
  }

  /** A cover of exactly 5 MiB and a PDF of exactly 50 MiB are handed on;
      one byte more and they are dropped. */
  lemma HandoffAtTheLimits(name: string)
    ensures Handoff(CoverPicker, Some(SelectedFile(name, "image/webp", 5 * 1024 * 1024))).Some?
    ensures Handoff(CoverPicker, Some(SelectedFile(name, "image/webp", 5 * 1024 * 1024 + 1))).None?
    ensures Handoff(PdfPicker, Some(SelectedFile(name, "application/pdf", 50 * 1024 * 1024))).Some?
    ensures Handoff(PdfPicker, Some(SelectedFile(name, "application/pdf", 50 * 1024 * 1024 + 1))).None?
    ensures Handoff(PdfPicker, Some(SelectedFile(name, "application/x-pdf", 10))).None?
  {
    LimitsAreInclusive(name);
  }

  /** What the component tells the page. */
  datatype Notice = Chosen(file: SelectedFile) | Removed

  /** One mounted picker: the `<input type="file">` it owns (present while
      its ref is attached) and the notices it has sent to the page. */
  class UploadField {
    const kind: UploadKind
    var inputAttached: bool
    var inputValue: string
    var notices: seq<Notice>

    constructor (kind: UploadKind)
      ensures this.kind == kind && inputAttached && inputValue == "" && notices == []
    {
      this.kind := kind;
      inputAttached := true;
      inputValue := "";
      notices := [];
    }

    /** handleChange: the input now shows the chosen file's name; the page
        hears of it only when it is accepted. */
    method HandleChange(chosen: Option<SelectedFile>)
      modifies this
      ensures notices == old(notices) + (if Handoff(kind, chosen).Some? then [Chosen(chosen.value)] else [])
      ensures inputAttached == old(inputAttached)
      ensures inputValue == (if chosen.Some? then chosen.value.name else old(inputValue))
    {
      if chosen.Some? {
        inputValue := chosen.value.name;
        var f := chosen.value;
        if Accepts(kind, f) {
          notices := notices + [Chosen(f)];
        }
      }
    }

    /** handleRemove: clear the input if it is attached, then call `onRemove`. */
    method HandleRemove()
      modifies this
      ensures notices == old(notices) + [Removed]
      ensures inputAttached == old(inputAttached)
      ensures inputValue == (if inputAttached then "" else old(inputValue))
    {
      if inputAttached {
        inputValue := "";
      }
      notices := notices + [Removed];
    }
  }
}
