/**
 * An abstract stand-in for the parts of the PDF library (PyMuPDF) that the
 * merge tool relies on. Page content is opaque; a byte stream is either a
 * well-formed PDF, which carries its pages in order, or malformed; a document
 * under construction is an object whose page list the library's calls
 * (new_page, show_pdf_page, insert_pdf) update in place.
 */
module PdfModel {

  datatype Option<+T> = None | Some(value: T)

  /** Success or failure; usable with `:-`, which stands in for an exception. */
  datatype Result<+T, +E> = Success(value: T) | Failure(error: E) {
    predicate IsFailure() {
      Failure?
    }

    function PropagateFailure<U>(): Result<U, E>
      requires Failure?
    {
      Failure(error)
    }

    function Extract(): T
      requires Success?
    {
      value
    }
  }

  /** A page size, in hundredths of a PDF point (so that it is exact). */
  datatype Canvas = Canvas(widthCentipoints: nat, heightCentipoints: nat)

  /** The fixed canvas of every composited page: 595.28 x 841.89 points (ISO A4). */
  const A4: Canvas := Canvas(59528, 84189)

  datatype Page =
    | Imported(content: nat)                   // a page taken from an uploaded file; opaque
    | Sheet(canvas: Canvas, layers: seq<Page>) // a page created here; each later layer is drawn above the earlier ones, over the whole canvas

  /** The bytes of a file as the library sees them. */
  datatype Stream = Pdf(pages: seq<Page>) | Malformed

  /** Which of the four uploads a document came from. */
  datatype Role = Header | Quotation | Background | Footer

  datatype Failure =
    | ParseError(role: Role)   // the bytes of that upload are not a PDF
    | NoTemplatePage           // page 0 of the background was drawn, but the background has no pages

  /** Opening a stream (fitz.open(stream=...)): its pages, or a parse error for that role. */
  function Open(s: Stream, role: Role): Result<seq<Page>, Failure>
  {
    match s
    case Pdf(pages) => Success(pages)
    case Malformed => Failure(ParseError(role))
  }

  /** A document being built in memory (the object fitz.open() returns). */
  class PdfDocument {
    var pages: seq<Page>

    /** fitz.open() with no arguments: a new document with no pages. */
    constructor Empty()
      ensures pages == []
    {
      pages := [];
    }

    /** new_page: appends a blank page of the given size and returns its number. */
    method NewPage(canvas: Canvas) returns (n: nat)
      modifies this
      ensures n == |old(pages)|
      ensures pages == old(pages) + [Sheet(canvas, [])]
    {
      n := |pages|;
      pages := pages + [Sheet(canvas, [])];
    }

    /**
     * show_pdf_page: draws page k of src over the whole of page n, above what
     * is already there. Drawing a page that src does not have is an error
     * (ok is false) and changes nothing.
     */
    method ShowPdfPage(n: nat, src: seq<Page>, k: nat) returns (ok: bool)
      requires n < |pages| && pages[n].Sheet?
      modifies this
      ensures ok <==> k < |src|
      ensures ok ==> pages == old(pages)[n := Sheet(old(pages)[n].canvas, old(pages)[n].layers + [src[k]])]
      ensures !ok ==> pages == old(pages)
    {
      ok := k < |src|;
      if ok {
        pages := pages[n := Sheet(pages[n].canvas, pages[n].layers + [src[k]])];
      }
    }

    /** insert_pdf(src, from_page=k, to_page=k): appends page k of src. */
    method InsertPage(src: seq<Page>, k: nat)
      requires k < |src|
      modifies this
      ensures pages == old(pages) + [src[k]]
    {
      pages := pages + [src[k]];
    }

    /** insert_pdf(src): appends every page of src, in order. */
    method InsertDocument(src: seq<Page>)
      modifies this
      ensures pages == old(pages) + src
    {
      pages := pages + src;
    }
  }
}
