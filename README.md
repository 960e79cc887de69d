# Samagra Interiors PDF merger: a Dafny model of the assembly pipeline

The tool takes up to four uploaded PDFs: a header, a required quotation, a
background template and a footer. It produces one document: the header pages,
then the quotation pages, then the footer pages. When a background is given,
every quotation page is first redrawn on a fresh A4 sheet, with page 0 of the
background underneath and the quotation page on top. Before merging, the
"Generate Final PDF" button refuses to run without a quotation, or when any
upload is larger than 200 MiB.

This project models that pipeline in `merge_pdf.py` over abstract page
sequences. It proves what it computes: page counts, order, layering and which
inputs make it fail.

- `pdf_model.dfy` (module `PdfModel`) is the stand-in for the PDF library.
  - A `Page` is either an opaque imported page or a `Sheet` created by the tool.
    A sheet has a canvas size and an ordered list of layers; later layers are
    drawn above earlier ones.
  - A `Stream` (the bytes of a file) is either `Pdf(pages)` or `Malformed`.
  - `PdfDocument` is a class whose `pages` field the library calls update in
    place: `new_page`, `show_pdf_page` and `insert_pdf`.
  - The A4 canvas, 595.28 x 841.89 points, is kept exactly as whole hundredths
    of a point.
- `merge_pdf.dfy` (module `MergePdf`) holds the tool's own logic.
  - `CheckSize` is the size check.
  - `Composited`, `Overlaid` and `Merged` are specification functions.
  - `OverlayWithBackground` and `MergePdfs` are methods with the source's loops.
    Each is proved equal to its specification function.
  - `GenerateFinalPdf` is the button handler.
  - Python exceptions become `Result` values. The handler's catch-all becomes
    the `MergeFailed` outcome, so a failure never produces partial output.

Three points about the code, which the model keeps:

- Background page 0 is first used inside the per-page loop
  (merge_pdf.py:99-101). So a background with no pages fails only once a
  quotation page needs it. In the model, a quotation with no pages then gives
  an empty document; what the library does when saving a document with no
  pages is not modelled (see the zero-page line under "## Left out").
- The size check covers the quotation as well as the optional uploads
  (merge_pdf.py:139).
- Nothing refuses a quotation with no pages before the merge.

## Model

| member | source | states |
|---|---|---|
| `MergePdf.SizeLimitIsInclusive` | merge_pdf.py:92-93 | An absent upload passes the size check. A present one passes exactly when its size is at most 209715200 bytes (200 MiB), so the boundary itself is accepted. |
| `MergePdf.Composited` | merge_pdf.py:99-102 | The composited document has exactly one page per main page. Page i is an A4 sheet with the template below and main page i above. |
| `MergePdf.OverlayWithBackground` | merge_pdf.py:95-106 | The page-by-page overlay loop gives the same result as `Overlaid`. Failures are a parse error for the main or background stream, or a missing background page 0 as soon as a page needs it. |
| `MergePdf.OverlayPageByPage` | merge_pdf.py:99-102 | With a non-empty background, the overlay succeeds. Its page count equals the main document's, and page i is background page 0 under main page i. |
| `MergePdf.OverlayUsesOnlyFirstBackgroundPage` | merge_pdf.py:101 | Two backgrounds with the same page 0 give the same overlay. No other background page is ever used. |
| `MergePdf.OverlayFailsIff` | merge_pdf.py:96-102 | The overlay fails exactly when either stream is not a PDF, or the main document has pages and the background has none. |
| `MergePdf.MergePdfs` | merge_pdf.py:108-131 | The merge method, with its page-at-a-time header and footer loops, gives the same result as `Merged`. The loop invariant is that the output is the pages so far followed by the first p pages of the document being inserted, so the per-page loop matches inserting the whole document. |
| `MergePdf.EffectiveMainPages` | merge_pdf.py:115-120 | The quotation contributes as many pages as it has. Without a background they are its own pages, unchanged. With a background, page i is background page 0 under quotation page i. |
| `MergePdf.MergedLayout` | merge_pdf.py:108-126 | A successful merge has pageCount(header, or 0) + pageCount(quotation) + pageCount(footer, or 0) pages. Its first part is the header, its middle part the effective quotation pages and its last part the footer, with nothing reordered, dropped or repeated. |
| `MergePdf.NoBackgroundKeepsMain` | merge_pdf.py:115-121 | With no header, footer or background, the merge returns the quotation's pages unchanged. |
| `MergePdf.MergeFailureKind` | merge_pdf.py:110-125 | Which failure a merge reports. A malformed header gives a header parse error. Otherwise a malformed quotation gives a quotation parse error, then a malformed background gives a background parse error, then a background with no pages under a non-empty quotation gives the missing-template-page failure, then a malformed footer gives a footer parse error. |
| `MergePdf.MergeFailsIff` | merge_pdf.py:110-125 | A merge fails exactly when a supplied header, quotation, background or footer is not a PDF, or when a background without pages must be drawn under at least one quotation page. |
| `MergePdf.FourPageExample` | merge_pdf.py:108-126 | A 1-page header A, a 2-page quotation B and a 1-page footer C, with no background, give [A0, B0, B1, C0]. |
| `MergePdf.GenerateFinalPdf` | merge_pdf.py:134-155 | Without a quotation the merge is not run, and the outcome is the missing-quotation refusal. Otherwise, if any of the four uploads fails the size check, the outcome is the size refusal. Otherwise the merge runs on (header, quotation, footer, background). The outcome is then the whole merged file, named `final_with_background.pdf` with type `application/pdf`, or the merge's error. |
| `MergePdf.OversizedUploadBlocksMerge` | merge_pdf.py:137-143 | One upload over 200 MiB, including the quotation, is enough to keep the merge from running. |
| `PdfModel.PdfDocument.NewPage` | merge_pdf.py:100 | Appends one blank sheet of the given canvas and returns its page number. |
| `PdfModel.PdfDocument.ShowPdfPage` | merge_pdf.py:101-102 | Adds page k of the source as the new top layer of page n, or fails and changes nothing when the source has no page k. |
| `PdfModel.PdfDocument.InsertPage` | merge_pdf.py:113 | Appends exactly page k of the source document. |
| `PdfModel.PdfDocument.InsertDocument` | merge_pdf.py:120 | Appends all pages of the source document, in order. |

## Left out

- The Streamlit user interface (merge_pdf.py:1-90 and the messages at 136, 143 and 147-155) is presentation code. Only the decisions it makes are modelled, as `Outcome` values.
- PDF parsing, serialisation and rendering belong to the PDF library. A stream is either a PDF with known pages or malformed. Writing a document to bytes and reopening it is taken to give back the same pages.
- The scaling of a page into the target rectangle is not modelled. Each layer is taken to cover the whole canvas.
- `close()` and the release of document handles have no counterpart. Documents are values or local objects.
- Zero-page documents: the library's own behaviour on documents with zero pages is outside what the source shows, so it is not modelled. The model treats saving or inserting an empty document as succeeding with no pages.
- The declared upload size is not tied to the stream's content. The size check reads only the declared size, as the code does.
- The error text shown to the user is not modelled. A failure carries only its kind and the role of the offending upload.
