/**
 * The PDF assembly pipeline of the merge tool: the upload size check, the
 * background overlay, the header / quotation / footer assembly and the gate
 * in front of the "Generate Final PDF" button. Documents are page sequences
 * (module PdfModel); the specification functions Composited, Overlaid and
 * Merged state what the imperative methods compute.
 */
module MergePdf {
  import opened PdfModel

  /** The upload limit: 200 MiB. */
  const MaxUploadBytes: nat := 200 * 1024 * 1024

  /** An uploaded file: its declared size in bytes and its content. */
  datatype Upload = Upload(size: nat, stream: Stream)

  // ---------------------------------------------------------------------------
  // Size check

  /** check_size: an absent upload passes; a present one passes when it is at most the limit. */
  predicate CheckSize(file: Option<Upload>)
  {
    file.None? || file.value.size <= MaxUploadBytes
  }

  /** The limit is 209715200 bytes and is inclusive; anything larger fails. */
  lemma SizeLimitIsInclusive(s: Stream, n: nat)
    ensures CheckSize(None)
    ensures CheckSize(Some(Upload(209715200, s)))
    ensures CheckSize(Some(Upload(n, s))) <==> n <= 209715200
  {
  }

  // ---------------------------------------------------------------------------
  // Overlay

  /**
   * The composited pages: one A4 sheet per main page, in order, each with the
   * template underneath and the main page on top.
   */
  function Composited(main: seq<Page>, template: Page): (r: seq<Page>)
    ensures |r| == |main|
    ensures forall i :: 0 <= i < |main| ==> r[i] == Sheet(A4, [template, main[i]])
  {
    if main == [] then []
    else Composited(main[..|main| - 1], template) + [Sheet(A4, [template, main[|main| - 1]])]
  }

  /**
   * What overlay_with_background produces from two streams: the main stream is
   * opened first, then the background; page 0 of the background is only looked
   * at while drawing, so a page-less background fails only when there is a
   * main page to draw it under.
   */
  function Overlaid(mainBytes: Stream, backgroundBytes: Stream): Result<Stream, Failure>
  {
    var main :- Open(mainBytes, Quotation);
    var background :- Open(backgroundBytes, Background);
    if |main| == 0 then Success(Pdf([]))
    else if |background| == 0 then Failure(NoTemplatePage)
    else Success(Pdf(Composited(main, background[0])))
  }

  /** overlay_with_background: builds the composited document page by page. */
  method OverlayWithBackground(mainBytes: Stream, backgroundBytes: Stream) returns (r: Result<Stream, Failure>)
    ensures r == Overlaid(mainBytes, backgroundBytes)
  {
    var mainDoc :- Open(mainBytes, Quotation);
    var bgDoc :- Open(backgroundBytes, Background);
    var result := new PdfDocument.Empty();
    for pageIndex := 0 to |mainDoc|
      invariant |result.pages| == pageIndex
      invariant pageIndex > 0 ==> |bgDoc| > 0
      invariant forall j :: 0 <= j < pageIndex ==> result.pages[j] == Sheet(A4, [bgDoc[0], mainDoc[j]])
    {
      var newPage := result.NewPage(A4);
      var drawn := result.ShowPdfPage(newPage, bgDoc, 0);
      if !drawn {
        return Failure(NoTemplatePage);
      }
      drawn := result.ShowPdfPage(newPage, mainDoc, pageIndex);
      assert drawn;
    }
    if |mainDoc| > 0 {
      assert result.pages == Composited(mainDoc, bgDoc[0]);
    }
    return Success(Pdf(result.pages));
  }

  /** The overlay has exactly one page per main page, each layering background page 0 under main page i. */
  lemma OverlayPageByPage(main: seq<Page>, background: seq<Page>)
    requires |background| > 0
    ensures Overlaid(Pdf(main), Pdf(background)).Success?
    ensures var out := Overlaid(Pdf(main), Pdf(background)).value;
      out.Pdf? && |out.pages| == |main| &&
      forall i :: 0 <= i < |main| ==> out.pages[i] == Sheet(A4, [background[0], main[i]])
  {
  }

  /** Only page 0 of the background matters: backgrounds that agree on it give the same overlay. */
  lemma OverlayUsesOnlyFirstBackgroundPage(main: Stream, background1: seq<Page>, background2: seq<Page>)
    requires |background1| > 0 && |background2| > 0 && background1[0] == background2[0]
    ensures Overlaid(main, Pdf(background1)) == Overlaid(main, Pdf(background2))
  {
  }

  /** The overlay fails exactly when an input is not a PDF, or a main page needs a background page that is missing. */
  lemma OverlayFailsIff(main: Stream, background: Stream)
    ensures Overlaid(main, background).Failure? <==>
      main.Malformed? || background.Malformed? || (|main.pages| > 0 && |background.pages| == 0)
  {
  }

  // ---------------------------------------------------------------------------
  // Assembly

  /** The pages an optional upload contributes: none when it is absent. */
  function PagesOf(file: Option<Upload>, role: Role): Result<seq<Page>, Failure>
  {
    if file.None? then Success([]) else Open(file.value.stream, role)
  }

  /** The pages of the main document as merged: overlaid when a background is given, unchanged otherwise. */
  function EffectiveMain(main: Upload, background: Option<Upload>): Result<seq<Page>, Failure>
  {
    var mainData :- if background.Some? then Overlaid(main.stream, background.value.stream) else Success(main.stream);
    Open(mainData, Quotation)
  }

  /** What merge_pdfs produces: header pages, then the effective main pages, then footer pages. */
  function Merged(header: Option<Upload>, main: Upload, footer: Option<Upload>, background: Option<Upload>)
    : Result<Stream, Failure>
  {
    var head :- PagesOf(header, Header);
    var body :- EffectiveMain(main, background);
    var foot :- PagesOf(footer, Footer);
    Success(Pdf(head + body + foot))
  }

  /** merge_pdfs: grows one output document, the header and footer one page at a time. */
  method MergePdfs(header: Option<Upload>, main: Upload, footer: Option<Upload>, background: Option<Upload>)
    returns (r: Result<Stream, Failure>)
    ensures r == Merged(header, main, footer, background)
  {
    var merged := new PdfDocument.Empty();
    if header.Some? {
      var headDoc :- Open(header.value.stream, Header);
      for p := 0 to |headDoc|
        invariant merged.pages == headDoc[..p]
      {
        merged.InsertPage(headDoc, p);
      }
      assert headDoc[..|headDoc|] == headDoc;
    }
    ghost var head := merged.pages;
    assert PagesOf(header, Header) == Success(head);
    var mainData := main.stream;
    if background.Some? {
      mainData :- OverlayWithBackground(mainData, background.value.stream);
    }
    var mainDoc :- Open(mainData, Quotation);
    merged.InsertDocument(mainDoc);
    assert EffectiveMain(main, background) == Success(mainDoc);
    if footer.Some? {
      var footDoc :- Open(footer.value.stream, Footer);
      for p := 0 to |footDoc|
        invariant merged.pages == head + mainDoc + footDoc[..p]
      {
        merged.InsertPage(footDoc, p);
      }
      assert footDoc[..|footDoc|] == footDoc;
    } else {
      assert merged.pages == head + mainDoc + [];
    }
    return Success(Pdf(merged.pages));
  }

  /** Number of pages an optional upload has when it opens; 0 when it is absent. */
  function PageCount(file: Option<Upload>): nat
  {
    if file.None? || file.value.stream.Malformed? then 0 else |file.value.stream.pages|
  }

  /**
   * The pages the quotation contributes to a merge: as many as it has; without
   * a background they are its own pages, with one each is background page 0
   * under the quotation page.
   */
  lemma EffectiveMainPages(main: Upload, background: Option<Upload>)
    requires EffectiveMain(main, background).Success?
    ensures main.stream.Pdf?
    ensures |EffectiveMain(main, background).value| == |main.stream.pages|
    ensures background.None? ==> EffectiveMain(main, background).value == main.stream.pages
    ensures background.Some? && |main.stream.pages| > 0 ==>
      && background.value.stream.Pdf?
      && |background.value.stream.pages| > 0
      && forall i :: 0 <= i < |main.stream.pages| ==>
           EffectiveMain(main, background).value[i] == Sheet(A4, [background.value.stream.pages[0], main.stream.pages[i]])
  {
  }

  /**
   * A successful merge has header + quotation + footer pages in all, with or
   * without a background, laid out in that order with nothing reordered,
   * dropped or repeated.
   */
  lemma MergedLayout(header: Option<Upload>, main: Upload, footer: Option<Upload>, background: Option<Upload>)
    requires Merged(header, main, footer, background).Success?
    ensures EffectiveMain(main, background).Success?
    ensures var out := Merged(header, main, footer, background).value.pages;
      var h := PageCount(header);
      var m := PageCount(Some(main));
      && |out| == h + m + PageCount(footer)
      && out[..h] == (if header.Some? then header.value.stream.pages else [])
      && out[h..h + m] == EffectiveMain(main, background).value
      && out[h + m..] == (if footer.Some? then footer.value.stream.pages else [])
  {
  }

  /** With no background the quotation's pages go through unchanged. */
  lemma NoBackgroundKeepsMain(main: Upload)
    requires main.stream.Pdf?
    ensures Merged(None, main, None, None) == Success(main.stream)
  {
    assert [] + main.stream.pages + [] == main.stream.pages;
  }

  /** A merge fails exactly when a supplied file is not a PDF or the overlay lacks its template page. */
  lemma MergeFailsIff(header: Option<Upload>, main: Upload, footer: Option<Upload>, background: Option<Upload>)
    ensures Merged(header, main, footer, background).Failure? <==>
      || (header.Some? && header.value.stream.Malformed?)
      || main.stream.Malformed?
      || (background.Some? && background.value.stream.Malformed?)
      || (background.Some? && |main.stream.pages| > 0 && |background.value.stream.pages| == 0)
      || (footer.Some? && footer.value.stream.Malformed?)
  {
  }

  /**
   * Which failure a merge reports: the first problem met in the order the
   * uploads are opened (header, quotation, background, footer).
   */
  lemma MergeFailureKind(header: Option<Upload>, main: Upload, footer: Option<Upload>, background: Option<Upload>)
    ensures header.Some? && header.value.stream.Malformed? ==>
      Merged(header, main, footer, background) == Failure(ParseError(Header))
    ensures PagesOf(header, Header).Success? && main.stream.Malformed? ==>
      Merged(header, main, footer, background) == Failure(ParseError(Quotation))
    ensures PagesOf(header, Header).Success? && main.stream.Pdf? && background.Some? ==>
      && (background.value.stream.Malformed? ==>
            Merged(header, main, footer, background) == Failure(ParseError(Background)))
      && (background.value.stream.Pdf? && |main.stream.pages| > 0 && |background.value.stream.pages| == 0 ==>
            Merged(header, main, footer, background) == Failure(NoTemplatePage))
    ensures (PagesOf(header, Header).Success? && EffectiveMain(main, background).Success? &&
             footer.Some? && footer.value.stream.Malformed?) ==>
      Merged(header, main, footer, background) == Failure(ParseError(Footer))
  {
  }

  /** A one-page header, a two-page quotation and a one-page footer give [A0, B0, B1, C0]. */
  lemma FourPageExample(a0: Page, b0: Page, b1: Page, c0: Page, headerSize: nat, quotationSize: nat, footerSize: nat)
    ensures Merged(Some(Upload(headerSize, Pdf([a0]))), Upload(quotationSize, Pdf([b0, b1])),
                   Some(Upload(footerSize, Pdf([c0]))), None)
         == Success(Pdf([a0, b0, b1, c0]))
  {
    assert [a0] + [b0, b1] + [c0] == [a0, b0, b1, c0];
  }

  // ---------------------------------------------------------------------------
  // The "Generate Final PDF" button

  const DownloadFileName: string := "final_with_background.pdf"
  const DownloadMimeType: string := "application/pdf"

  /** Why the button did not run the merge. */
  datatype Refusal = NoQuotation | SizeLimitExceeded

  /** What pressing the button leads to; a failed merge never yields a partial download. */
  datatype Outcome =
    | Refused(reason: Refusal)
    | Downloaded(fileName: string, mimeType: string, data: Stream)
    | MergeFailed(error: Failure)

  /** The merge runs only with a quotation and with all four uploads within the size limit. */
  predicate ReadyToMerge(header: Option<Upload>, quotation: Option<Upload>, background: Option<Upload>, footer: Option<Upload>)
  {
    quotation.Some? && CheckSize(header) && CheckSize(quotation) && CheckSize(background) && CheckSize(footer)
  }

  /** The button handler: the missing-quotation check first, then the size check, then the merge. */
  method GenerateFinalPdf(header: Option<Upload>, quotation: Option<Upload>, background: Option<Upload>, footer: Option<Upload>)
    returns (outcome: Outcome)
    ensures quotation.None? ==> outcome == Refused(NoQuotation)
    ensures quotation.Some? && !ReadyToMerge(header, quotation, background, footer) ==> outcome == Refused(SizeLimitExceeded)
    ensures outcome.Refused? <==> !ReadyToMerge(header, quotation, background, footer)
    ensures ReadyToMerge(header, quotation, background, footer) ==>
      match Merged(header, quotation.value, footer, background)
      case Success(data) => outcome == Downloaded(DownloadFileName, DownloadMimeType, data)
      case Failure(e) => outcome == MergeFailed(e)
  {
    if quotation.None? {
      return Refused(NoQuotation);
    } else if !(CheckSize(header) && CheckSize(quotation) && CheckSize(background) && CheckSize(footer)) {
      return Refused(SizeLimitExceeded);
    }
    var finalPdf := MergePdfs(header, quotation.value, footer, background);
    match finalPdf
    case Success(data) => outcome := Downloaded(DownloadFileName, DownloadMimeType, data);
    case Failure(e) => outcome := MergeFailed(e);
  }

  /** Any one upload over the limit, the quotation included, keeps the merge from running. */
  lemma OversizedUploadBlocksMerge(header: Option<Upload>, quotation: Option<Upload>, background: Option<Upload>, footer: Option<Upload>, big: Upload)
    requires big.size > MaxUploadBytes
    requires Some(big) in [header, quotation, background, footer]
    ensures !ReadyToMerge(header, quotation, background, footer)
  {
  }
}
