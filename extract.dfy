/** The two text extractors. The imaging, OCR and PDF libraries are not modelled:
    what they do to a given upload is described by the outcome of each step,
    and the extractors turn every failure into the empty string. */
module Extract {
  import opened Wrappers
  import opened Text

  /** The raw bytes of an uploaded file. */
  type Blob = seq<bv8>

  /** `extract_text_from_image`: the text the OCR engine recognised after the
      image was opened, or "" when opening or recognition raised. */
  function ImageText(ocr: Result<string>): (text: string)
    ensures ocr.Err? ==> text == ""
    ensures ocr.Ok? ==> text == ocr.value
  {
    match ocr
    case Ok(recognised) => recognised
    case Err(_) => ""
  }

  /** What happens, step by step, when `extract_text_from_pdf` handles one
      upload: copying it into a named temporary file, opening that file as a
      document (which yields, page by page, the outcome of `get_text`), and
      unlinking the file. */
  datatype PdfRun = PdfRun(copy: Step, document: Result<seq<Result<string>>>, unlink: Step)

  predicate AllPagesRead(pages: seq<Result<string>>)
  {
    forall i :: 0 <= i < |pages| ==> pages[i].Ok?
  }

  function PageTexts(pages: seq<Result<string>>): seq<string>
    requires AllPagesRead(pages)
  {
    seq(|pages|, i requires 0 <= i < |pages| => pages[i].value)
  }

  /** No step of the run raised. */
  predicate Succeeds(run: PdfRun)
  {
    run.copy.Completed? && run.document.Ok? && AllPagesRead(run.document.value) && run.unlink.Completed?
  }

  /** The text `extract_text_from_pdf` returns for a run. */
  function PdfText(run: PdfRun): string
  {
    if Succeeds(run) then Concat(PageTexts(run.document.value)) else ""
  }

  /** `extract_text_from_pdf`: accumulates `text += page.get_text()` over the
      pages in order; any exception on the way yields "". */
  method ExtractPdf(run: PdfRun) returns (text: string)
    ensures text == PdfText(run)
  {
    if run.copy.Raised? {
      return "";
    }
    if run.document.Err? {
      return "";
    }
    var pages := run.document.value;
    text := "";
    var i := 0;
    while i < |pages|
      invariant 0 <= i <= |pages|
      invariant AllPagesRead(pages[..i])
      invariant text == Concat(PageTexts(pages[..i]))
    {
      if pages[i].Err? {
        assert !AllPagesRead(pages);
        return "";
      }
      assert PageTexts(pages[..i + 1]) == PageTexts(pages[..i]) + [pages[i].value];
      ConcatAppend(PageTexts(pages[..i]), pages[i].value);
      text := text + pages[i].value;
      i := i + 1;
    }
    assert pages[..i] == pages;
    if run.unlink.Raised? {
      return "";
    }
  }

  /** A successful run yields every page's text, unchanged, in page order:
      page `k` starts where the pages before it end. */
  lemma PdfPageOrder(run: PdfRun, k: nat)
    requires Succeeds(run) && k < |run.document.value|
    ensures var texts := PageTexts(run.document.value);
      var start := |Concat(texts[..k])|;
      start + |texts[k]| <= |PdfText(run)| && PdfText(run)[start..start + |texts[k]|] == texts[k]
  {
    ConcatSlice(PageTexts(run.document.value), k);
  }

  /** Splitting a document's pages in two splits its text the same way. */
  lemma PdfTextSplit(copy: Step, front: seq<Result<string>>, back: seq<Result<string>>, unlink: Step)
    requires copy.Completed? && unlink.Completed? && AllPagesRead(front) && AllPagesRead(back)
    ensures PdfText(PdfRun(copy, Ok(front + back), unlink))
         == PdfText(PdfRun(copy, Ok(front), unlink)) + PdfText(PdfRun(copy, Ok(back), unlink))
  {
    assert PageTexts(front + back) == PageTexts(front) + PageTexts(back);
    ConcatSplit(PageTexts(front), PageTexts(back));
  }

  /** A page whose text cannot be read empties the whole result, even when
      every other page was read. */
  lemma UnreadablePageEmptiesText(run: PdfRun, k: nat)
    requires run.document.Ok? && k < |run.document.value| && run.document.value[k].Err?
    ensures PdfText(run) == ""
  {
  }
}
