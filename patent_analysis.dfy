/** backend/app/api/v1/endpoints/patent_analysis.py: pulling the text out of an uploaded
    PDF and the two endpoints that send it to the language model. pdfplumber is foreign:
    a PDF is the list of what `page.extract_text()` gives for each page (`None` for a page
    without text), or the message of the exception opening or reading it raises. The temp
    file and its removal are not modelled. */
module PatentAnalysis {
  import opened Wrappers
  import opened Json
  import opened Strings
  import Files
  import AiService

  datatype Pdf = Pages(pages: seq<Option<string>>) | Unreadable(message: string)

  /** A page whose text counts: `if text:`. */
  predicate HasText(page: Option<string>) {
    page.Some? && page.value != []
  }

  /** The texts of the pages that have one, in page order. */
  function PageTexts(pages: seq<Option<string>>): (r: seq<string>)
    ensures |r| <= |pages|
    ensures forall t :: t in r ==> t != []
  {
    if pages == [] then []
    else PageTexts(pages[..|pages| - 1]) + (if HasText(pages[|pages| - 1]) then [pages[|pages| - 1].value] else [])
  }

  /** Page texts of a document in two parts are those of the first part, then the second. */
  lemma {:induction false} PageTextsAppend(a: seq<Option<string>>, b: seq<Option<string>>)
    ensures PageTexts(a + b) == PageTexts(a) + PageTexts(b)
    decreases |b|
  {
    if b == [] {
      assert a + b == a;
    } else {
      var b' := b[..|b| - 1];
      assert (a + b)[..|a + b| - 1] == a + b';
      PageTextsAppend(a, b');
    }
  }

  /** A page is kept exactly when it has text. */
  lemma PageTextsOfOne(page: Option<string>)
    ensures PageTexts([page]) == (if HasText(page) then [page.value] else [])
  {
    assert [page][..0] == [];
  }

  /** Pages without text add nothing; when every page has text, all of them are kept. */
  lemma {:induction false} PageTextsAllText(pages: seq<Option<string>>)
    requires forall i :: 0 <= i < |pages| ==> HasText(pages[i])
    ensures |PageTexts(pages)| == |pages|
    ensures forall i :: 0 <= i < |pages| ==> pages[i].Some? && PageTexts(pages)[i] == pages[i].value
  {
    if pages != [] {
      PageTextsAllText(pages[..|pages| - 1]);
    }
  }

  const PageSeparator := "\n\n"

  /** `extract_text_from_pdf`'s loop: the texts of the pages that have one, collected in
      page order and joined by a blank line. */
  method ExtractText(pages: seq<Option<string>>) returns (text: string)
    ensures text == Join(PageTexts(pages), PageSeparator)
  {
    var textContent: seq<string> := [];
    var i := 0;
    while i < |pages|
      invariant 0 <= i <= |pages|
      invariant textContent == PageTexts(pages[..i])
    {
      var page := pages[i];
      assert pages[..i + 1] == pages[..i] + [page];
      PageTextsAppend(pages[..i], [page]);
      PageTextsOfOne(page);
      if page.Some? && page.value != [] {
        textContent := textContent + [page.value];
      }
      i := i + 1;
    }
    assert pages[..i] == pages;
    text := Join(textContent, PageSeparator);
  }

  /** `filename.lower().endswith('.pdf')`. */
  predicate IsPdfName(filename: string) {
    EndsWith(ToLower(filename), ".pdf")
  }

  const MaxPatentBytes := 50 * 1024 * 1024

  /** The prefix of the exception `extract_text_from_pdf` raises, which the endpoint puts
      in front of its message once more. */
  const ExtractFailure := "Failed to extract text from PDF: "

  /** Under 100 characters once stripped (which includes the empty text). */
  predicate TooLittleText(text: string) {
    text == [] || |PyStrip(text)| < 100
  }

  /** What `analyze_patent_pdf` returns. */
  datatype AnalysisResult = AnalysisResult(
    filename: string,
    patentNumber: Option<string>,
    fileSize: nat,
    extractedTextLength: nat,
    analysis: Json)

  /** `analyze_patent_pdf` once the text is out of the PDF: too little text is a 400, a
      failed analysis a 500; a success echoes the upload and the number, with the length
      of the whole text. */
  function AnalyzeText(file: Files.Upload, text: string, patentNumber: Option<string>,
                       llm: AiService.AnalysisPrompt -> AiService.Call<string>, loads: string -> Option<Json>): (r: Outcome<AnalysisResult>)
    ensures TooLittleText(text) ==>
      r == Fail(BadRequest, "Could not extract sufficient text from PDF. Please ensure the PDF contains readable text.")
    ensures r.Ok? <==> !TooLittleText(text) && llm(AiService.AnalysisPromptFor(text, patentNumber)).Returned?
    ensures !TooLittleText(text) && r.Fail? ==>
      var reply := llm(AiService.AnalysisPromptFor(text, patentNumber));
      reply.Raised? && r == Fail(ServerError, "AI analysis failed: " + ("Patent analysis failed: " + reply.message))
    ensures r.Ok? ==>
      r.value.filename == file.filename && r.value.patentNumber == patentNumber && r.value.fileSize == file.size
      && r.value.extractedTextLength == |text|
      && AiService.AnalyzePatent(llm(AiService.AnalysisPromptFor(text, patentNumber)), loads) == AiService.Returned(r.value.analysis)
  {
    if TooLittleText(text) then
      Fail(BadRequest, "Could not extract sufficient text from PDF. Please ensure the PDF contains readable text.")
    else
      match AiService.AnalyzePatent(llm(AiService.AnalysisPromptFor(text, patentNumber)), loads)
      case Raised(message) => Fail(ServerError, "AI analysis failed: " + message)
      case Returned(analysis) => Ok(AnalysisResult(file.filename, patentNumber, file.size, |text|, analysis))
  }

  /** `analyze_patent_pdf`'s answer: the checks of the upload, then the text the pages
      yield. */
  function Analysis(file: Files.Upload, pdf: Pdf, patentNumber: Option<string>,
                    llm: AiService.AnalysisPrompt -> AiService.Call<string>, loads: string -> Option<Json>): Outcome<AnalysisResult>
  {
    if !IsPdfName(file.filename) then Fail(BadRequest, "Only PDF files are supported")
    else if file.size > MaxPatentBytes then Fail(BadRequest, "File too large. Maximum size is 50MB")
    else if pdf.Unreadable? then
      Fail(ServerError, ExtractFailure + (ExtractFailure + pdf.message))
    else AnalyzeText(file, Join(PageTexts(pdf.pages), PageSeparator), patentNumber, llm, loads)
  }

  /** The checks of `analyze_patent_pdf`, in order: the name must end in ".pdf" in any
      case (400); the file may be at most 50 MiB (400); an unreadable PDF is a 500 whose
      detail carries the prefix twice, once from `extract_text_from_pdf` and once from the
      endpoint; after that the joined text of the pages decides. */
  lemma AnalysisLaws(file: Files.Upload, pdf: Pdf, patentNumber: Option<string>,
                     llm: AiService.AnalysisPrompt -> AiService.Call<string>, loads: string -> Option<Json>)
    ensures !IsPdfName(file.filename) ==> Analysis(file, pdf, patentNumber, llm, loads) == Fail(BadRequest, "Only PDF files are supported")
    ensures IsPdfName(file.filename) && file.size > MaxPatentBytes ==>
      Analysis(file, pdf, patentNumber, llm, loads) == Fail(BadRequest, "File too large. Maximum size is 50MB")
    ensures IsPdfName(file.filename) && file.size <= MaxPatentBytes && pdf.Unreadable? ==>
      Analysis(file, pdf, patentNumber, llm, loads)
      == Fail(ServerError, ExtractFailure + ExtractFailure + pdf.message)
    ensures IsPdfName(file.filename) && file.size <= MaxPatentBytes && pdf.Pages? ==>
      Analysis(file, pdf, patentNumber, llm, loads) == AnalyzeText(file, Join(PageTexts(pdf.pages), PageSeparator), patentNumber, llm, loads)
  {
    if pdf.Unreadable? {
      assert ExtractFailure + (ExtractFailure + pdf.message) == ExtractFailure + ExtractFailure + pdf.message;
    }
  }

  /** `analyze_patent_pdf`: the checks, the extraction loop over the pages, the analysis. */
  method AnalyzePatentPdf(file: Files.Upload, pdf: Pdf, patentNumber: Option<string>,
                          llm: AiService.AnalysisPrompt -> AiService.Call<string>, loads: string -> Option<Json>)
    returns (r: Outcome<AnalysisResult>)
    ensures r == Analysis(file, pdf, patentNumber, llm, loads)
  {
    if !IsPdfName(file.filename) {
      return Fail(BadRequest, "Only PDF files are supported");
    }
    if file.size > MaxPatentBytes {
      return Fail(BadRequest, "File too large. Maximum size is 50MB");
    }
    if pdf.Unreadable? {
      return Fail(ServerError, ExtractFailure + (ExtractFailure + pdf.message));
    }
    var text := ExtractText(pdf.pages);
    return AnalyzeText(file, text, patentNumber, llm, loads);
  }

  /** The first five pages (`pdf.pages[:5]`). */
  function FirstPages(pages: seq<Option<string>>): (r: seq<Option<string>>)
    ensures |r| <= 5 && |r| <= |pages| && r == pages[..|r|]
    ensures |pages| <= 5 ==> r == pages
  {
    if |pages| <= 5 then pages else pages[..5]
  }

  /** `text_content[:5000]`. */
  function SummaryExcerpt(text: string): (r: string)
    ensures |r| <= 5000 && |r| <= |text| && r == text[..|r|]
    ensures |text| <= 5000 ==> r == text
  {
    if |text| <= 5000 then text else text[..5000]
  }

  /** The transcript the quick summary sends. */
  function SummaryRequest(text: string): string {
    "Patent Document:\n\n" + SummaryExcerpt(text)
  }

  datatype QuickSummary = QuickSummary(filename: string, summary: string)

  /** `quick_patent_summary`: the name check (400); no size limit; only the first five
      pages are read and their joined text must not be too short (400); the summary
      request holds at most the first 5000 characters. A PDF that cannot be read is not
      caught, so FastAPI answers 500. `summarizer` is the model's reply to the request. */
  method QuickPatentSummary(file: Files.Upload, pdf: Pdf, provider: AiService.Provider,
                            summarizer: string -> AiService.Call<string>)
    returns (r: Outcome<QuickSummary>)
    ensures !IsPdfName(file.filename) ==> r == Fail(BadRequest, "Only PDF files are supported")
    ensures IsPdfName(file.filename) && pdf.Unreadable? ==> r == Fail(ServerError, "Internal Server Error")
    ensures IsPdfName(file.filename) && pdf.Pages? ==>
      var text := Join(PageTexts(FirstPages(pdf.pages)), PageSeparator);
      (TooLittleText(text) ==> r == Fail(BadRequest, "Could not extract text from PDF"))
      && (!TooLittleText(text) ==>
            r == Ok(QuickSummary(file.filename, AiService.Summarize(provider, summarizer(SummaryRequest(text))))))
  {
    if !IsPdfName(file.filename) {
      return Fail(BadRequest, "Only PDF files are supported");
    }
    if pdf.Unreadable? {
      return Fail(ServerError, "Internal Server Error");
    }
    var text := ExtractText(FirstPages(pdf.pages));
    if text == [] || |PyStrip(text)| < 100 {
      return Fail(BadRequest, "Could not extract text from PDF");
    }
    var summary := AiService.Summarize(provider, summarizer("Patent Document:\n\n" + SummaryExcerpt(text)));
    return Ok(QuickSummary(file.filename, summary));
  }

  /** Pages after the fifth never reach the quick summary. */
  lemma QuickSummaryIgnoresLaterPages(pages: seq<Option<string>>, more: seq<Option<string>>)
    requires |pages| >= 5
    ensures PageTexts(FirstPages(pages + more)) == PageTexts(FirstPages(pages))
  {
    assert (pages + more)[..5] == pages[..5];
  }

  /** A text of at most 5000 characters is sent whole. */
  lemma SummaryRequestWhole(text: string)
    requires |text| <= 5000
    ensures SummaryRequest(text) == "Patent Document:\n\n" + text
  {
  }
}
