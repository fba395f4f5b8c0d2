/** The `/analyze` request handler: classify the upload, extract its text,
    aggregate the criteria, ask the model, answer with its text. */
module Pipeline {
  import opened Wrappers
  import opened Upload
  import opened Extract
  import opened Criteria
  import opened Prompt
  import opened Provider

  /** Keys of the two file fields of the multipart form. */
  const ProblemKey: string := "problem-answer"
  const CriteriaKey: string := "feedback-criteria"

  /** The rejection bodies, each sent with status 400. */
  const MissingFileMessage: string := "문제 및 답안 파일이 없습니다"
  const NoSelectedFileMessage: string := "선택된 파일이 없습니다"
  const UnsupportedFormatMessage: string := "지원하지 않는 파일 형식입니다"
  const ProcessingErrorMessage: string := "처리 중 오류가 발생했습니다"

  datatype FileUpload = FileUpload(filename: string, content: Blob)

  /** `request.files` and `request.form` (the first value of each form key). */
  datatype Request = Request(files: map<string, FileUpload>, form: map<string, string>)

  /** A Flask response: a plain-text body and its status (200 for a bare string). */
  datatype Response = Response(status: int, body: string)

  /** The libraries the handler relies on, as the outcome each gives for its
      input: Pillow and Tesseract for an image, the temporary file and PyMuPDF
      for a PDF, and the Gemini chat for a prompt. */
  datatype Libraries = Libraries(
    ocr: Blob -> Result<string>,
    pdf: Blob -> PdfRun,
    chat: Payload -> Result<string>)

  /** A call into one of the libraries, in the order the handler makes it. */
  datatype Call = ImageExtraction(image: Blob) | PdfExtraction(document: Blob) | ModelCall(prompt: Payload)

  /** The upload passes every check of `analyze` and reaches extraction. */
  predicate Accepted(req: Request)
  {
    ProblemKey in req.files && AllowedFile(req.files[ProblemKey].filename)
  }

  /** `problem_text` for an accepted upload. */
  function ProblemText(upload: FileUpload, lib: Libraries): string
    requires AllowedFile(upload.filename)
  {
    match Dispatch(FileExtension(upload.filename))
    case ImageRoute => ImageText(lib.ocr(upload.content))
    case PdfRoute => PdfText(lib.pdf(upload.content))
    case UnsupportedRoute => ""
  }

  function ProblemCall(upload: FileUpload): Call
    requires AllowedFile(upload.filename)
  {
    if Dispatch(FileExtension(upload.filename)) == ImageRoute then ImageExtraction(upload.content)
    else PdfExtraction(upload.content)
  }

  /** A criteria document was sent with a non-empty file name. */
  predicate HasCriteriaDocument(req: Request)
  {
    CriteriaKey in req.files && req.files[CriteriaKey].filename != ""
  }

  /** The criteria document's text: whatever its extension, it goes through
      the PDF extractor; there is text only when a document was named and its
      extraction succeeded. */
  function CriteriaDocumentText(req: Request, lib: Libraries): (text: string)
    ensures !HasCriteriaDocument(req) ==> text == ""
    ensures text != "" ==> HasCriteriaDocument(req) && Succeeds(lib.pdf(req.files[CriteriaKey].content))
    ensures HasCriteriaDocument(req) ==> text == PdfText(lib.pdf(req.files[CriteriaKey].content))
  {
    if HasCriteriaDocument(req) then PdfText(lib.pdf(req.files[CriteriaKey].content)) else ""
  }

  /** `criteria_text` as the handler passes it to the model. */
  function CriteriaText(req: Request, lib: Libraries): string
  {
    CriteriaDocumentText(req, lib) + FieldText(req.form, FormFields)
  }

  function CriteriaCalls(req: Request): seq<Call>
  {
    if HasCriteriaDocument(req) then [PdfExtraction(req.files[CriteriaKey].content)] else []
  }

  /** The prompt the model receives for an accepted request. */
  function PromptFor(req: Request, lib: Libraries): Payload
    requires Accepted(req)
  {
    BuildPrompt(ProblemText(req.files[ProblemKey], lib), CriteriaText(req, lib))
  }

  /** `analyze()`: returns the response and the library calls made on the way.
      A request is rejected with status 400 before any call when the problem
      file is missing, has an empty name or has a disallowed extension;
      otherwise the problem file and the criteria document (if any) are
      extracted, the model is called once, and its text is the 200 body. */
  method Analyze(req: Request, lib: Libraries) returns (resp: Response, calls: seq<Call>)
    ensures ProblemKey !in req.files ==> resp == Response(400, MissingFileMessage) && calls == []
    ensures ProblemKey in req.files && req.files[ProblemKey].filename == "" ==>
      resp == Response(400, NoSelectedFileMessage) && calls == []
    ensures ProblemKey in req.files && req.files[ProblemKey].filename != "" && !Accepted(req) ==>
      resp == Response(400, ProcessingErrorMessage) && calls == []
    ensures Accepted(req) ==>
      resp == Response(200, Feedback(lib.chat(PromptFor(req, lib))))
      && calls == [ProblemCall(req.files[ProblemKey])] + CriteriaCalls(req) + [ModelCall(PromptFor(req, lib))]
    ensures resp.status == 200 <==> Accepted(req)
    ensures resp.status == 400 <==> calls == []
  {
    calls := [];
    if ProblemKey !in req.files {
      return Response(400, MissingFileMessage), calls;
    }
    var file := req.files[ProblemKey];
    if file.filename == "" {
      return Response(400, NoSelectedFileMessage), calls;
    }
    if AllowedFile(file.filename) {
      var ext := FileExtension(file.filename);
      var problemText: string;
      if ext in ["png", "jpg", "jpeg"] {
        assert Dispatch(ext) == ImageRoute;
        problemText := ImageText(lib.ocr(file.content));
        calls := calls + [ImageExtraction(file.content)];
      } else if ext == "pdf" {
        assert Dispatch(ext) == PdfRoute;
        problemText := ExtractPdf(lib.pdf(file.content));
        calls := calls + [PdfExtraction(file.content)];
      } else {
        assert false;
        return Response(400, UnsupportedFormatMessage), calls;
      }
      assert problemText == ProblemText(file, lib);
      assert calls == [ProblemCall(file)];

      var criteriaText := "";
      if CriteriaKey in req.files {
        var criteriaFile := req.files[CriteriaKey];
        if criteriaFile.filename != "" {
          var documentText := ExtractPdf(lib.pdf(criteriaFile.content));
          criteriaText := criteriaText + documentText;
          calls := calls + [PdfExtraction(criteriaFile.content)];
        }
      }
      assert criteriaText == CriteriaDocumentText(req, lib);
      assert calls == [ProblemCall(file)] + CriteriaCalls(req);
      criteriaText := AppendFieldLines(criteriaText, req.form, FormFields);
      assert criteriaText == CriteriaText(req, lib);

      var prompt := BuildPrompt(problemText, criteriaText);
      calls := calls + [ModelCall(prompt)];
      var feedback := GetFeedback(problemText, criteriaText, lib.chat);
      return Response(200, feedback), calls;
    }
    return Response(400, ProcessingErrorMessage), calls;
  }

  /** The criteria document's text comes first and the field lines follow it;
      the criteria are empty, so that the prompt carries no criteria block,
      exactly when the document gave no text and every field is absent or empty. */
  lemma CriteriaTextShape(req: Request, lib: Libraries)
    ensures CriteriaDocumentText(req, lib) <= CriteriaText(req, lib)
    ensures CriteriaText(req, lib)[|CriteriaDocumentText(req, lib)|..] == FieldText(req.form, FormFields)
    ensures CriteriaText(req, lib) == "" <==>
      CriteriaDocumentText(req, lib) == ""
      && forall i :: 0 <= i < |FormFields| ==> FormFields[i] !in req.form || req.form[FormFields[i]] == ""
  {
    FieldTextEmptyIff(req.form, FormFields);
  }

  /** A PNG upload whose image reads "2+2=4", with no criteria: the model gets
      the fixed system framing and one answer block holding "2+2=4". */
  lemma PngScenario(lib: Libraries, image: Blob)
    requires lib.ocr(image) == Ok("2+2=4")
    ensures var req := Request(map[ProblemKey := FileUpload("answer.png", image)], map[]);
      Accepted(req) && PromptFor(req, lib) == Payload(SystemPrompt, AnswerBlock("2+2=4"))
  {
    var upload := FileUpload("answer.png", image);
    var req := Request(map[ProblemKey := upload], map[]);
    PngAccepted();
    assert req.files[ProblemKey] == upload;
    assert ProblemText(upload, lib) == ImageText(Ok("2+2=4"));
    assert !HasCriteriaDocument(req);
    FieldTextEmptyIff(map[], FormFields);
    assert CriteriaText(req, lib) == "";
    assert PromptFor(req, lib) == BuildPrompt("2+2=4", "");
  }

  /** A `.txt` upload is not accepted, so `Analyze` rejects it before any call. */
  lemma TxtRejected(content: Blob, form: map<string, string>)
    ensures !Accepted(Request(map[ProblemKey := FileUpload("answer.txt", content)], form))
  {
    RejectedExamples();
  }

  /** The criteria document is read through the PDF extractor whatever its
      extension: an image sent as criteria is not skipped. */
  lemma CriteriaDocumentAnyExtension(req: Request, lib: Libraries)
    requires CriteriaKey in req.files && req.files[CriteriaKey].filename == "rubric.png"
    ensures CriteriaDocumentText(req, lib) == PdfText(lib.pdf(req.files[CriteriaKey].content))
    ensures CriteriaCalls(req) == [PdfExtraction(req.files[CriteriaKey].content)]
  {
  }
}
