# AI-MathGemini feedback pipeline, modelled in Dafny

The application takes a student's math answer as an image or a PDF, extracts its
text, gathers optional grading criteria (a criteria document plus five labelled
form fields), builds a prompt and asks a Gemini model for pedagogical feedback.
All of it lives in `app.py`. This project models the decisions that file makes:

- `allowed_file`: the extension after the last dot, lowercased, must be png, jpg,
  jpeg or pdf (`upload.dfy`, module `Upload`);
- the two extractors and their "any failure gives the empty string" policy
  (`extract.dfy`, module `Extract`); the PDF extractor's `text += page.get_text()`
  loop is a method proved against a specification function;
- the loop that appends one `"\n<field>: <value>"` line per present, non-empty
  form field (`criteria.dfy`, module `Criteria`), again a method with a loop
  invariant tying it to a specification function;
- the system and user prompt strings (`prompt.dfy`, module `Prompt`), with the
  Korean literals kept verbatim, indentation included;
- the wrapping of a model failure into a fixed error prefix plus the error's
  description (`provider.dfy`, module `Provider`);
- the `analyze` request handler (`pipeline.dfy`, module `Pipeline`): the three
  400 rejections, the dispatch on the extension, criteria aggregation, the model
  call, and the trace of library calls it makes, so that "rejected before any
  extraction or model call" is a postcondition.

`text.dfy` (concatenation of a list of strings, ASCII lowercasing) and
`wrappers.dfy` (`Option`, `Result`, `Step`) are shared helpers.

The imaging, OCR, PDF and Gemini libraries are parameters: a `Libraries` value
gives, for each input, the outcome the library produces (`Result` for OCR and
the chat, a `PdfRun` listing the outcome of each step of the PDF extractor).
Every exception is an `Err`/`Raised` value carrying its description.

Behaviour of the code that a reader may not expect, and that the model keeps:

- the criteria document is not checked for a PDF extension: any criteria file
  with a non-empty name goes through the PDF extractor (`app.py:119-122`);
- a whitespace-only field value is non-empty and is included (`app.py:127`);
- every field line starts with a newline, including the first one when there is
  no criteria document (`app.py:128`), rather than lines joined by newlines;
- the temporary file of the PDF extractor is removed only when extraction
  succeeds (`app.py:47`); no cleanup property is claimed.

## Model

| member | source | states |
|---|---|---|
| `Upload.LastDot` | app.py:23-24 | the index found is a dot with no dot after it; there is none exactly when the name has no dot |
| `Upload.AfterLastDot` | app.py:24 | `rsplit('.', 1)[1]` is the dot-free suffix that directly follows a dot |
| `Upload.AfterLastDotUnique` | app.py:24 | for any `stem + "." + ext` with a dot-free `ext`, the extension taken is exactly `ext` |
| `Upload.AllowedFile` | app.py:22-24 | `allowed_file`: a name without a dot is refused, and an accepted name's extension after its last dot is three or four characters long |
| `Upload.AllowedFileIff` | app.py:20-24 | a name is accepted exactly when it is `stem.ext` with a dot-free `ext` that lowercases to png, jpg, jpeg or pdf |
| `Upload.CaseInsensitive` | app.py:22-24 | two names that lowercase alike get the same verdict |
| `Upload.RejectedExamples` | app.py:22-24 | a name without a dot (`answer`) and `answer.txt` are refused |
| `Upload.UpperCaseAccepted` | app.py:22-24 | `A.PDF` is accepted |
| `Upload.LastExtensionCounts` | app.py:24 | only the part after the last dot counts: `scan.v2.Jpeg` is accepted |
| `Upload.TrailingDotRejected` | app.py:24 | a trailing dot leaves an empty extension: `answer.png.` is refused |
| `Upload.PngAccepted` | app.py:103-109 | `answer.png` is accepted and its extension `png` is routed to the image extractor |
| `Upload.FileExtension` | app.py:105 | `file_ext` is the lowercased dot-free suffix that directly follows the name's last dot |
| `Upload.Dispatch` | app.py:105-113 | png/jpg/jpeg go to the image extractor, pdf to the PDF extractor, and the "unsupported format" branch is taken exactly for extensions outside the allowed set |
| `Extract.ImageText` | app.py:26-33 | the OCR text is returned as recognised; any failure of opening or recognition gives "" |
| `Extract.ExtractPdf` | app.py:35-51 | the loop returns the concatenation of the page texts in page order when no step raised, and "" when copying, opening, reading any page or unlinking raised |
| `Extract.PdfPageOrder` | app.py:41-44 | in a successful run each page's text appears unchanged, starting where the earlier pages' texts end |
| `Extract.PdfTextSplit` | app.py:41-44 | the text of pages `front + back` is the text of `front` followed by the text of `back` |
| `Extract.UnreadablePageEmptiesText` | app.py:42-51 | one unreadable page empties the whole result |
| `Criteria.FieldLine` | app.py:127-128 | a field adds a line exactly when the form carries it with a non-empty value |
| `Criteria.FieldLineShape` | app.py:128 | that line is a newline, the field name, `": "` and the value verbatim |
| `Criteria.FieldTextStep` | app.py:126-128 | visiting one more field appends that field's line after the text of the fields before it |
| `Criteria.AppendFieldLines` | app.py:124-128 | the loop appends to the criteria so far exactly the lines of the present, non-empty fields, in field order |
| `Criteria.FieldTextEmptyIff` | app.py:126-128 | the fields add nothing exactly when each is absent or empty |
| `Criteria.FieldOrder` | app.py:125-128 | each field's `"\n<field>: <value>"` line appears verbatim at its position, and an earlier field's line ends before a later field's begins |
| `Criteria.OtherKeysIgnored` | app.py:125-127 | form keys other than the five labels make no difference |
| `Criteria.EmptyFieldLikeAbsent` | app.py:127 | a field sent empty contributes the same as a field not sent |
| `Criteria.AggregationExample` | app.py:125-128 | `A`, empty, `R`, absent, `" "` give the achievement-standard, routine and other lines in that order, the whitespace-only value included |
| `Prompt.BuildPrompt` | app.py:61-74 | the system framing is the constant; the user prompt starts with the answer block holding the problem text verbatim; it has no more when the criteria are empty, and otherwise exactly one criteria block holding the criteria text verbatim |
| `Prompt.CriteriaAddsOneBlock` | app.py:63-74 | going from empty to non-empty criteria leaves the system framing and the answer block unchanged and appends one criteria block |
| `Prompt.ProblemDeterminedByPrompt` | app.py:63-68 | for fixed criteria, equal prompts mean equal problem texts |
| `Prompt.CriteriaDeterminedByPrompt` | app.py:70-74 | for a fixed problem text, equal prompts mean equal criteria texts |
| `Provider.Feedback` | app.py:84-87 | a reply is returned verbatim; a failure gives the error prefix followed by the error's description |
| `Provider.GetFeedback` | app.py:53-87 | the model receives the built prompt, and its reply or its wrapped error is the result |
| `Provider.ErrorDescriptionRecoverable` | app.py:85-87 | different error descriptions give different texts |
| `Provider.FailureIndistinguishable` | app.py:84-87 | a reply that starts with the error prefix reads exactly like a failure |
| `Pipeline.Analyze` | app.py:93-135 | a missing file, an empty file name or a disallowed extension gives the matching 400 message with no library call; otherwise the problem file is extracted by the extractor its extension selects, the criteria document (if named) by the PDF extractor, the model is called once with the built prompt, and its text is the 200 body |
| `Pipeline.CriteriaDocumentText` | app.py:118-122 | without a named criteria file the document contributes ""; with one, its text is what the PDF extractor returns, whatever the extension, and it is non-empty only when that extraction succeeded |
| `Pipeline.CriteriaTextShape` | app.py:116-128 | the criteria document's text is a prefix of the criteria, the field lines follow it, and the criteria are empty exactly when the document gave nothing and every field is absent or empty |
| `Pipeline.PngScenario` | app.py:103-133 | a PNG reading "2+2=4" with no criteria gives the constant system framing and a single answer block with "2+2=4" |
| `Pipeline.TxtRejected` | app.py:103-135 | a `.txt` upload is not accepted, so it is rejected before any call |
| `Pipeline.CriteriaDocumentAnyExtension` | app.py:118-122 | a criteria file named `rubric.png` still goes through the PDF extractor |

## Left out

- script.js: the browser form, the `fetch` call and the markdown-to-HTML rendering are presentation.
- Image decoding, Tesseract OCR (`kor+eng`), PyMuPDF and the Gemini client are not modelled; only the outcome each gives for its input is.
- The Gemini model name, `temperature=0.0`, the chat history layout and `genai.configure` with the API key are client configuration; the model sees them only as the `Payload` pair.
- Temporary-file creation and deletion are filesystem effects; the model keeps only whether each step raised, which decides the returned text.
- Closing the PyMuPDF document at the end of the `with` block is not a separate step.
- Flask routing, `render_template`, `print` logging and the `PORT` variable are hosting plumbing.
- `Text.Lower` lowercases ASCII letters only; Python's `str.lower()` also maps other letters, but none of them to p, n, g, j, e, d or f, so the verdict of `allowed_file` is the same.
- A form key sent several times is modelled by its first value, which is what `request.form[field]` reads.
- `Criteria.AppendFieldLines` takes the list of field names as a parameter; `Pipeline.Analyze` passes the fixed five.
- The `criteria_text=None` default of `get_feedback_from_ai` is never used by `analyze` and is not modelled.
