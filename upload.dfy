/** Classification of the uploaded problem file by its extension
    (`allowed_file` and the dispatch inside `analyze`). */
module Upload {
  import opened Wrappers
  import opened Text

  /** `ALLOWED_EXTENSIONS`. */
  const AllowedExtensions: set<string> := {"png", "jpg", "jpeg", "pdf"}

  /** Index of the last '.' in `s`, if any. */
  function LastDot(s: string): (r: Option<nat>)
    ensures r.None? <==> '.' !in s
    ensures r.Some? ==> r.value < |s| && s[r.value] == '.'
    ensures r.Some? ==> forall j :: r.value < j < |s| ==> s[j] != '.'
  {
    if s == [] then None
    else if s[|s| - 1] == '.' then Some(|s| - 1)
    else LastDot(s[..|s| - 1])
  }

  /** `s.rsplit('.', 1)[1]`: the dot-free suffix that follows the last dot. */
  function AfterLastDot(s: string): (ext: string)
    requires '.' in s
    ensures |ext| < |s| && s[|s| - |ext| - 1] == '.'
    ensures s[|s| - |ext|..] == ext && '.' !in ext
  {
    s[LastDot(s).value + 1..]
  }

  /** `allowed_file(filename)`. An accepted name has a dot, and the extension
      after its last dot is three or four characters long. */
  predicate AllowedFile(filename: string)
    ensures '.' !in filename ==> !AllowedFile(filename)
    ensures AllowedFile(filename) ==> '.' in filename && 3 <= |AfterLastDot(filename)| <= 4
  {
    '.' in filename && Lower(AfterLastDot(filename)) in AllowedExtensions
  }

  /** A suffix that follows a dot and holds no dot is the one `rsplit` finds. */
  lemma AfterLastDotUnique(stem: string, ext: string)
    requires '.' !in ext
    ensures '.' in stem + "." + ext
    ensures AfterLastDot(stem + "." + ext) == ext
  {
    var s := stem + "." + ext;
    assert s[|stem|] == '.';
    var d := LastDot(s).value;
    assert d == |stem|;
    assert s[d + 1..] == ext;
  }

  /** A file is accepted exactly when it reads `stem.ext` with a dot-free `ext`
      that lowercases to png, jpg, jpeg or pdf. */
  lemma AllowedFileIff(filename: string)
    ensures AllowedFile(filename) <==>
      exists stem, ext :: filename == stem + "." + ext && '.' !in ext && Lower(ext) in AllowedExtensions
  {
    if AllowedFile(filename) {
      var ext := AfterLastDot(filename);
      var stem := filename[..|filename| - |ext| - 1];
      assert filename == stem + "." + ext;
    }
    if exists stem, ext :: filename == stem + "." + ext && '.' !in ext && Lower(ext) in AllowedExtensions {
      var stem, ext :| filename == stem + "." + ext && '.' !in ext && Lower(ext) in AllowedExtensions;
      AfterLastDotUnique(stem, ext);
    }
  }

  /** Names with dots at the same positions have their last dot at the same place. */
  lemma SameDotsSameLastDot(f: string, g: string)
    requires |f| == |g|
    requires forall j :: 0 <= j < |f| ==> (f[j] == '.' <==> g[j] == '.')
    ensures LastDot(f) == LastDot(g)
  {
  }

  /** Matching ignores letter case: two names that lowercase alike get the same verdict. */
  lemma CaseInsensitive(f: string, g: string)
    requires Lower(f) == Lower(g)
    ensures AllowedFile(f) <==> AllowedFile(g)
  {
    SameLoweredDots(f, g);
    SameDotsSameLastDot(f, g);
    if '.' in f {
      ExtensionsLowerAlike(f, g);
      SameLoweredExtension(f, g);
    }
  }

  /** Names that lowercase alike have the same length and dots in the same places. */
  lemma SameLoweredDots(f: string, g: string)
    requires Lower(f) == Lower(g)
    ensures |f| == |g|
    ensures forall j :: 0 <= j < |f| ==> (f[j] == '.' <==> g[j] == '.')
  {
    LowerKeepsDots(f);
    LowerKeepsDots(g);
  }

  /** Names that lowercase alike, with the last dot in the same place, have
      extensions that lowercase alike. */
  lemma ExtensionsLowerAlike(f: string, g: string)
    requires Lower(f) == Lower(g)
    requires '.' in f && LastDot(f) == LastDot(g)
    ensures '.' in g && Lower(AfterLastDot(f)) == Lower(AfterLastDot(g))
  {
    var i := LastDot(f).value;
    LowerSuffix(f, i + 1);
    LowerSuffix(g, i + 1);
  }

  /** Names whose extensions lowercase alike get the same verdict. */
  lemma SameLoweredExtension(f: string, g: string)
    requires '.' in f && '.' in g
    requires Lower(AfterLastDot(f)) == Lower(AfterLastDot(g))
    ensures AllowedFile(f) <==> AllowedFile(g)
  {
  }

  /** A name without a dot, or with an extension outside the set, is refused. */
  lemma RejectedExamples()
    ensures !AllowedFile("answer")
    ensures !AllowedFile("answer.txt")
  {
    AfterLastDotUnique("answer", "txt");
    assert "answer.txt" == "answer" + "." + "txt";
    assert Lower("txt") == "txt";
  }

  /** Extension matching ignores letter case. */
  lemma UpperCaseAccepted()
    ensures AllowedFile("A.PDF")
  {
    AfterLastDotUnique("A", "PDF");
    assert "A.PDF" == "A" + "." + "PDF";
    assert Lower("PDF") == "pdf";
  }

  /** A PNG file goes to the image extractor. */
  lemma PngAccepted()
    ensures AllowedFile("answer.png")
    ensures FileExtension("answer.png") == "png" && Dispatch("png") == ImageRoute
  {
    AfterLastDotUnique("answer", "png");
    assert "answer.png" == "answer" + "." + "png";
    assert Lower("png") == "png";
  }

  /** Only the text after the last dot counts: an earlier dot is part of the stem. */
  lemma LastExtensionCounts()
    ensures AllowedFile("scan.v2.Jpeg")
  {
    AfterLastDotUnique("scan.v2", "Jpeg");
    assert "scan.v2.Jpeg" == "scan.v2" + "." + "Jpeg";
    assert Lower("Jpeg") == "jpeg";
  }

  /** A trailing dot leaves an empty extension, which is refused. */
  lemma TrailingDotRejected()
    ensures !AllowedFile("answer.png.")
  {
    AfterLastDotUnique("answer.png", "");
    assert "answer.png." == "answer.png" + "." + "";
  }

  /** Which extractor `analyze` hands the problem file to. */
  datatype Route = ImageRoute | PdfRoute | UnsupportedRoute

  /** `file.filename.rsplit('.', 1)[1].lower()`: the name ends with a dot and a
      dot-free suffix that lowercases to the extension. */
  function FileExtension(filename: string): (ext: string)
    requires '.' in filename
    ensures |ext| < |filename| && filename[|filename| - |ext| - 1] == '.'
    ensures '.' !in ext && Lower(filename[|filename| - |ext|..]) == ext
  {
    Lower(AfterLastDot(filename))
  }

  /** The `if file_ext in [...] / elif file_ext == 'pdf' / else` chain. Every
      allowed extension has an extractor, so the last branch is dead once
      `allowed_file` has passed. */
  function Dispatch(ext: string): (r: Route)
    ensures r == ImageRoute <==> ext in {"png", "jpg", "jpeg"}
    ensures r == PdfRoute <==> ext == "pdf"
    ensures r == UnsupportedRoute <==> ext !in AllowedExtensions
  {
    if ext in ["png", "jpg", "jpeg"] then ImageRoute
    else if ext == "pdf" then PdfRoute
    else UnsupportedRoute
  }
}
