/** The upload allow-list of main.py and the `/api/upload` decision. */
module Uploads {
  import opened Wrappers
  import opened Ascii

  /** The 27 extensions accepted for upload. */
  const AllowedExtensions: set<string> :=
    {"txt", "pdf", "png", "jpg", "jpeg", "gif", "doc", "docx", "xls", "xlsx", "ppt", "pptx",
     "csv", "json", "zip", "py", "js", "html", "css", "c", "cpp", "h", "java", "rb", "php",
     "xml", "md"}

  /** 16 MiB; enforced by the web framework, not by the code modelled here. */
  const MaxContentLength: nat := 16 * 1024 * 1024

  /** `filename.rsplit('.', 1)[1]`, meaningful when the name contains a dot. */
  function Extension(filename: string): string {
    AfterLast(filename, '.')
  }

  /** The name has a dot and its lower-cased extension is in `exts`. */
  predicate HasExtensionIn(filename: string, exts: set<string>) {
    '.' in filename && LowerStr(Extension(filename)) in exts
  }

  /** `allowed_file`. */
  predicate AllowedFile(filename: string)
    ensures AllowedFile(filename) ==> '.' in filename && Extension(filename) != "" && '.' !in Extension(filename)
  {
    EmptyNotListed();
    HasExtensionIn(filename, AllowedExtensions)
  }

  /** `i` is the position of the last dot of `filename`. */
  predicate LastDotAt(filename: string, i: int) {
    0 <= i < |filename| && filename[i] == '.' && '.' !in filename[i + 1..]
  }

  /** A name is allowed exactly when it has a dot whose following text holds no
      further dot and, lower-cased, is one of the listed extensions. */
  lemma AllowedFileIff(filename: string)
    ensures AllowedFile(filename) <==>
      exists i :: LastDotAt(filename, i) && LowerStr(filename[i + 1..]) in AllowedExtensions
  {
    ExtensionInIff(filename, AllowedExtensions);
  }

  /** The same for any list of extensions. */
  lemma ExtensionInIff(filename: string, exts: set<string>)
    ensures HasExtensionIn(filename, exts) <==>
      exists i :: LastDotAt(filename, i) && LowerStr(filename[i + 1..]) in exts
  {
    if '.' in filename {
      var k := LastIndexOf(filename, '.');
      ExtensionAfterLastDot(filename, k);
      assert LastDotAt(filename, k);
      forall i | LastDotAt(filename, i)
        ensures Extension(filename) == filename[i + 1..]
      {
        ExtensionAfterLastDot(filename, i);
      }
    } else {
      forall i | 0 <= i < |filename|
        ensures !LastDotAt(filename, i)
      {
        assert filename[i] in filename;
      }
    }
  }

  /** The extension is the text after the one dot that has no dot after it. */
  lemma ExtensionAfterLastDot(filename: string, i: int)
    requires LastDotAt(filename, i)
    ensures Extension(filename) == filename[i + 1..]
  {
    LastIndexOfUnique(filename, '.', i);
  }

  /** The extension check ignores case: renaming the extension to upper case
      does not change the verdict. */
  lemma AllowedFileIgnoresCase(stem: string, ext: string)
    requires '.' !in ext
    ensures AllowedFile(stem + "." + ext) <==> LowerStr(ext) in AllowedExtensions
  {
    ExtensionInIgnoresCase(stem, ext, AllowedExtensions);
  }

  /** The same for any list of extensions. */
  lemma ExtensionInIgnoresCase(stem: string, ext: string, exts: set<string>)
    requires '.' !in ext
    ensures HasExtensionIn(stem + "." + ext, exts) <==> LowerStr(ext) in exts
  {
    var f := stem + "." + ext;
    assert f[|stem|] == '.';
    assert f[|stem| + 1..] == ext;
    ExtensionAfterLastDot(f, |stem|);
  }

  /** `notes.exe` is refused: "exe" is not on the list. */
  lemma RefusesExe()
    ensures !AllowedFile("notes.exe")
  {
    AllowedFileIgnoresCase("notes", "exe");
    assert "notes" + "." + "exe" == "notes.exe";
    assert LowerStr("exe") == "exe";
    ExeNotListed();
  }

  lemma EmptyNotListed()
    ensures "" !in AllowedExtensions
  {
  }

  lemma ExeNotListed()
    ensures "exe" !in AllowedExtensions
  {
  }

  /** `notes.txt` is accepted. */
  lemma AcceptsTxt()
    ensures AllowedFile("notes.txt")
  {
    AllowedFileIgnoresCase("notes", "txt");
    assert "notes" + "." + "txt" == "notes.txt";
    LowersToTxt("txt");
    TxtListed();
  }

  /** `notes.TXT` is accepted: the comparison is made on the lower-cased extension. */
  lemma AcceptsUpperCaseTxt()
    ensures AllowedFile("notes.TXT")
  {
    AllowedFileIgnoresCase("notes", "TXT");
    assert "notes" + "." + "TXT" == "notes.TXT";
    LowersToTxt("TXT");
    TxtListed();
  }

  lemma LowersToTxt(ext: string)
    requires ext == "txt" || ext == "TXT"
    ensures LowerStr(ext) == "txt"
  {
    var l := LowerStr(ext);
    assert l[0] == 't' && l[1] == 'x' && l[2] == 't';
  }

  lemma TxtListed()
    ensures "txt" in AllowedExtensions
  {
  }

  /** A name without a dot is refused whatever it says. */
  lemma RefusesNameWithoutDot(filename: string)
    requires '.' !in filename
    ensures !AllowedFile(filename)
  {
  }

  datatype UploadVerdict = Accepted | Rejected(message: string)

  /** The validation part of `/api/upload`: `filename` is `None` when the
      request has no file part. */
  function CheckUpload(filename: Option<string>): (v: UploadVerdict)
    ensures v.Accepted? <==> filename.Some? && filename.value != "" && AllowedFile(filename.value)
    ensures filename.None? ==> v == Rejected("No file provided")
    ensures filename == Some("") ==> v == Rejected("No file selected")
    ensures filename.Some? && filename.value != "" && !AllowedFile(filename.value) ==>
      v == Rejected("File type not allowed")
  {
    match filename
    case None => Rejected("No file provided")
    case Some(name) =>
      if name == "" then Rejected("No file selected")
      else if AllowedFile(name) then Accepted
      else Rejected("File type not allowed")
  }
}
