/** How main.py's composer turns a user message's file attachment into text:
    the file is looked up, classified, and described by a note appended to
    the message. */
module Attachments {
  import opened Wrappers
  import opened Ascii
  import opened Documents

  /** At most this many characters of a file are inlined. */
  const MaxInlineChars: nat := 10000
  const TruncationMarker := "\n... (content truncated due to length)"
  /** Name suffixes that make a file text-like (lower-cased name). */
  const TextExtensions: seq<string> :=
    [".txt", ".md", ".csv", ".json", ".py", ".js", ".html", ".css", ".c", ".cpp", ".h", ".xml"]
  const DefaultFileName := "unnamed-file"
  const NoteLead := "\n\nFile attached: "
  const ContentHeading := "\nContent of the file:\n```\n"
  const ClosingFence := "\n```"

  /** What reading a stored path yields: its text (decoded with errors
      ignored), or the text of the exception `open`/`read` raised. */
  datatype FileState = Readable(content: string) | Unreadable(reason: string)

  /** The upload directory: paths that exist, and what reading each yields. */
  type Filesystem = map<string, FileState>

  /** `os.path.exists(path)`; the empty path never exists. */
  predicate OnDisk(fs: Filesystem, path: string) {
    path != "" && path in fs
  }

  /** The declared type is non-empty and either names a `text/` type or the
      file name ends in one of the text extensions. */
  predicate TextLike(mime: string, name: string)
    ensures TextLike(mime, name) ==> mime != ""
    ensures Contains(mime, "text/") ==> TextLike(mime, name)
  {
    NonEmptyWhenContains(mime, "text/");
    && mime != ""
    && (Contains(mime, "text/") || exists e :: e in TextExtensions && EndsWith(LowerStr(name), e))
  }

  /** The four outcomes for an attachment. */
  datatype Attachment =
    | NotFound(name: string)
    | Inlined(name: string, excerpt: string, truncated: bool)
    | ReadFailed(name: string, reason: string)
    | Binary(name: string, mime: string)

  /** `content[:10000]`. */
  function Excerpt(content: string): (r: string)
    ensures |r| <= MaxInlineChars
    ensures |r| <= |content| && r == content[..|r|]
    ensures |r| == |content| <==> |content| <= MaxInlineChars
  {
    if |content| <= MaxInlineChars then content else content[..MaxInlineChars]
  }

  /** The branches of the attachment handling, with the defaults the source
      applies to missing keys (name "unnamed-file", path and type ""). */
  function Classify(f: FileRef, fs: Filesystem): (a: Attachment)
    ensures a.name == f.name.GetOr(DefaultFileName)
    ensures a.NotFound? <==> !OnDisk(fs, f.path.GetOr(""))
    ensures a.Binary? <==> OnDisk(fs, f.path.GetOr("")) && !TextLike(f.mime.GetOr(""), a.name)
    ensures a.Inlined? <==>
      OnDisk(fs, f.path.GetOr("")) && TextLike(f.mime.GetOr(""), a.name) && fs[f.path.GetOr("")].Readable?
    ensures a.ReadFailed? <==>
      OnDisk(fs, f.path.GetOr("")) && TextLike(f.mime.GetOr(""), a.name) && fs[f.path.GetOr("")].Unreadable?
    ensures a.Inlined? ==>
      && a.excerpt == Excerpt(fs[f.path.GetOr("")].content)
      && (a.truncated <==> |fs[f.path.GetOr("")].content| > MaxInlineChars)
    ensures a.ReadFailed? ==> a.reason == fs[f.path.GetOr("")].reason
    ensures a.Binary? ==> a.mime == f.mime.GetOr("")
  {
    var name, path, mime := f.name.GetOr(DefaultFileName), f.path.GetOr(""), f.mime.GetOr("");
    if !OnDisk(fs, path) then NotFound(name)
    else if !TextLike(mime, name) then Binary(name, mime)
    else
      match fs[path]
      case Readable(content) => Inlined(name, Excerpt(content), |content| > MaxInlineChars)
      case Unreadable(reason) => ReadFailed(name, reason)
  }

  /** The note appended to the message text. */
  function Describe(a: Attachment): (r: string)
    ensures HasPrefix(r, NoteLead + a.name)
  {
    var lead := NoteLead + a.name;
    var r := match a
      case NotFound(_) => lead + " (file not found on server)"
      case Inlined(_, excerpt, truncated) =>
        lead + ContentHeading + excerpt + (if truncated then TruncationMarker else "") + ClosingFence
      case ReadFailed(_, reason) => lead + " (error reading content: " + reason + ")"
      case Binary(_, mime) => lead + " (binary/non-text file, type: " + mime + ")";
    assert r[..|lead|] == lead;
    r
  }

  /** An inlined file costs at most 10,000 characters of its own however long
      it is, and the length of the note tells whether the marker was added:
      exactly when the file is longer than 10,000 characters. */
  lemma {:induction false} InlinedNoteSize(f: FileRef, fs: Filesystem)
    requires Classify(f, fs).Inlined?
    ensures
      var content := fs[f.path.GetOr("")].content;
      var fixed := |NoteLead| + |f.name.GetOr(DefaultFileName)| + |ContentHeading| + |ClosingFence|;
      && |Describe(Classify(f, fs))| ==
           fixed + (if |content| <= MaxInlineChars then |content| else MaxInlineChars)
             + (if |content| > MaxInlineChars then |TruncationMarker| else 0)
      && |Describe(Classify(f, fs))| <= fixed + MaxInlineChars + |TruncationMarker|
  {
    var a := Classify(f, fs);
    var content := fs[f.path.GetOr("")].content;
    assert |a.excerpt| == (if |content| <= MaxInlineChars then |content| else MaxInlineChars);
  }

  /** A short file is inlined whole, with no marker. */
  lemma {:induction false} ShortFileInlinedWhole(f: FileRef, fs: Filesystem)
    requires Classify(f, fs).Inlined?
    requires |fs[f.path.GetOr("")].content| <= MaxInlineChars
    ensures Describe(Classify(f, fs)) ==
      NoteLead + f.name.GetOr(DefaultFileName) + ContentHeading + fs[f.path.GetOr("")].content + ClosingFence
  {
    var a := Classify(f, fs);
    assert a.excerpt == fs[f.path.GetOr("")].content;
    assert !a.truncated;
  }

  /** A declared type containing `text/` makes any existing, readable file
      inlined, whatever its name; a file with no declared type is never read. */
  lemma TextTypeOrNoType(f: FileRef, fs: Filesystem)
    requires OnDisk(fs, f.path.GetOr(""))
    ensures Contains(f.mime.GetOr(""), "text/") && fs[f.path.GetOr("")].Readable? ==> Classify(f, fs).Inlined?
    ensures f.mime.GetOr("") == "" ==> Classify(f, fs).Binary?
  {
    if Contains(f.mime.GetOr(""), "text/") {
      NonEmptyWhenContains(f.mime.GetOr(""), "text/");
    }
  }

  lemma NonEmptyWhenContains(s: string, sub: string)
    requires sub != ""
    ensures Contains(s, sub) ==> s != ""
  {
  }
}
