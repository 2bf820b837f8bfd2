/**
 * Choosing the file type of an ingested file: a first-class extension of the file name wins;
 * otherwise the MIME type detected from the content is used, without its parameters. Content
 * sniffing itself is a parameter: the detected MIME text, or none.
 */
module Filetypes {
  import opened Wrappers
  import opened GoStrings

  /** The extensions that are used as the file type as they stand. */
  const FirstclassFileExtensions: set<string> :=
    {".pdf", ".html", ".md", ".txt", ".docx", ".odt", ".rtf", ".csv", ".ipynb", ".json"}

  /**
   * path.Ext: the suffix from the final dot of the final slash-separated element, or "" when
   * that element has no dot.
   */
  function Ext(p: string): (r: string)
    ensures HasSuffix(p, r)
    ensures r != [] ==> r[0] == '.' && '/' !in r && '.' !in r[1..]
    ensures r == [] ==> forall i :: 0 <= i < |p| && p[i] == '.' ==> '/' in p[i + 1..]
    decreases |p|
  {
    if |p| == 0 || p[|p| - 1] == '/' then ""
    else if p[|p| - 1] == '.' then p[|p| - 1..]
    else
      var e := Ext(p[..|p| - 1]);
      if e == "" then
        assert forall i :: 0 <= i < |p| - 1 && p[i] == '.' ==> '/' in p[..|p| - 1][i + 1..];
        ""
      else
        assert (e + [p[|p| - 1]])[1..] == e[1..] + [p[|p| - 1]];
        e + [p[|p| - 1]]
  }

  /** The text of `s` before its first `sep` (all of `s` when there is none): strings.Split(s, sep)[0]. */
  function BeforeFirst(s: string, sep: char): (r: string)
    ensures HasPrefix(s, r) && sep !in r
    ensures |r| < |s| ==> s[|r|] == sep
    ensures r == Split(s, sep)[0]
    decreases |s|
  {
    if |s| == 0 || s[0] == sep then ""
    else [s[0]] + BeforeFirst(s[1..], sep)
  }

  const DetectError: string := "failed to detect filetype"

  /**
   * GetFiletype: the extension when it is first-class (compared as written, so ".PDF" is not);
   * otherwise the detected MIME type cut before its first ';'; an error when nothing was detected.
   */
  function GetFiletype(filename: string, detected: Option<string>): (r: Result<string, string>)
    ensures Ext(filename) in FirstclassFileExtensions ==> r == Ok(Ext(filename)) && HasSuffix(filename, r.value)
    ensures Ext(filename) !in FirstclassFileExtensions && detected.Some? ==>
      r.Ok? && HasPrefix(detected.value, r.value) && ';' !in r.value &&
      (|r.value| < |detected.value| ==> detected.value[|r.value|] == ';')
    ensures r.Err? <==> Ext(filename) !in FirstclassFileExtensions && detected.None?
    ensures r.Err? ==> r.error == DetectError
  {
    var ext := Ext(filename);
    if ext in FirstclassFileExtensions then Ok(ext)
    else if detected.Some? then
      assert BeforeFirst(detected.value, ';') == Split(detected.value, ';')[0];
      Ok(Split(detected.value, ';')[0])
    else Err(DetectError)
  }

  /** A MIME type without parameters is kept whole. */
  lemma PlainMimeKept(filename: string, mime: string)
    requires Ext(filename) !in FirstclassFileExtensions
    requires ';' !in mime
    ensures GetFiletype(filename, Some(mime)) == Ok(mime)
  {
    SplitNoSep(mime, ';');
  }

  /** Cutting the parameters off is idempotent: the type of a type is itself. */
  lemma MimeCutIdempotent(filename: string, mime: string)
    requires Ext(filename) !in FirstclassFileExtensions
    ensures var t := GetFiletype(filename, Some(mime)).value;
      GetFiletype(filename, Some(t)) == Ok(t)
  {
    var t := GetFiletype(filename, Some(mime)).value;
    SplitNoSep(t, ';');
  }

  /** The extension is taken from the last path element only, and is case-sensitive. */
  lemma ExtSamples()
    ensures Ext("docs/report.md") == ".md"
    ensures ".PDF" !in FirstclassFileExtensions
  {
    assert "docs/report.md"[..13] == "docs/report.m";
    assert "docs/report.md"[..12] == "docs/report.";
  }

  /** A dot in a directory name is no extension. */
  lemma DirectoryDotSample()
    ensures Ext("archive.v1/README") == ""
  {
    var p := "archive.v1/README";
    assert p[..16] == "archive.v1/READM";
    assert p[..16][..15] == "archive.v1/READ";
    assert p[..16][..15][..14] == "archive.v1/REA";
    assert p[..16][..15][..14][..13] == "archive.v1/RE";
    assert p[..16][..15][..14][..13][..12] == "archive.v1/R";
    assert p[..16][..15][..14][..13][..12][..11] == "archive.v1/";
    assert Ext("archive.v1/") == "";
    assert Ext("archive.v1/R") == "";
    assert Ext("archive.v1/RE") == "";
    assert Ext("archive.v1/REA") == "";
    assert Ext("archive.v1/READ") == "";
    assert Ext("archive.v1/READM") == "";
  }
}
