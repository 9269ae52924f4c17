/** HttpContent: the MIME type of a file, looked up by its lower-cased extension. */
module HttpContent {
  import opened Wrappers

  function GetMimeTypes(): map<string, string>
  {
    map[
      ".txt" := "text/plain",
      ".pdf" := "application/pdf",
      ".doc" := "application/vnd.ms-word",
      ".docx" := "application/vnd.openxmlformats-officedocument.wordprocessingml.document",
      ".xls" := "application/vnd.ms-excel",
      ".xlsx" := "application/vnd.openxmlformats-officedocument.spreadsheetml.sheet",
      ".svg" := "image/svg+xml",
      ".png" := "image/png",
      ".jpg" := "image/jpeg",
      ".jpeg" := "image/jpeg",
      ".gif" := "image/gif",
      ".bmp" := "image/bmp",
      ".csv" := "text/csv"
    ]
  }

  /** The separators of a Windows path, '/' and '\\'; on Unix only '/' ends a segment. */
  predicate IsDirectorySeparator(c: char)
  {
    c == '/' || c == '\\'
  }

  /**
   * Path.GetExtension: the text from the last '.' of the final path segment,
   * or "" when that segment has no '.' or ends with it.
   */
  function GetExtension(path: string): string
  {
    ScanBack(path, |path|)
  }

  /** The backward scan of Path.GetExtension over path[..i]. */
  function ScanBack(path: string, i: nat): (ext: string)
    requires i <= |path|
    ensures ext == [] || (ext[0] == '.' && |ext| >= 2)
    decreases i
  {
    if i == 0 then []
    else if path[i - 1] == '.' then (if i != |path| then path[i - 1..] else [])
    else if IsDirectorySeparator(path[i - 1]) then []
    else ScanBack(path, i - 1)
  }

  /** String.ToLower on ASCII letters. */
  function LowerChar(c: char): char
  {
    if 'A' <= c <= 'Z' then (c as int + 32) as char else c
  }

  function ToLower(s: string): (r: string)
    ensures |r| == |s| && forall i :: 0 <= i < |s| ==> r[i] == LowerChar(s[i])
  {
    seq(|s|, i requires 0 <= i < |s| => LowerChar(s[i]))
  }

  /** The indexer `types[ext]` throws KeyNotFoundException for an unknown extension. */
  function GetContentType(path: string): (r: Result<string>)
    ensures r.Success? <==> ToLower(GetExtension(path)) in GetMimeTypes()
    ensures r.Success? ==> r.value == GetMimeTypes()[ToLower(GetExtension(path))]
  {
    var types := GetMimeTypes();
    var ext := ToLower(GetExtension(path));
    if ext in types then Success(types[ext]) else Failure("KeyNotFoundException")
  }

  lemma {:induction false} ScanBackLower(path: string, i: nat)
    requires i <= |path|
    ensures ScanBack(ToLower(path), i) == ToLower(ScanBack(path, i))
    decreases i
  {
    if i > 0 && path[i - 1] != '.' && !IsDirectorySeparator(path[i - 1]) {
      ScanBackLower(path, i - 1);
    } else if i > 0 && path[i - 1] == '.' && i != |path| {
      assert ToLower(path)[i - 1..] == ToLower(path[i - 1..]);
    }
  }

  /** Lower-casing the whole path first gives the same content type. */
  lemma ContentTypeIgnoresCase(path: string)
    ensures GetContentType(path) == GetContentType(ToLower(path))
  {
    ScanBackLower(path, |path|);
    LowerTwice(GetExtension(path));
  }

  lemma LowerTwice(s: string)
    ensures ToLower(ToLower(s)) == ToLower(s)
  {
  }

  lemma {:induction false} ScanBackSkips(path: string, i: nat, j: nat)
    requires j <= i <= |path|
    requires forall k :: j <= k < i ==> path[k] != '.' && !IsDirectorySeparator(path[k])
    ensures ScanBack(path, i) == ScanBack(path, j)
    decreases i - j
  {
    if j < i {
      ScanBackSkips(path, i - 1, j);
    }
  }

  /** Only the final extension counts: stem + "." + ext has extension "." + ext. */
  lemma FinalExtension(stem: string, ext: string)
    requires ext != [] && '.' !in ext
    requires forall k :: 0 <= k < |ext| ==> !IsDirectorySeparator(ext[k])
    ensures GetExtension(stem + "." + ext) == "." + ext
  {
    var path := stem + "." + ext;
    assert forall k :: |stem| + 1 <= k < |path| ==> path[k] == ext[k - |stem| - 1];
    ScanBackSkips(path, |path|, |stem| + 1);
    assert path[|stem|] == '.';
    assert path[|stem|..] == "." + ext;
  }

  lemma TableEntries()
    ensures GetContentType("a.pdf") == Success("application/pdf")
    ensures GetContentType("a.PDF") == Success("application/pdf")
    ensures GetContentType("x.tar.csv") == Success("text/csv")
    ensures GetMimeTypes()[".jpg"] == GetMimeTypes()[".jpeg"] == "image/jpeg"
    ensures GetMimeTypes().Keys == {".txt", ".pdf", ".doc", ".docx", ".xls", ".xlsx", ".svg",
      ".png", ".jpg", ".jpeg", ".gif", ".bmp", ".csv"}
  {
    var types := GetMimeTypes();
    assert ".pdf" in types && types[".pdf"] == "application/pdf";
    assert ".csv" in types && types[".csv"] == "text/csv";
    assert "a.pdf" == "a" + "." + "pdf";
    FinalExtension("a", "pdf");
    assert ToLower(GetExtension("a.pdf")) == ".pdf";
    assert "a.PDF" == "a" + "." + "PDF";
    FinalExtension("a", "PDF");
    assert ToLower(GetExtension("a.PDF")) == ".pdf";
    assert "x.tar.csv" == "x.tar" + "." + "csv";
    FinalExtension("x.tar", "csv");
    assert ToLower(GetExtension("x.tar.csv")) == ".csv";
  }

  /** A path without an extension, or with one outside the table, fails. */
  lemma MissingExtensionFails(path: string)
    requires '.' !in path
    ensures GetContentType(path).Failure?
  {
    ScanBackNoPoint(path, |path|);
  }

  lemma {:induction false} ScanBackNoPoint(path: string, i: nat)
    requires i <= |path| && '.' !in path
    ensures ScanBack(path, i) == []
    decreases i
  {
    if i > 0 {
      assert path[i - 1] in path;
      ScanBackNoPoint(path, i - 1);
    }
  }
}
