// The static file handler: a request path is mapped to a file under the
// build directory, and the file's extension is read back from the mapped
// path with the pattern `^.*/(.*?(\.[A-Za-z0-9]+))$`. Group 2 of that
// pattern is the text from the last dot on, when only letters and digits
// follow the dot and a slash comes before it. In the pattern as written `.`
// does not match a newline, so no text holding one matches.
module Server {
  import opened Wrappers
  import opened Strings

  const PathPrefix: string := "frontend/build"

  /** The position of the last `c` in `s`. */
  function LastIndex(s: string, c: char): (k: Option<nat>)
    ensures k.Some? ==> k.value < |s| && s[k.value] == c && c !in s[k.value + 1..]
    ensures k.None? <==> c !in s
  {
    if s == [] then None
    else if s[|s| - 1] == c then Some(|s| - 1)
    else
      var k := LastIndex(s[..|s| - 1], c);
      assert k.Some? ==> s[..|s| - 1][k.value + 1..] + [s[|s| - 1]] == s[k.value + 1..];
      assert k.None? ==> s == s[..|s| - 1] + [s[|s| - 1]];
      k
  }

  /** The last `c` is pinned down by its position. */
  lemma LastIndexIs(s: string, c: char, j: nat)
    requires j < |s| && s[j] == c && c !in s[j + 1..]
    ensures LastIndex(s, c) == Some(j)
  {
    assert s[j] in s;
  }

  predicate AllAlnum(s: string)
  {
    forall i :: 0 <= i < |s| ==> IsAlnum(s[i])
  }

  /** `FindStringSubmatch(s)[2]`, or nothing when the pattern does not match;
      `dotAll` says whether `.` also matches a newline. */
  function Extension(s: string, dotAll: bool): (m: Option<string>)
    ensures m.Some? ==> |m.value| >= 2 && m.value[0] == '.' && AllAlnum(m.value[1..]) &&
                        |m.value| <= |s| && s[|s| - |m.value|..] == m.value
    ensures m.Some? ==> dotAll || '\n' !in s
  {
    if !dotAll && '\n' in s then None
    else
      match LastIndex(s, '.')
      case None => None
      case Some(j) => if j + 1 < |s| && AllAlnum(s[j + 1..]) && '/' in s[..j] then Some(s[j..]) else None
  }

  /** A dot followed by letters and digits up to the end, after a slash, is
      what the pattern finds. */
  lemma ExtensionAt(s: string, dotAll: bool, j: nat)
    requires j + 1 < |s| && s[j] == '.' && AllAlnum(s[j + 1..]) && '/' in s[..j]
    requires dotAll || '\n' !in s
    ensures Extension(s, dotAll) == Some(s[j..])
  {
    assert !IsAlnum('.');
    LastIndexIs(s, '.', j);
  }

  /** The file a request path is mapped to: the path itself when it carries
      an extension, the path plus ".html" when it does not end in a slash,
      the path plus "index.html" otherwise. */
  function Resolve(path: string, dotAll: bool): (r: string)
    requires |path| > 0
    ensures |r| >= |PathPrefix| + |path|
    ensures r[..|PathPrefix|] == PathPrefix && r[|PathPrefix|..|PathPrefix| + |path|] == path
  {
    if Extension(path, dotAll).Some? then PathPrefix + path
    else if path[|path| - 1] != '/' then PathPrefix + path + ".html"
    else PathPrefix + path + "index.html"
  }

  /** What the handler answers: a status, the extension its content type is
      derived from, and the file's content. */
  datatype Reply = Reply(status: int, ext: string, body: string)

  /** The handler as written. `files` is the embedded file system (nothing
      when a file cannot be opened or read). The extension is read before
      the open error is looked at; `None` stands for the panic of indexing
      the nil result of a failed match. */
  function StaticServerAsWritten(path: string, files: string -> Option<string>): Option<Reply>
    requires |path| > 0
  {
    var p := Resolve(path, false);
    match Extension(p, false)
    case None => None
    case Some(ext) => Some(if files(p).None? then Reply(500, ext, "") else Reply(200, ext, files(p).value))
  }

  /** A path holding a newline (as "%0A" decodes to) is mapped to a file name
      the pattern cannot match, and the handler panics. */
  lemma NewlinePathPanics(files: string -> Option<string>)
    ensures Resolve("/a\nb", false) == "frontend/build/a\nb.html"
    ensures StaticServerAsWritten("/a\nb", files).None?
  {
    var p := "/a\nb";
    assert '\n' in p by { assert p[2] == '\n'; }
    var r := Resolve(p, false);
    assert r[|PathPrefix| + 2] == '\n';
  }

  /** The handler with the pattern's `.` matching any character, as the
      mapping evidently intends: the extension of the mapped path is always
      found. */
  function StaticServer(path: string, files: string -> Option<string>): (reply: Reply)
    requires |path| > 0
    ensures reply.status == 500 <==> files(Resolve(path, true)).None?
    ensures reply.status == 200 ==> reply.body == files(Resolve(path, true)).value
  {
    var p := Resolve(path, true);
    ResolvedHasExtension(path);
    var ext := Extension(p, true).value;
    if files(p).None? then Reply(500, ext, "") else Reply(200, ext, files(p).value)
  }

  /** The mapped path always has an extension: the request's own, or
      ".html". */
  lemma ResolvedHasExtension(path: string)
    requires |path| > 0
    ensures var ext := Extension(Resolve(path, true), true);
            ext.Some? && ext == (if Extension(path, true).Some? then Extension(path, true) else Some(".html"))
  {
    var r := Resolve(path, true);
    assert r[8] == '/';
    match Extension(path, true)
    case Some(e) =>
      var j := |path| - |e|;
      assert path[j..] == e;
      var jr := |PathPrefix| + j;
      assert r == PathPrefix + path;
      assert r[jr..] == e && r[jr + 1..] == e[1..];
      assert r[8] in r[..jr];
      ExtensionAt(r, true, jr);
    case None =>
      var jr := |r| - 5;
      assert r[jr..] == ".html";
      assert AllAlnum(r[jr + 1..]) by { assert r[jr + 1..] == "html"; }
      assert r[8] in r[..jr];
      ExtensionAt(r, true, jr);
  }

  /** Without a newline in the path the handler as written finds the
      extension too, and answers as the corrected one does. */
  lemma NoNewlineNoPanic(path: string, files: string -> Option<string>)
    requires |path| > 0 && '\n' !in path
    ensures StaticServerAsWritten(path, files) == Some(StaticServer(path, files))
  {
    var r := Resolve(path, true);
    assert Resolve(path, false) == r;
    NoNewlineResolved(path);
    ResolvedHasExtension(path);
  }

  /** Resolving adds no newline. */
  lemma NoNewlineResolved(path: string)
    requires |path| > 0 && '\n' !in path
    ensures '\n' !in Resolve(path, true)
  {
    var r := Resolve(path, true);
    var tail := r[|PathPrefix| + |path|..];
    assert r == PathPrefix + path + tail;
    assert tail == [] || tail == ".html" || tail == "index.html";
    assert '\n' !in PathPrefix && '\n' !in tail;
  }
}
