/** The input side of main.py: deciding whether the argument is a URL,
    choosing the temporary file's extension, downloading, validating a local
    file and removing the temporary file again. */
module ImageSource {
  import opened Wrappers
  import opened Text
  import opened UrlParse
  import opened PosixPath

  /** `VALID_IMAGE_EXTENSIONS`. */
  const ValidImageExtensions: set<string> := {".jpg", ".jpeg", ".png", ".gif", ".bmp", ".tiff", ".webp"}

  /** `is_url`: `urlparse` gives a non-empty scheme and a non-empty netloc;
      a parse that raises gives false. */
  function IsUrl(s: string): bool
  {
    match UrlSplit(s)
    case Err(_) => false
    case Ok(parts) => parts.scheme != "" && parts.netloc != ""
  }

  /** An authority as `is_url` needs it: non-empty, none of `/`, `?`, `#`,
      and brackets that come in pairs. */
  predicate IsAuthorityText(n: string)
  {
    n != "" && (forall k :: 0 <= k < |n| ==> n[k] !in NetlocDelims) && !BracketsUnbalanced(n)
  }

  /** `u` starts with a scheme that ends with the `:` at `i`. */
  predicate SchemeShape(u: string, i: nat)
  {
    0 < i < |u| && u[i] == ':' && IsSchemeText(u[..i])
  }

  /** `rest` starts with `//` and an authority of length `d`, followed by
      nothing or by a `/`, `?` or `#`. */
  predicate AuthorityShape(rest: string, d: nat)
  {
    2 + d <= |rest| && rest[..2] == "//" && IsAuthorityText(rest[2..2 + d]) &&
    (2 + d == |rest| || rest[2 + d] in NetlocDelims)
  }

  /** The sanitised URL reads scheme, `:`, `//`, authority, then nothing or a
      path, query or fragment. */
  predicate UrlShapeAt(u: string, i: nat, d: nat)
  {
    SchemeShape(u, i) && AuthorityShape(u[i + 1..], d)
  }

  lemma SchemeShapeOf(u: string) returns (i: nat)
    requires SplitScheme(u).0 != ""
    ensures SchemeShape(u, i) && SplitScheme(u).1 == u[i + 1..]
  {
    i := FirstOf(u, {':'});
  }

  lemma ShapeScheme(u: string, i: nat)
    requires SchemeShape(u, i)
    ensures SplitScheme(u) == (Lower(u[..i]), u[i + 1..]) && Lower(u[..i]) != ""
  {
    forall k | 0 <= k < i ensures u[k] != ':' {
      assert u[k] == u[..i][k];
    }
    FirstOfAt(u, {':'}, i);
  }

  lemma NetlocShape(scheme: string, rest: string) returns (d: nat)
    requires SplitAfterScheme(scheme, rest).Ok? && SplitAfterScheme(scheme, rest).value.netloc != ""
    ensures AuthorityShape(rest, d)
  {
    assert "//" <= rest;
    var body := rest[2..];
    d := FirstOf(body, NetlocDelims);
    assert rest[2..2 + d] == body[..d];
    assert SplitAfterScheme(scheme, rest).value.netloc == body[..d];
  }

  lemma ShapeNetloc(scheme: string, rest: string, d: nat)
    requires AuthorityShape(rest, d)
    ensures SplitAfterScheme(scheme, rest).Ok? && SplitAfterScheme(scheme, rest).value.netloc != ""
  {
    assert "//" <= rest;
    var body := rest[2..];
    assert body[..d] == rest[2..2 + d];
    FirstOfAt(body, NetlocDelims, d);
  }

  /** `is_url(s)` holds exactly when the sanitised text has the shape
      scheme, `://`, a non-empty authority, then nothing or a path, query or
      fragment delimiter. */
  lemma IsUrlIff(s: string)
    ensures IsUrl(s) <==> exists i: nat, d: nat :: UrlShapeAt(Sanitize(s), i, d)
  {
    var u := Sanitize(s);
    var sr := SplitScheme(u);
    assert UrlSplit(s) == SplitAfterScheme(sr.0, sr.1);
    if IsUrl(s) {
      var i := SchemeShapeOf(u);
      var d := NetlocShape(sr.0, sr.1);
      assert UrlShapeAt(u, i, d);
    }
    if exists i: nat, d: nat :: UrlShapeAt(u, i, d) {
      var i: nat, d: nat :| UrlShapeAt(u, i, d);
      ShapeScheme(u, i);
      ShapeNetloc(sr.0, sr.1, d);
    }
  }

  /** A local path without a colon is never taken for a URL. */
  lemma NoColonNotUrl(s: string)
    requires ':' !in s
    ensures !IsUrl(s)
  {
    var u := Sanitize(s);
    if ':' in u { SanitizeChars(s, ':'); }
    assert UrlSplit(s) == SplitAfterScheme(SplitScheme(u).0, SplitScheme(u).1);
  }

  /** An absolute path, and so also a scheme-relative `//host/x`, is never
      taken for a URL: a scheme must start with a letter. */
  lemma LeadingSlashNotUrl(rest: string)
    ensures !IsUrl("/" + rest)
  {
    var s := "/" + rest;
    assert LStripC0(s) == s;
    assert s[0] == '/' && s[1..] == rest;
    var u := Sanitize(s);
    assert u == "/" + RemoveUnsafe(rest);
    var sr := SplitScheme(u);
    assert sr.0 == "" by {
      var i := FirstOf(u, {':'});
      if 0 < i < |u| { assert u[..i][0] == '/'; }
    }
    assert UrlSplit(s) == SplitAfterScheme(sr.0, sr.1);
  }

  /** Three slashes after the scheme leave the authority empty. */
  lemma TripleSlashEmptyNetloc(scheme: string, rest: string)
    requires |rest| >= 3 && rest[..3] == "///"
    ensures SplitAfterScheme(scheme, rest).Ok? && SplitAfterScheme(scheme, rest).value.netloc == ""
  {
    assert "//" <= rest;
    FirstOfAt(rest[2..], NetlocDelims, 0);
  }

  /** A scheme followed by `:///`, such as `file:///x`, has an empty
      authority and is not taken for a URL. */
  lemma EmptyAuthorityNotUrl(scheme: string, rest: string)
    requires ':' !in scheme
    ensures !IsUrl(scheme + ":///" + rest)
  {
    var x := Sanitize(scheme);
    SanitizeTripleSlash(scheme, rest);
    if ':' in x { SanitizeChars(scheme, ':'); }
    SplitTripleSlash(x, RemoveUnsafe(rest));
  }

  lemma SplitTripleSlash(x: string, rest: string)
    requires ':' !in x
    ensures var r := SplitSanitized(x + ":///" + rest); r.Ok? ==> r.value.scheme == "" || r.value.netloc == ""
  {
    var r := ":///" + rest;
    ColonAfter(x, r);
    var sr := SplitScheme(x + r);
    if sr.0 != "" {
      assert sr.1 == r[1..];
      TripleSlashEmptyNetloc(sr.0, sr.1);
    }
    assert x + ":///" + rest == x + r;
  }

  lemma ColonAfter(x: string, r: string)
    requires ':' !in x && r != [] && r[0] == ':'
    ensures FirstOf(x + r, {':'}) == |x| && (x + r)[..|x|] == x && (x + r)[|x| + 1..] == r[1..]
  {
    FirstOfAt(x + r, {':'}, |x|);
  }

  lemma SanitizeTripleSlash(scheme: string, rest: string)
    ensures Sanitize(scheme + ":///" + rest) == Sanitize(scheme) + ":///" + RemoveUnsafe(rest)
  {
    var t := ":///" + rest;
    assert scheme + ":///" + rest == scheme + t;
    SanitizeConcat(scheme, t);
    RemoveUnsafeKeepsSafe(":///", rest);
  }

  lemma {:induction false} RemoveUnsafeKeepsSafe(p: string, rest: string)
    requires forall k :: 0 <= k < |p| ==> !IsUnsafe(p[k])
    ensures RemoveUnsafe(p + rest) == p + RemoveUnsafe(rest)
  {
    RemoveUnsafeConcat(p, rest);
    RemoveUnsafeNone(p);
  }

  lemma {:induction false} RemoveUnsafeNone(p: string)
    requires forall k :: 0 <= k < |p| ==> !IsUnsafe(p[k])
    ensures RemoveUnsafe(p) == p
  {
    if p != [] {
      RemoveUnsafeNone(p[1..]);
    }
  }

  /** `get_image_extension`: the content type decides when it mentions
      jpeg/jpg, png, gif or webp (tested in that order, case-sensitively);
      otherwise the lower-cased suffix of the URL's path, when it is a valid
      extension, and ".jpg" as the last resort. `Err` is the `ValueError`
      that `urlparse` raises on an unbalanced bracket. */
  function GetImageExtension(url: string, contentType: string): (r: Result<string, string>)
    ensures r.Ok? ==> r.value in ValidImageExtensions
    ensures r.Err? ==> UrlSplit(url).Err?
    // the content type is consulted first, in the order jpeg/jpg, png, gif, webp
    ensures Contains(contentType, "jpeg") || Contains(contentType, "jpg") ==> r == Ok(".jpg")
    ensures !Contains(contentType, "jpeg") && !Contains(contentType, "jpg") && Contains(contentType, "png") ==>
      r == Ok(".png")
    ensures (!Contains(contentType, "jpeg") && !Contains(contentType, "jpg") && !Contains(contentType, "png") &&
             Contains(contentType, "gif")) ==> r == Ok(".gif")
    ensures (!Contains(contentType, "jpeg") && !Contains(contentType, "jpg") && !Contains(contentType, "png") &&
             !Contains(contentType, "gif") && Contains(contentType, "webp")) ==> r == Ok(".webp")
    // otherwise the URL's path decides
    ensures (!Contains(contentType, "jpeg") && !Contains(contentType, "jpg") && !Contains(contentType, "png") &&
             !Contains(contentType, "gif") && !Contains(contentType, "webp")) ==> r == ExtensionOfPath(UrlParsePath(url))
  {
    if Contains(contentType, "jpeg") || Contains(contentType, "jpg") then Ok(".jpg")
    else if Contains(contentType, "png") then Ok(".png")
    else if Contains(contentType, "gif") then Ok(".gif")
    else if Contains(contentType, "webp") then Ok(".webp")
    else ExtensionOfPath(UrlParsePath(url))
  }

  /** The fallback on the URL's path: its lower-cased suffix when that is a
      valid extension, ".jpg" otherwise; a parse error passes through. */
  function ExtensionOfPath(path: Result<string, string>): (r: Result<string, string>)
    ensures r.Ok? <==> path.Ok?
    ensures r.Ok? ==> r.value in ValidImageExtensions
    // a valid suffix, compared lower-cased, is kept; ".jpg" stands in for any other
    ensures path.Ok? && Lower(PathSuffix(path.value)) in ValidImageExtensions ==> r == Ok(Lower(PathSuffix(path.value)))
    ensures path.Ok? && Lower(PathSuffix(path.value)) !in ValidImageExtensions ==> r == Ok(".jpg")
    ensures path.Err? ==> r == Err(path.error)
  {
    match path
    case Err(e) => Err(e)
    case Ok(p) =>
      var ext := Lower(PathSuffix(p));
      if ext in ValidImageExtensions then Ok(ext) else Ok(".jpg")
  }

  /** A content type naming one of the four formats decides the extension
      without the URL being consulted. */
  lemma ContentTypeDecides(url: string, url': string, contentType: string)
    requires Contains(contentType, "jpeg") || Contains(contentType, "jpg") || Contains(contentType, "png") ||
             Contains(contentType, "gif") || Contains(contentType, "webp")
    ensures GetImageExtension(url, contentType) == GetImageExtension(url', contentType)
    ensures GetImageExtension(url, contentType).Ok?
  {
  }

  /** For any URL that `is_url` accepts, the extension is always found. */
  lemma UrlExtensionTotal(url: string, contentType: string)
    requires IsUrl(url)
    ensures GetImageExtension(url, contentType).Ok?
  {
  }

  /** Query and fragment never influence the extension. */
  lemma ExtensionIgnoresQueryAndFragment(url: string, sep: char, tail: string, contentType: string)
    requires sep == '?' || sep == '#'
    requires '?' !in url && '#' !in url
    ensures GetImageExtension(url + [sep] + tail, contentType) == GetImageExtension(url, contentType)
  {
    PathIgnoresQueryAndFragment(url, sep, tail);
  }

  /** What the download request produced. */
  datatype HttpReply =
    | HttpError(code: int, reason: string)   // urllib.error.HTTPError
    | UrlError(reason: string)               // urllib.error.URLError
    | OtherError(message: string)            // any other exception from urlopen
    | Response(contentType: string)          // the `content-type` header, "" when absent

  /** The world as the download sees it: the reply, `tempfile.gettempdir()`,
      the random part `mkstemp` picks, and the exceptions `mkstemp` and the
      write may raise. */
  datatype FetchEnv = FetchEnv(
    reply: HttpReply,
    tempDir: string,
    randomName: string,
    mkstempFailure: Option<string>,
    writeFailure: Option<string>)

  /** Creation and removal of the temporary file. */
  datatype TempEvent = Created(path: string) | Discarded(path: string)

  const TempPrefix := "ocr_image_"

  /** The name `mkstemp(suffix=ext, prefix='ocr_image_')` returns. */
  function TempFilePath(tempDir: string, randomName: string, ext: string): string
  {
    Join(tempDir, TempPrefix + randomName + ext)
  }

  /** Every file `mkstemp` creates here lies directly inside the temporary
      directory. */
  lemma TempFileInTempDir(tempDir: string, randomName: string, ext: string)
    requires "/" <= tempDir
    ensures IsAncestor(tempDir, TempFilePath(tempDir, randomName, ext))
    ensures TempFilePath(tempDir, randomName, ext) != ""
    // the random part `mkstemp` draws holds no "/", and then the file is a
    // direct child of the directory, named prefix + random part + suffix
    ensures '/' !in randomName && '/' !in ext ==>
      var path := Parse(TempFilePath(tempDir, randomName, ext));
      path == PurePath(Parse(tempDir).root, Parse(tempDir).parts + [TempPrefix + randomName + ext]) &&
      Name(path) == TempPrefix + randomName + ext
  {
    var name := TempPrefix + randomName + ext;
    assert name[0] == 'o';
    JoinIsChild(tempDir, name);
    if '/' !in randomName && '/' !in ext {
      assert '/' !in name by {
        assert forall k :: 0 <= k < |name| ==> name[k] in TempPrefix || name[k] in randomName || name[k] in ext;
      }
      PartsOfPlainName(name);
    }
  }

  /** What `download_image_from_url` returns, as a function of the URL and
      the world: the path of the temporary file, or the text of the
      exception it raises. */
  function DownloadOutcome(url: string, env: FetchEnv): Result<string, string>
  {
    match env.reply
    case HttpError(code, reason) => Err("HTTP error " + IntToString(code) + ": " + reason)
    case UrlError(reason) => Err("URL error: " + reason)
    case OtherError(message) => Err("Download failed: " + message)
    case Response(contentType) =>
      match GetImageExtension(url, contentType)
      case Err(e) => Err("Download failed: " + e)
      case Ok(ext) =>
        if env.mkstempFailure.Some? then Err("Download failed: " + env.mkstempFailure.value)
        else if env.writeFailure.Some? then Err("Download failed: " + env.writeFailure.value)
        else Ok(TempFilePath(env.tempDir, env.randomName, ext))
  }

  /** `download_image_from_url`. Every failure is re-raised as an exception
      whose text is returned in `Err`; a file created before the write
      failed is unlinked again. */
  method DownloadImageFromUrl(url: string, env: FetchEnv) returns (result: Result<string, string>, events: seq<TempEvent>)
    requires "/" <= env.tempDir
    ensures env.reply.HttpError? ==>
      result == Err("HTTP error " + IntToString(env.reply.code) + ": " + env.reply.reason) && events == []
    ensures env.reply.UrlError? ==> result == Err("URL error: " + env.reply.reason) && events == []
    ensures env.reply.OtherError? ==> result == Err("Download failed: " + env.reply.message) && events == []
    ensures env.reply.Response? ==>
      match GetImageExtension(url, env.reply.contentType)
      case Err(e) => result == Err("Download failed: " + e) && events == []
      case Ok(ext) =>
        var path := TempFilePath(env.tempDir, env.randomName, ext);
        if env.mkstempFailure.Some? then
          result == Err("Download failed: " + env.mkstempFailure.value) && events == []
        else if env.writeFailure.Some? then
          result == Err("Download failed: " + env.writeFailure.value) && events == [Created(path), Discarded(path)]
        else
          result == Ok(path) && events == [Created(path)]
    ensures result == DownloadOutcome(url, env)
    ensures result.Ok? ==> events == [Created(result.value)] && IsAncestor(env.tempDir, result.value)
    ensures result.Err? ==> events == [] || (|events| == 2 && events[0].Created? && events[1] == Discarded(events[0].path))
  {
    events := [];
    match env.reply {
      case HttpError(code, reason) =>
        result := Err("HTTP error " + IntToString(code) + ": " + reason);
      case UrlError(reason) =>
        result := Err("URL error: " + reason);
      case OtherError(message) =>
        result := Err("Download failed: " + message);
      case Response(contentType) =>
        var ext := GetImageExtension(url, contentType);
        if ext.Err? {
          result := Err("Download failed: " + ext.error);
        } else if env.mkstempFailure.Some? {
          result := Err("Download failed: " + env.mkstempFailure.value);
        } else {
          var path := TempFilePath(env.tempDir, env.randomName, ext.value);
          TempFileInTempDir(env.tempDir, env.randomName, ext.value);
          events := events + [Created(path)];
          if env.writeFailure.Some? {
            events := events + [Discarded(path)];
            result := Err("Download failed: " + env.writeFailure.value);
          } else {
            result := Ok(path);
          }
        }
    }
  }

  /** Outcome of `validate_image_file`. */
  datatype Validation = FileNotFound | Cancelled | Accepted(askedToConfirm: bool)

  /** The extension check of `validate_image_file`: the path's suffix,
      lower-cased, is one of the valid image extensions. */
  predicate HasImageExtension(path: string)
  {
    Lower(PathSuffix(path)) in ValidImageExtensions
  }

  /** `validate_image_file`: existence is checked first; an extension outside
      the valid set (compared lower-cased) continues only when the user
      confirms. Both failures raise `typer.Exit(1)`. */
  function ValidateImageFile(path: string, fileExists: bool, confirm: bool): (v: Validation)
    ensures v == FileNotFound <==> !fileExists
    ensures v.Accepted? <==> fileExists && (HasImageExtension(path) || confirm)
    ensures v == Accepted(true) <==> fileExists && !HasImageExtension(path) && confirm
  {
    if !fileExists then FileNotFound
    else if !HasImageExtension(path) then (if confirm then Accepted(true) else Cancelled)
    else Accepted(false)
  }

  /** `cleanup_temp_file`: the file is unlinked only when the path is
      non-empty, the file exists and the temporary directory is one of its
      parents; a failing unlink is swallowed, so nothing is ever raised. */
  method CleanupTempFile(path: string, tempDir: string, fileExists: bool, unlinkSucceeds: bool) returns (removed: bool)
    ensures removed ==> path != "" && fileExists && IsAncestor(tempDir, path)
    ensures removed <==> path != "" && fileExists && IsAncestor(tempDir, path) && unlinkSucceeds
  {
    removed := false;
    if path != "" && fileExists && IsAncestor(tempDir, path) {
      removed := unlinkSucceeds;
    }
  }
}
