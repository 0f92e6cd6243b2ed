/** The part of Python's `urllib.parse` that the tool relies on: `urlsplit`
    (input sanitising, scheme, `//` authority, fragment, query) and the
    `;params` split that `urlparse` applies to the path. */
module UrlParse {
  import opened Text
  import opened Wrappers

  /** WHATWG "C0 control or space": U+0000 to U+0020. */
  predicate IsC0OrSpace(c: char) { c <= ' ' }

  /** `str.lstrip` of the C0 controls and space. */
  function LStripC0(s: string): (r: string)
    ensures |r| <= |s| && r == s[|s| - |r|..]
    ensures r == [] || !IsC0OrSpace(r[0])
    ensures forall i :: 0 <= i < |s| - |r| ==> IsC0OrSpace(s[i])
  {
    if s != [] && IsC0OrSpace(s[0]) then LStripC0(s[1..]) else s
  }

  /** Tab, carriage return and line feed are deleted anywhere in the input. */
  predicate IsUnsafe(c: char) { c == '\t' || c == '\r' || c == '\n' }

  function RemoveUnsafe(s: string): (r: string)
    ensures |r| <= |s|
  {
    if s == [] then []
    else if IsUnsafe(s[0]) then RemoveUnsafe(s[1..])
    else [s[0]] + RemoveUnsafe(s[1..])
  }

  lemma RemoveUnsafeConcat(a: string, b: string)
    ensures RemoveUnsafe(a + b) == RemoveUnsafe(a) + RemoveUnsafe(b)
  {
    if a == [] {
      assert a + b == b;
    } else {
      assert (a + b)[0] == a[0];
      assert (a + b)[1..] == a[1..] + b;
      RemoveUnsafeConcat(a[1..], b);
    }
  }

  lemma LStripC0Concat(a: string, b: string)
    requires b != [] && !IsC0OrSpace(b[0])
    ensures LStripC0(a + b) == LStripC0(a) + b
  {
    if a == [] {
      assert a + b == b;
    } else {
      assert (a + b)[0] == a[0];
      assert (a + b)[1..] == a[1..] + b;
      LStripC0Concat(a[1..], b);
    }
  }

  /** What `urlsplit` does to its input before splitting it. */
  function Sanitize(s: string): string
  {
    RemoveUnsafe(LStripC0(s))
  }

  lemma SanitizeConcat(s: string, t: string)
    requires t != [] && !IsC0OrSpace(t[0])
    ensures Sanitize(s + t) == Sanitize(s) + RemoveUnsafe(t)
  {
    LStripC0Concat(s, t);
    RemoveUnsafeConcat(LStripC0(s), t);
  }

  /** Appending a delimiter and a tail survives sanitising unchanged, apart
      from the tail's own tabs and line breaks. */
  lemma SanitizeAppend(s: string, sep: char, tail: string)
    requires !IsC0OrSpace(sep)
    ensures Sanitize(s + [sep] + tail) == Sanitize(s) + [sep] + RemoveUnsafe(tail)
  {
    var t := [sep] + tail;
    assert t[0] == sep && t[1..] == tail;
    assert RemoveUnsafe(t) == [sep] + RemoveUnsafe(tail);
    assert s + [sep] + tail == s + t;
    SanitizeConcat(s, t);
  }

  predicate IsSchemeChar(c: char) { IsAsciiLetter(c) || IsAsciiDigit(c) || c == '+' || c == '-' || c == '.' }

  /** A scheme as `urlsplit` accepts it: non-empty, an ASCII letter first,
      then letters, digits, `+`, `-` and `.` only. */
  predicate IsSchemeText(t: string)
  {
    |t| > 0 && IsAsciiLetter(t[0]) && forall k :: 0 <= k < |t| ==> IsSchemeChar(t[k])
  }

  /** The characters that end the authority part. */
  const NetlocDelims: set<char> := {'/', '?', '#'}

  /** `('[' in n and ']' not in n) or (']' in n and '[' not in n)`, the case
      in which `urlsplit` raises `ValueError("Invalid IPv6 URL")`. */
  predicate BracketsUnbalanced(n: string)
  {
    ('[' in n && ']' !in n) || (']' in n && '[' !in n)
  }

  datatype SplitUrl = SplitUrl(scheme: string, netloc: string, path: string, query: string, fragment: string)

  /** Scheme and the rest: the text before the first `:` when it is a valid
      scheme (lower-cased), and `("", url)` otherwise. */
  function SplitScheme(url: string): (r: (string, string))
    ensures |r.1| <= |url| && r.1 == url[|url| - |r.1|..]
    ensures r.0 != "" ==> IsSchemeText(r.0)
  {
    var i := FirstOf(url, {':'});
    if 0 < i < |url| && IsSchemeText(url[..i]) then (Lower(url[..i]), url[i + 1..]) else ("", url)
  }

  /** Fragment after the first `#`, then query after the first `?`. */
  function SplitTail(scheme: string, netloc: string, rest: string): (r: SplitUrl)
    ensures r.scheme == scheme && r.netloc == netloc
    ensures '#' !in r.path && '?' !in r.path
  {
    var f := FirstOf(rest, {'#'});
    var beforeFragment := rest[..f];
    var fragment := if f < |rest| then rest[f + 1..] else "";
    var q := FirstOf(beforeFragment, {'?'});
    var path := beforeFragment[..q];
    assert forall c :: c in path ==> c != '#' && c != '?';
    SplitUrl(scheme, netloc, path, if q < |beforeFragment| then beforeFragment[q + 1..] else "", fragment)
  }

  /** `urllib.parse.urlsplit(s)`; `Err` is the `ValueError` raised for an
      authority with one bracket but not the other. */
  function UrlSplit(s: string): (r: Result<SplitUrl, string>)
    ensures r.Ok? ==> '#' !in r.value.path && '?' !in r.value.path
    ensures r.Ok? ==> forall c :: c in r.value.netloc ==> c !in NetlocDelims
    ensures r.Ok? ==> !BracketsUnbalanced(r.value.netloc)
    ensures r.Ok? && r.value.scheme != "" ==> IsSchemeText(r.value.scheme)
    ensures r.Err? ==> r.error == "Invalid IPv6 URL"
  {
    SplitSanitized(Sanitize(s))
  }

  /** The splitting that follows sanitising. */
  function SplitSanitized(url: string): (r: Result<SplitUrl, string>)
    ensures r.Ok? ==> '#' !in r.value.path && '?' !in r.value.path
    ensures r.Ok? ==> forall c :: c in r.value.netloc ==> c !in NetlocDelims
    ensures r.Ok? ==> !BracketsUnbalanced(r.value.netloc)
    ensures r.Ok? && r.value.scheme != "" ==> IsSchemeText(r.value.scheme)
    ensures r.Err? ==> r.error == "Invalid IPv6 URL"
  {
    var (scheme, rest) := SplitScheme(url);
    SplitAfterScheme(scheme, rest)
  }

  /** Authority (after `//`), then fragment, query and path. */
  function SplitAfterScheme(scheme: string, rest: string): (r: Result<SplitUrl, string>)
    ensures r.Ok? ==> '#' !in r.value.path && '?' !in r.value.path
    ensures r.Ok? ==> forall c :: c in r.value.netloc ==> c !in NetlocDelims
    ensures r.Ok? ==> !BracketsUnbalanced(r.value.netloc)
    ensures r.Ok? ==> r.value.scheme == scheme
    ensures r.Err? ==> r.error == "Invalid IPv6 URL"
  {
    if "//" <= rest then
      var body := rest[2..];
      var d := FirstOf(body, NetlocDelims);
      var netloc := body[..d];
      if BracketsUnbalanced(netloc) then Err("Invalid IPv6 URL")
      else Ok(SplitTail(scheme, netloc, body[d..]))
    else Ok(SplitTail(scheme, "", rest))
  }

  /** Schemes for which `urlparse` splits `;params` off the path. */
  const UsesParams: set<string> :=
    {"", "ftp", "hdl", "prospero", "http", "imap", "https", "shttp", "rtsp", "rtsps",
     "rtspu", "sip", "sips", "mms", "sftp", "tel"}

  /** Index just past the last `/` of `s`, or 0 when there is none. */
  function AfterLastSlash(s: string): (k: nat)
    ensures k <= |s|
    ensures forall j :: k <= j < |s| ==> s[j] != '/'
  {
    if s == [] then 0
    else if s[|s| - 1] == '/' then |s|
    else AfterLastSlash(s[..|s| - 1])
  }

  /** `_splitparams(path)[0]`: the path up to the first `;` after its last `/`. */
  function StripParams(path: string): (r: string)
    ensures r <= path
  {
    var k := AfterLastSlash(path);
    var j := FirstOf(path[k..], {';'});
    path[..k + j]
  }

  /** The `path` attribute of `urllib.parse.urlparse(s)`. */
  function UrlParsePath(s: string): (r: Result<string, string>)
    ensures UrlSplit(s).Err? <==> r.Err?
    ensures r.Ok? ==> r.value <= UrlSplit(s).value.path
  {
    PathOfSplit(UrlSplit(s))
  }

  function PathOfSplit(split: Result<SplitUrl, string>): (r: Result<string, string>)
    ensures split.Err? <==> r.Err?
    ensures r.Ok? ==> r.value <= split.value.path
  {
    match split
    case Err(e) => Err(e)
    case Ok(parts) => Ok(PathWithoutParams(parts))
  }

  /** The path of a split URL, less any `;params` when its scheme has them. */
  function PathWithoutParams(parts: SplitUrl): (p: string)
    ensures p <= parts.path
  {
    if parts.scheme in UsesParams && ';' in parts.path then StripParams(parts.path) else parts.path
  }

  lemma {:induction false} RemoveUnsafeChars(s: string, c: char)
    requires c in RemoveUnsafe(s)
    ensures c in s
    decreases |s|
  {
    if s != [] && c != s[0] {
      if IsUnsafe(s[0]) {
        RemoveUnsafeChars(s[1..], c);
      } else {
        assert c in RemoveUnsafe(s[1..]);
        RemoveUnsafeChars(s[1..], c);
      }
    }
  }

  /** Sanitising only deletes characters. */
  lemma SanitizeChars(s: string, c: char)
    requires c in Sanitize(s)
    ensures c in s
  {
    RemoveUnsafeChars(LStripC0(s), c);
  }

  /** A text with no `:` of its own gains no scheme from a tail that starts
      with a non-scheme delimiter; a text that has one keeps it. */
  lemma SplitSchemeAppend(u: string, sep: char, t: string)
    requires !IsSchemeChar(sep) && sep != ':'
    ensures SplitScheme(u + [sep] + t).0 == SplitScheme(u).0
    ensures SplitScheme(u + [sep] + t).1 == SplitScheme(u).1 + [sep] + t
  {
    var v := u + [sep] + t;
    assert v == u + ([sep] + t);
    FirstOfConcat(u, [sep] + t, {':'});
    if FirstOf(u, {':'}) < |u| {
      SchemeAppendColon(u, sep, t);
    } else {
      SchemeAppendNoColon(u, sep, t);
    }
  }

  lemma SchemeAppendColon(u: string, sep: char, t: string)
    requires FirstOf(u, {':'}) < |u|
    requires FirstOf(u + [sep] + t, {':'}) == FirstOf(u, {':'})
    ensures SplitScheme(u + [sep] + t).0 == SplitScheme(u).0
    ensures SplitScheme(u + [sep] + t).1 == SplitScheme(u).1 + [sep] + t
  {
    var v := u + [sep] + t;
    var i := FirstOf(u, {':'});
    assert v[..i] == u[..i];
    assert v[i + 1..] == u[i + 1..] + [sep] + t;
  }

  lemma SchemeAppendNoColon(u: string, sep: char, t: string)
    requires !IsSchemeChar(sep)
    requires FirstOf(u, {':'}) == |u|
    requires FirstOf(u + [sep] + t, {':'}) == |u| + FirstOf([sep] + t, {':'})
    requires sep != ':'
    ensures SplitScheme(u + [sep] + t) == ("", u + [sep] + t)
    ensures SplitScheme(u) == ("", u)
  {
    var v := u + [sep] + t;
    var i := FirstOf(v, {':'});
    assert ([sep] + t)[0] == sep;
    if 0 < i < |v| {
      assert i > |u|;
      assert v[..i][|u|] == sep;
    }
  }

  /** Without `?` and `#` the whole text is path. */
  lemma SplitTailPlain(scheme: string, netloc: string, a: string)
    requires '?' !in a && '#' !in a
    ensures SplitTail(scheme, netloc, a).path == a
  {
    FirstOfAt(a, {'#'}, |a|);
    assert a[..|a|] == a;
    FirstOfAt(a, {'?'}, |a|);
  }

  lemma SplitTailAppend(scheme: string, netloc: string, a: string, sep: char, t: string)
    requires sep == '?' || sep == '#'
    requires '?' !in a && '#' !in a
    ensures SplitTail(scheme, netloc, a + [sep] + t).path == a
  {
    var r := a + [sep] + t;
    assert r[..|a|] == a && r[|a|] == sep;
    var f := FirstOf(r, {'#'});
    if sep == '#' {
      FirstOfAt(r, {'#'}, |a|);
      FirstOfAt(a, {'?'}, |a|);
    } else {
      assert f > |a|;
      var bf := r[..f];
      assert bf[..|a|] == a && bf[|a|] == '?';
      FirstOfAt(bf, {'?'}, |a|);
    }
  }

  /** The authority ends where the appended delimiter starts, if not before. */
  lemma NetlocAppend(body: string, sep: char, t: string)
    requires sep in NetlocDelims
    ensures FirstOf(body + [sep] + t, NetlocDelims) == FirstOf(body, NetlocDelims)
  {
    assert body + [sep] + t == body + ([sep] + t);
    FirstOfConcat(body, [sep] + t, NetlocDelims);
  }

  /** An appended `?` or `#` neither makes nor unmakes the `//` marker. */
  lemma AuthorityMarkerAppend(rest: string, sep: char, t: string)
    requires sep == '?' || sep == '#'
    ensures "//" <= rest + [sep] + t <==> "//" <= rest
  {
    var rest' := rest + [sep] + t;
    if |rest| >= 2 {
      assert rest'[..2] == rest[..2];
    } else if |rest| == 1 {
      assert rest'[1] == sep;
    } else {
      assert rest'[0] == sep;
    }
  }

  /** After `//`, the appended text leaves the authority and the path alone. */
  lemma AuthorityBodyAppend(scheme: string, body: string, sep: char, t: string)
    requires sep == '?' || sep == '#'
    requires '?' !in body && '#' !in body
    ensures FirstOf(body + [sep] + t, NetlocDelims) == FirstOf(body, NetlocDelims)
    ensures var d := FirstOf(body, NetlocDelims);
      (body + [sep] + t)[..d] == body[..d] &&
      SplitTail(scheme, body[..d], (body + [sep] + t)[d..]).path == SplitTail(scheme, body[..d], body[d..]).path
  {
    NetlocAppend(body, sep, t);
    var d := FirstOf(body, NetlocDelims);
    assert (body + [sep] + t)[..d] == body[..d];
    assert (body + [sep] + t)[d..] == body[d..] + [sep] + t;
    assert '?' !in body[d..] && '#' !in body[d..];
    SplitTailAppend(scheme, body[..d], body[d..], sep, t);
    SplitTailPlain(scheme, body[..d], body[d..]);
  }

  lemma AfterSchemeAppend(scheme: string, rest: string, sep: char, t: string)
    requires sep == '?' || sep == '#'
    requires '?' !in rest && '#' !in rest
    ensures SplitAfterScheme(scheme, rest + [sep] + t).Ok? == SplitAfterScheme(scheme, rest).Ok?
    ensures SplitAfterScheme(scheme, rest).Ok? ==>
      SplitAfterScheme(scheme, rest + [sep] + t).value.netloc == SplitAfterScheme(scheme, rest).value.netloc &&
      SplitAfterScheme(scheme, rest + [sep] + t).value.path == SplitAfterScheme(scheme, rest).value.path
  {
    AuthorityMarkerAppend(rest, sep, t);
    if "//" <= rest {
      var body := rest[2..];
      assert (rest + [sep] + t)[2..] == body + [sep] + t;
      AuthorityBodyAppend(scheme, body, sep, t);
    } else {
      SplitTailAppend(scheme, "", rest, sep, t);
      SplitTailPlain(scheme, "", rest);
    }
  }

  lemma SplitSanitizedAppend(u: string, sep: char, t: string)
    requires sep == '?' || sep == '#'
    requires '?' !in u && '#' !in u
    ensures SplitSanitized(u + [sep] + t).Ok? == SplitSanitized(u).Ok?
    ensures SplitSanitized(u).Ok? ==>
      var r, r' := SplitSanitized(u).value, SplitSanitized(u + [sep] + t).value;
      r'.scheme == r.scheme && r'.netloc == r.netloc && r'.path == r.path
  {
    SplitSchemeAppend(u, sep, t);
    var sr := SplitScheme(u);
    assert SplitScheme(u + [sep] + t) == (sr.0, sr.1 + [sep] + t);
    assert '?' !in sr.1 && '#' !in sr.1;
    AfterSchemeAppend(sr.0, sr.1, sep, t);
  }

  /** Two splits that agree on scheme and path, or fail alike, give the same
      `urlparse` path. */
  lemma PathOfSplitAgree(a: Result<SplitUrl, string>, b: Result<SplitUrl, string>)
    requires a.Ok? == b.Ok?
    requires a.Ok? ==> a.value.scheme == b.value.scheme && a.value.path == b.value.path
    requires a.Err? ==> a.error == b.error
    ensures PathOfSplit(a) == PathOfSplit(b)
  {
    if a.Ok? {
      assert PathWithoutParams(a.value) == PathWithoutParams(b.value);
    }
  }

  /** Whatever follows a first `?` or `#` is query or fragment: appending it
      to a text that has neither changes no other component. */
  lemma SplitIgnoresQueryAndFragment(s: string, sep: char, tail: string)
    requires sep == '?' || sep == '#'
    requires '?' !in s && '#' !in s
    ensures UrlSplit(s + [sep] + tail).Ok? == UrlSplit(s).Ok?
    ensures UrlSplit(s).Ok? ==>
      var r, r' := UrlSplit(s).value, UrlSplit(s + [sep] + tail).value;
      r'.scheme == r.scheme && r'.netloc == r.netloc && r'.path == r.path
  {
    var u := Sanitize(s);
    SanitizeAppend(s, sep, tail);
    if '?' in u { SanitizeChars(s, '?'); }
    if '#' in u { SanitizeChars(s, '#'); }
    SplitSanitizedAppend(u, sep, RemoveUnsafe(tail));
  }

  /** So the path `urlparse` reports ignores them too. */
  lemma PathIgnoresQueryAndFragment(s: string, sep: char, tail: string)
    requires sep == '?' || sep == '#'
    requires '?' !in s && '#' !in s
    ensures UrlParsePath(s + [sep] + tail) == UrlParsePath(s)
  {
    SplitIgnoresQueryAndFragment(s, sep, tail);
    PathOfSplitAgree(UrlSplit(s), UrlSplit(s + [sep] + tail));
  }
}
