/** The lexical part of `pathlib.PurePosixPath` that the tool uses: how a
    string is split into a root and parts, `.name`, `.suffix`, membership in
    `.parents`, and `os.path.join` of a directory and a file name. */
module PosixPath {
  import opened Text

  /** A parsed path: root is "", "/" or "//"; parts are the non-empty
      components other than ".". Two paths are equal exactly when these are. */
  datatype PurePath = PurePath(root: string, parts: seq<string>)

  /** `posixpath.splitroot` without the drive: exactly two leading slashes
      form a root of their own, one or three or more collapse to "/". */
  function SplitRoot(s: string): (string, string)
  {
    if !("/" <= s) then ("", s)
    else if !("//" <= s) || "///" <= s then ("/", s[1..])
    else ("//", s[2..])
  }

  /** `s.split('/')`. */
  function SplitSlash(s: string): (r: seq<string>)
    ensures |r| > 0
    decreases |s|
  {
    var k := FirstOf(s, {'/'});
    if k == |s| then [s] else [s[..k]] + SplitSlash(s[k + 1..])
  }

  predicate IsPart(x: string) { x != "" && x != "." }

  /** The components that `pathlib` keeps. */
  function KeepParts(xs: seq<string>): (r: seq<string>)
    ensures forall i :: 0 <= i < |r| ==> IsPart(r[i])
  {
    if xs == [] then []
    else if IsPart(xs[0]) then [xs[0]] + KeepParts(xs[1..])
    else KeepParts(xs[1..])
  }

  function Parts(rel: string): seq<string>
  {
    KeepParts(SplitSlash(rel))
  }

  function Parse(s: string): PurePath
  {
    var (root, rel) := SplitRoot(s);
    PurePath(root, Parts(rel))
  }

  /** `.name`: the last part, or "" when there is none. */
  function Name(p: PurePath): string
  {
    if p.parts == [] then "" else p.parts[|p.parts| - 1]
  }

  /** Index of the last `c` in `s`, or -1. */
  function LastIndex(s: string, c: char): (i: int)
    ensures -1 <= i < |s|
    ensures i >= 0 ==> s[i] == c
    ensures forall j :: i < j < |s| ==> s[j] != c
  {
    if s == [] then -1
    else if s[|s| - 1] == c then |s| - 1
    else LastIndex(s[..|s| - 1], c)
  }

  /** `.suffix` of a name: from its last dot on, when that dot is neither the
      first nor the last character; "" otherwise. */
  function Suffix(name: string): (r: string)
    ensures r != "" ==> |r| >= 2 && r[0] == '.' && |r| < |name| && r == name[|name| - |r|..]
    ensures r != "" ==> forall j :: 1 <= j < |r| ==> r[j] != '.'
    ensures r != "" <==>
      exists i :: 0 < i < |name| - 1 && name[i] == '.' && forall j :: i < j < |name| ==> name[j] != '.'
  {
    var i := LastIndex(name, '.');
    if 0 < i < |name| - 1 then name[i..] else ""
  }

  /** `Path(s).suffix`. */
  function PathSuffix(s: string): string
  {
    Suffix(Name(Parse(s)))
  }

  /** `Path(dir) in Path(path).parents`: same root, and the parts of `dir`
      are a proper prefix of the parts of `path`. */
  predicate IsAncestor(dir: string, path: string)
  {
    var d, p := Parse(dir), Parse(path);
    d.root == p.root && |d.parts| < |p.parts| && d.parts == p.parts[..|d.parts|]
  }

  /** `os.path.join(dir, name)` for a name that does not start with "/". */
  function Join(dir: string, name: string): string
  {
    if dir == [] || dir[|dir| - 1] == '/' then dir + name else dir + "/" + name
  }

  /** Splitting at the first "/". */
  lemma SplitSlashAt(s: string, k: nat)
    requires k < |s| && s[k] == '/' && '/' !in s[..k]
    ensures SplitSlash(s) == [s[..k]] + SplitSlash(s[k + 1..])
  {
    forall j | 0 <= j < k ensures s[j] !in {'/'} {
      assert s[j] == s[..k][j];
    }
    FirstOfAt(s, {'/'}, k);
  }

  /** A text without "/" splits into itself alone. */
  lemma SplitSlashPlain(s: string)
    requires '/' !in s
    ensures SplitSlash(s) == [s]
  {
    FirstOfAt(s, {'/'}, |s|);
  }

  lemma ConsAppend(x: string, p: seq<string>, q: seq<string>)
    ensures [x] + (p + q) == ([x] + p) + q
  {
  }

  lemma {:induction false} SplitSlashConcat(a: string, b: string)
    ensures SplitSlash(a + "/" + b) == SplitSlash(a) + SplitSlash(b)
    decreases |a|
  {
    var s := a + "/" + b;
    if '/' in a {
      var k := FirstOf(a, {'/'});
      var rest := a[k + 1..];
      assert '/' !in a[..k] by {
        forall j | 0 <= j < k ensures a[..k][j] != '/' { assert a[..k][j] == a[j]; }
      }
      SplitSlashAt(a, k);
      assert s[..k] == a[..k] && s[k] == '/' && s[k + 1..] == rest + "/" + b;
      SplitSlashAt(s, k);
      SplitSlashConcat(rest, b);
      ConsAppend(a[..k], SplitSlash(rest), SplitSlash(b));
    } else {
      SplitSlashPlain(a);
      assert s[..|a|] == a && s[|a|] == '/' && s[|a| + 1..] == b;
      SplitSlashAt(s, |a|);
    }
  }

  lemma {:induction false} KeepPartsConcat(xs: seq<string>, ys: seq<string>)
    ensures KeepParts(xs + ys) == KeepParts(xs) + KeepParts(ys)
    decreases |xs|
  {
    if xs == [] {
      assert xs + ys == ys;
    } else {
      assert (xs + ys)[0] == xs[0];
      assert (xs + ys)[1..] == xs[1..] + ys;
      KeepPartsConcat(xs[1..], ys);
    }
  }

  lemma PartsConcat(a: string, b: string)
    ensures Parts(a + "/" + b) == Parts(a) + Parts(b)
  {
    SplitSlashConcat(a, b);
    KeepPartsConcat(SplitSlash(a), SplitSlash(b));
  }

  lemma PartsEmpty()
    ensures Parts("") == []
  {
    assert SplitSlash("") == [""];
  }

  /** A name that starts with neither "/" nor "." contributes at least one part. */
  lemma PartsNonEmpty(b: string)
    requires b != [] && b[0] != '/' && b[0] != '.'
    ensures Parts(b) != []
  {
    var k := FirstOf(b, {'/'});
    assert k > 0;
    if k < |b| {
      assert SplitSlash(b) == [b[..k]] + SplitSlash(b[k + 1..]);
    } else {
      assert SplitSlash(b) == [b];
    }
    assert b[..k][0] == b[0];
  }

  /** Appending to a path whose root is already settled keeps that root. */
  lemma SplitRootExtend(s: string, t: string)
    requires "/" <= s
    requires |s| >= 3 || (|s| == 2 && s[1] != '/')
    ensures SplitRoot(s + t).0 == SplitRoot(s).0
    ensures SplitRoot(s + t).1 == SplitRoot(s).1 + t
  {
    assert (s + t)[..|s|] == s;
    if |s| >= 3 {
      assert (s + t)[..3] == s[..3];
    } else {
      assert (s + t)[..2] == s[..2];
    }
  }

  /** A name without "/" that is neither "" nor "." is a single part. */
  lemma PartsOfPlainName(name: string)
    requires IsPart(name) && '/' !in name
    ensures Parts(name) == [name]
  {
    FirstOfAt(name, {'/'}, |name|);
    assert SplitSlash(name) == [name];
    assert KeepParts([name]) == [name] + KeepParts([]);
  }

  /** The file `os.path.join(dir, name)` lies directly inside `dir`, for an
      absolute `dir` and a name that begins with neither "/" nor ".". */
  lemma {:induction false} JoinIsChild(dir: string, name: string)
    requires "/" <= dir
    requires name != [] && name[0] != '/' && name[0] != '.'
    ensures Parse(Join(dir, name)) == PurePath(Parse(dir).root, Parse(dir).parts + Parts(name))
    ensures IsAncestor(dir, Join(dir, name))
  {
    var (root, rel) := SplitRoot(dir);
    var j := Join(dir, name);
    PartsNonEmpty(name);
    PartsEmpty();
    if dir[|dir| - 1] == '/' {
      assert j == dir + name;
      if dir == "/" {
        assert SplitRoot(j) == ("/", name) by { assert j[1] == name[0]; }
      } else if dir == "//" {
        assert SplitRoot(j) == ("//", name) by { assert j[2] == name[0]; assert j[..2] == "//"; }
      } else {
        assert |dir| >= 3;
        SplitRootExtend(dir, name);
        assert rel != [] && rel[|rel| - 1] == '/';
        var z := rel[..|rel| - 1];
        assert rel == z + "/" + "";
        assert rel + name == z + "/" + name;
        PartsConcat(z, "");
        PartsConcat(z, name);
      }
    } else {
      assert j == dir + ("/" + name);
      assert |dir| >= 2;
      SplitRootExtend(dir, "/" + name);
      assert rel + ("/" + name) == rel + "/" + name;
      PartsConcat(rel, name);
    }
    var p := Parse(j);
    assert p.parts[..|Parse(dir).parts|] == Parse(dir).parts;
  }
}
