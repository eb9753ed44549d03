/**
 * Python 2's os.path.abspath on POSIX, which the projection-matching
 * protocol applies to the reference and mask names before anything uses
 * them (protocol_projmatch.py, lines 587-588): a relative name is joined
 * to the working directory, and the result is normalised by
 * posixpath.normpath, which drops empty and "." components, lets ".."
 * remove the component before it (and nothing at the root), and keeps a
 * leading "//" but folds three or more leading slashes into one.
 */
module Paths {
  import opened Text

  /** A name that starts at the root. */
  predicate IsAbs(p: string) {
    |p| > 0 && p[0] == '/'
  }

  /** What os.getcwd() returns: always an absolute name. */
  type AbsolutePath = s: string | IsAbs(s) witness "/"

  /** A component normpath keeps as it is. */
  predicate Plain(comp: string) {
    comp != "" && comp != "." && comp != ".." && '/' !in comp
  }

  predicate AllPlain(comps: seq<string>) {
    forall i :: 0 <= i < |comps| ==> Plain(comps[i])
  }

  predicate NoSlash(comps: seq<string>) {
    forall i :: 0 <= i < |comps| ==> '/' !in comps[i]
  }

  /** posixpath.join for two parts. */
  function JoinPath(a: string, b: string): string {
    if IsAbs(b) then b
    else if a == "" || a[|a| - 1] == '/' then a + b
    else a + "/" + b
  }

  /** How many leading slashes normpath keeps: none for a relative name,
      two for exactly two, one otherwise. */
  function LeadingSlashes(path: string): (n: nat)
    ensures n <= 2 && (n == 0 <==> !IsAbs(path))
  {
    if !IsAbs(path) then 0
    else if |path| >= 2 && path[1] == '/' && (|path| == 2 || path[2] != '/') then 2
    else 1
  }

  function Root(slashes: nat): string
    requires slashes <= 2
  {
    if slashes == 0 then "" else if slashes == 1 then "/" else "//"
  }

  /** The component loop of normpath: `kept` is the list built so far. Below
      the root every component kept is plain. */
  function Collapse(comps: seq<string>, kept: seq<string>, rooted: bool): (r: seq<string>)
    ensures rooted && AllPlain(kept) && NoSlash(comps) ==> AllPlain(r)
    decreases |comps|
  {
    if comps == [] then kept
    else
      var c := comps[0];
      if c == "" || c == "." then Collapse(comps[1..], kept, rooted)
      else if c != ".." || (!rooted && kept == []) || (kept != [] && kept[|kept| - 1] == "..") then
        Collapse(comps[1..], kept + [c], rooted)
      else if kept != [] then Collapse(comps[1..], kept[..|kept| - 1], rooted)
      else Collapse(comps[1..], kept, rooted)
  }

  /** posixpath.normpath. */
  function NormPath(path: string): (r: string)
    ensures r != ""
    ensures IsAbs(path) ==> IsAbs(r)
  {
    if path == "" then "."
    else
      var slashes := LeadingSlashes(path);
      var r := Root(slashes) + Join(Collapse(SplitChar(path, '/'), [], slashes > 0), '/');
      if r == "" then "." else r
  }

  /** os.path.abspath, with the working directory as a parameter. The
      result is absolute, so it has more than one character unless it is
      the root itself. */
  function AbsPath(cwd: AbsolutePath, path: string): (r: string)
    ensures IsAbs(r)
    ensures |r| <= 1 <==> r == "/"
  {
    var joined := if IsAbs(path) then path else JoinPath(cwd, path);
    assert joined[0] == '/';
    NormPath(joined)
  }

  // ---------------------------------------------------------------------
  // Splitting and joining at '/'
  // ---------------------------------------------------------------------

  lemma {:induction false} JoinAppend(p: seq<string>, q: seq<string>, c: char)
    requires p != [] && q != []
    ensures Join(p + q, c) == Join(p, c) + [c] + Join(q, c)
    decreases |p|
  {
    if |p| > 1 {
      JoinAppend(p[1..], q, c);
      assert (p + q)[1..] == p[1..] + q;
    } else {
      assert (p + q)[1..] == q;
    }
  }

  /** The pieces of two texts, joined again, give the texts joined. */
  lemma {:induction false} JoinOfSplits(a: string, b: string, c: char)
    ensures Join(SplitChar(a, c) + SplitChar(b, c), c) == a + [c] + b
  {
    JoinSplit(a, c);
    JoinSplit(b, c);
    JoinAppend(SplitChar(a, c), SplitChar(b, c), c);
  }

  /** No piece of a split holds the separator. */
  lemma {:induction false} NoSeparatorInSplits(a: string, b: string, c: char)
    ensures var parts := SplitChar(a, c) + SplitChar(b, c);
      forall i :: 0 <= i < |parts| ==> c !in parts[i]
  {
    var sa := SplitChar(a, c);
    var sb := SplitChar(b, c);
    forall i | 0 <= i < |sa + sb| ensures c !in (sa + sb)[i] {
      if i < |sa| {
        assert (sa + sb)[i] == sa[i];
      } else {
        assert (sa + sb)[i] == sb[i - |sa|];
      }
    }
  }

  /** Splitting at a separator distributes over text joined at it. */
  lemma {:induction false} SplitAppend(a: string, b: string, c: char)
    ensures SplitChar(a + [c] + b, c) == SplitChar(a, c) + SplitChar(b, c)
  {
    var parts := SplitChar(a, c) + SplitChar(b, c);
    JoinOfSplits(a, b, c);
    NoSeparatorInSplits(a, b, c);
    SplitJoin(parts, c);
  }

  /** The pieces of `/`-joined plain components, or the one empty piece. */
  lemma {:induction false} SplitJoined(comps: seq<string>)
    requires AllPlain(comps)
    ensures SplitChar(Join(comps, '/'), '/') == if comps == [] then [""] else comps
  {
    if comps != [] {
      SplitJoin(comps, '/');
    }
  }

  lemma {:induction false} JoinStartsWithFirst(comps: seq<string>)
    requires comps != [] && comps[0] != ""
    ensures |Join(comps, '/')| > 0 && Join(comps, '/')[0] == comps[0][0]
  {
  }

  // ---------------------------------------------------------------------
  // Normal form
  // ---------------------------------------------------------------------

  /** Plain components are all kept, in order. */
  lemma {:induction false} CollapsePlain(comps: seq<string>, kept: seq<string>, rooted: bool)
    requires AllPlain(comps)
    ensures Collapse(comps, kept, rooted) == kept + comps
    decreases |comps|
  {
    if comps != [] {
      CollapsePlain(comps[1..], kept + [comps[0]], rooted);
      assert kept + [comps[0]] + comps[1..] == kept + comps;
    }
  }

  /** A root followed by plain components keeps exactly its slashes. */
  lemma {:induction false} LeadingOfNormal(slashes: nat, comps: seq<string>)
    requires 1 <= slashes <= 2 && AllPlain(comps)
    ensures LeadingSlashes(Root(slashes) + Join(comps, '/')) == slashes
  {
    if comps != [] {
      JoinStartsWithFirst(comps);
    }
  }

  /** The pieces of the empty name and of the root alone. */
  lemma {:induction false} SplitOfRoot()
    ensures SplitChar("", '/') == [""]
    ensures SplitChar("/", '/') == ["", ""]
  {
    assert '/' !in "";
    assert IndexOf("/", '/') == 0;
    assert "/"[..0] == "" && "/"[1..] == "";
  }

  /** The pieces of a name after a root: one empty piece per slash. */
  lemma {:induction false} SplitAfterRoot(slashes: nat, body: string)
    requires 1 <= slashes <= 2
    ensures SplitChar(Root(slashes) + body, '/') == (if slashes == 1 then [""] else ["", ""]) + SplitChar(body, '/')
  {
    SplitOfRoot();
    if slashes == 1 {
      SplitAppend("", body, '/');
      assert Root(slashes) + body == "" + ['/'] + body;
    } else {
      SplitAppend("/", body, '/');
      assert Root(slashes) + body == "/" + ['/'] + body;
    }
  }

  /** normpath skips an empty piece. */
  lemma {:induction false} CollapseSkipsEmpty(pieces: seq<string>, kept: seq<string>, rooted: bool)
    ensures Collapse([""] + pieces, kept, rooted) == Collapse(pieces, kept, rooted)
  {
    assert ([""] + pieces)[0] == "" && ([""] + pieces)[1..] == pieces;
  }

  /** The components normpath finds in a root followed by plain components. */
  lemma {:induction false} CollapseOfNormal(slashes: nat, comps: seq<string>)
    requires 1 <= slashes <= 2 && AllPlain(comps)
    ensures Collapse(SplitChar(Root(slashes) + Join(comps, '/'), '/'), [], true) == comps
  {
    var body := Join(comps, '/');
    var pieces := SplitChar(body, '/');
    SplitJoined(comps);
    CollapsePlain(comps, [], true);
    SplitAfterRoot(slashes, body);
    CollapseSkipsEmpty(pieces, [], true);
    if slashes == 2 {
      assert ["", ""] + pieces == [""] + ([""] + pieces);
      CollapseSkipsEmpty([""] + pieces, [], true);
    }
  }

  /** A root followed by plain components is already normal. */
  lemma {:induction false} NormalForm(slashes: nat, comps: seq<string>)
    requires 1 <= slashes <= 2 && AllPlain(comps)
    ensures NormPath(Root(slashes) + Join(comps, '/')) == Root(slashes) + Join(comps, '/')
  {
    LeadingOfNormal(slashes, comps);
    CollapseOfNormal(slashes, comps);
  }

  /** Normalising an absolute name twice is normalising it once. */
  lemma {:induction false} NormPathIdempotent(path: string)
    requires IsAbs(path)
    ensures NormPath(NormPath(path)) == NormPath(path)
  {
    var slashes := LeadingSlashes(path);
    var comps := Collapse(SplitChar(path, '/'), [], true);
    assert NormPath(path) == Root(slashes) + Join(comps, '/');
    NormalForm(slashes, comps);
  }

  /** An absolute name is its own absolute name, so resolving twice is
      resolving once. */
  lemma {:induction false} AbsPathIdempotent(cwd: AbsolutePath, path: string)
    ensures AbsPath(cwd, AbsPath(cwd, path)) == AbsPath(cwd, path)
  {
    var joined := if IsAbs(path) then path else JoinPath(cwd, path);
    assert joined[0] == '/';
    NormPathIdempotent(joined);
  }

  /** The last character of `/`-joined plain components is not a slash. */
  lemma {:induction false} JoinEndsInPlain(comps: seq<string>)
    requires comps != [] && AllPlain(comps)
    ensures var j := Join(comps, '/'); |j| > 0 && j[|j| - 1] != '/'
  {
    var n := |comps|;
    if n > 1 {
      JoinAppend(comps[..n - 1], [comps[n - 1]], '/');
      assert comps[..n - 1] + [comps[n - 1]] == comps;
    }
    var last := comps[n - 1];
    assert last[|last| - 1] in last;
  }

  lemma {:induction false} AllPlainAppend(a: seq<string>, b: seq<string>)
    requires AllPlain(a) && AllPlain(b)
    ensures AllPlain(a + b)
  {
    forall i | 0 <= i < |a + b| ensures Plain((a + b)[i]) {
      if i >= |a| {
        assert (a + b)[i] == b[i - |a|];
      }
    }
  }

  /** posixpath.join puts exactly one slash between a directory in the
      form os.getcwd() gives it and a clean relative name. */
  lemma {:induction false} JoinUnderDirectory(cwdComps: seq<string>, nameComps: seq<string>)
    requires cwdComps != [] && AllPlain(cwdComps) && nameComps != [] && AllPlain(nameComps)
    ensures var cwd := "/" + Join(cwdComps, '/');
      var name := Join(nameComps, '/');
      JoinPath(cwd, name) == cwd + "/" + name == Root(1) + Join(cwdComps + nameComps, '/')
  {
    var dir := Join(cwdComps, '/');
    var cwd := "/" + dir;
    var name := Join(nameComps, '/');
    JoinStartsWithFirst(nameComps);
    JoinEndsInPlain(cwdComps);
    assert cwd[|cwd| - 1] == dir[|dir| - 1];
    JoinAppend(cwdComps, nameComps, '/');
  }

  /** A clean relative name resolves to the working directory followed by
      that name, when the working directory is in the form os.getcwd()
      gives it (the root, or the root followed by plain components). */
  lemma {:induction false} AbsPathOfRelative(cwdComps: seq<string>, nameComps: seq<string>)
    requires AllPlain(cwdComps) && nameComps != [] && AllPlain(nameComps)
    ensures var cwd := "/" + Join(cwdComps, '/');
      var name := Join(nameComps, '/');
      AbsPath(cwd, name) == (if cwdComps == [] then "/" else cwd + "/") + name
  {
    var cwd := "/" + Join(cwdComps, '/');
    var name := Join(nameComps, '/');
    JoinStartsWithFirst(nameComps);
    assert AbsPath(cwd, name) == NormPath(JoinPath(cwd, name));
    if cwdComps == [] {
      assert JoinPath(cwd, name) == Root(1) + name;
      NormalForm(1, nameComps);
    } else {
      JoinUnderDirectory(cwdComps, nameComps);
      AllPlainAppend(cwdComps, nameComps);
      NormalForm(1, cwdComps + nameComps);
    }
  }

  /** Names that resolve to the root itself: "/" from anywhere, "/.." and
      the empty name from the root. */
  lemma {:induction false} ResolvesToRoot(cwd: AbsolutePath)
    ensures AbsPath(cwd, "/") == "/"
    ensures AbsPath(cwd, "/..") == "/"
    ensures AbsPath("/", "") == "/"
  {
    NormalForm(1, []);
    assert "/" == Root(1) + Join([], '/');
    SplitAppend("", "..", '/');
    assert "/.." == "" + ['/'] + "..";
    assert SplitChar("", '/') == [""];
    assert SplitChar("..", '/') == [".."];
    assert SplitChar("/..", '/') == ["", ".."];
    assert Collapse(["", ".."], [], true) == Collapse([".."], [], true);
    assert JoinPath("/", "") == "/";
  }

  /** A one-letter relative name is resolved to a longer absolute one. */
  lemma {:induction false} OneLetterExample()
    ensures AbsPath("/home/user", "x") == "/home/user/x"
  {
    var dir := ["home", "user"];
    AbsPathOfRelative(dir, ["x"]);
    assert dir[1..] == ["user"];
    assert Join(dir, '/') == "home" + ['/'] + "user";
    assert "/" + Join(dir, '/') == "/home/user";
    assert Join(["x"], '/') == "x";
  }
}
