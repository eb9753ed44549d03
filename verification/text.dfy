/**
 * String operations the scripts and the C++ reader rely on, each with the
 * law that pins it down: Python's str.split() and str.split(c), '*'.join,
 * str.replace, str.find, readlines(), C's fgets into a fixed buffer, and
 * decimal conversion in both directions.
 */
module Text {
  import opened Wrappers

  // ---------------------------------------------------------------------
  // Whitespace-separated words (Python str.split(), C strtok on blanks)
  // ---------------------------------------------------------------------

  predicate IsSpace(c: char) {
    c == ' ' || c == '\t' || c == '\n' || c == '\r' || c == '\U{B}' || c == '\U{C}'
  }

  predicate NoSpace(w: string) {
    forall i :: 0 <= i < |w| ==> !IsSpace(w[i])
  }

  /** Length of the run of non-blank characters at the start of `s`. */
  function WordLen(s: string): (n: nat)
    ensures n <= |s|
    ensures NoSpace(s[..n])
    ensures n < |s| ==> IsSpace(s[n])
  {
    if s == [] || IsSpace(s[0]) then 0 else 1 + WordLen(s[1..])
  }

  /** The words of `s`, as Python's `s.split()` returns them. */
  function Words(s: string): (ws: seq<string>)
    ensures forall i :: 0 <= i < |ws| ==> ws[i] != [] && NoSpace(ws[i])
    decreases |s|
  {
    if s == [] then []
    else if IsSpace(s[0]) then Words(s[1..])
    else
      var n := WordLen(s);
      [s[..n]] + Words(s[n..])
  }

  /** A non-empty string without blanks is a single word. */
  lemma WordsOfWord(w: string)
    requires w != [] && NoSpace(w)
    ensures Words(w) == [w]
  {
    WordLenAll(w);
    assert !IsSpace(w[0]);
    assert w[..|w|] == w;
    assert w[|w|..] == [];
  }

  lemma {:induction false} WordLenAll(w: string)
    requires NoSpace(w)
    ensures WordLen(w) == |w|
    decreases |w|
  {
    if w != [] {
      assert NoSpace(w[1..]) by {
        forall i | 0 <= i < |w[1..]| ensures !IsSpace(w[1..][i]) {
          assert w[1..][i] == w[i + 1];
        }
      }
      WordLenAll(w[1..]);
    }
  }

  /** The run of a word stops at a blank that follows it. */
  lemma {:induction false} WordLenBeforeSpace(a: string, b: string)
    requires |b| > 0 && IsSpace(b[0])
    ensures WordLen(a + b) == WordLen(a)
    decreases |a|
  {
    if a == [] {
      assert a + b == b;
    } else {
      assert (a + b)[0] == a[0];
      if !IsSpace(a[0]) {
        assert (a + b)[1..] == a[1..] + b;
        WordLenBeforeSpace(a[1..], b);
      }
    }
  }

  /** Splitting two texts joined by a blank gives the words of each, in order. */
  lemma {:induction false} WordsSpaceJoin(a: string, sp: char, b: string)
    requires IsSpace(sp)
    ensures Words(a + [sp] + b) == Words(a) + Words(b)
    decreases |a|
  {
    var s := a + [sp] + b;
    if a == [] {
      assert s == [sp] + b;
      assert Words(s) == Words(s[1..]);
      assert s[1..] == b;
    } else if IsSpace(a[0]) {
      assert s[0] == a[0];
      assert Words(s) == Words(s[1..]);
      assert Words(a) == Words(a[1..]);
      assert s[1..] == a[1..] + [sp] + b;
      WordsSpaceJoin(a[1..], sp, b);
    } else {
      var n := WordLen(a);
      FirstWordBeforeJoin(a, sp, b);
      WordsSpaceJoin(a[n..], sp, b);
      assert [a[..n]] + (Words(a[n..]) + Words(b)) == ([a[..n]] + Words(a[n..])) + Words(b);
    }
  }

  /** A text that starts with a word keeps that word first when a blank
      and more text follow it. */
  lemma FirstWordBeforeJoin(a: string, sp: char, b: string)
    requires IsSpace(sp) && a != [] && !IsSpace(a[0])
    ensures var n := WordLen(a);
      && Words(a + [sp] + b) == [a[..n]] + Words(a[n..] + [sp] + b)
      && Words(a) == [a[..n]] + Words(a[n..])
  {
    var s := a + [sp] + b;
    assert s[0] == a[0];
    var n := WordLen(a);
    WordLenBeforeSpace(a, [sp] + b);
    assert s == a + ([sp] + b);
    assert s[..n] == a[..n];
    assert s[n..] == a[n..] + [sp] + b;
  }

  /** Words joined by single blanks split back into the same words. */
  lemma {:induction false} WordsJoin(ws: seq<string>)
    requires forall i :: 0 <= i < |ws| ==> ws[i] != [] && NoSpace(ws[i])
    ensures Words(Join(ws, ' ')) == ws
    decreases |ws|
  {
    if |ws| == 1 {
      WordsOfWord(ws[0]);
    } else if |ws| > 1 {
      WordsOfWord(ws[0]);
      WordsJoin(ws[1..]);
      WordsSpaceJoin(ws[0], ' ', Join(ws[1..], ' '));
    }
  }

  // ---------------------------------------------------------------------
  // Joining with a separator and splitting at a character
  // ---------------------------------------------------------------------

  /** `[sep].join(parts)` in Python. */
  function Join(parts: seq<string>, sep: char): string {
    if |parts| == 0 then []
    else if |parts| == 1 then parts[0]
    else parts[0] + [sep] + Join(parts[1..], sep)
  }

  /** The position of the first `c` in `s`. */
  function IndexOf(s: string, c: char): (i: nat)
    requires c in s
    ensures i < |s| && s[i] == c && c !in s[..i]
    ensures forall k :: 0 <= k < i ==> s[k] != c
  {
    if s[0] == c then 0
    else
      var j := IndexOf(s[1..], c);
      assert s[1..][..j] == s[1..j + 1];
      assert s[..j + 1] == [s[0]] + s[1..j + 1];
      j + 1
  }

  /** Python's `s.split(c)`: the pieces between occurrences of `c`, empty pieces kept. */
  function SplitChar(s: string, c: char): (parts: seq<string>)
    ensures |parts| >= 1
    ensures forall i :: 0 <= i < |parts| ==> c !in parts[i]
    decreases |s|
  {
    if c !in s then [s]
    else
      var i := IndexOf(s, c);
      [s[..i]] + SplitChar(s[i + 1..], c)
  }

  /** Splitting a joined list gives the list back when no piece contains the separator. */
  lemma {:induction false} SplitJoin(parts: seq<string>, c: char)
    requires |parts| >= 1
    requires forall i :: 0 <= i < |parts| ==> c !in parts[i]
    ensures SplitChar(Join(parts, c), c) == parts
    decreases |parts|
  {
    if |parts| > 1 {
      FirstPieceOfJoin(parts, c);
      assert forall i :: 0 <= i < |parts[1..]| ==> parts[1..][i] == parts[i + 1];
      SplitJoin(parts[1..], c);
    }
  }

  /** In a joined list the first separator closes the first piece. */
  lemma FirstPieceOfJoin(parts: seq<string>, c: char)
    requires |parts| > 1 && c !in parts[0]
    ensures var s := Join(parts, c);
      && c in s && IndexOf(s, c) == |parts[0]|
      && s[..|parts[0]|] == parts[0] && s[|parts[0]| + 1..] == Join(parts[1..], c)
  {
    var s := Join(parts, c);
    var rest := Join(parts[1..], c);
    assert s == parts[0] + [c] + rest;
    IndexOfAtMost(s, c, |parts[0]|);
    assert s[..|parts[0]|] == parts[0];
    assert forall k :: 0 <= k < |parts[0]| ==> s[k] == parts[0][k];
    assert s[|parts[0]| + 1..] == rest;
  }

  /** Joining the pieces of a split restores the text. */
  lemma {:induction false} JoinSplit(s: string, c: char)
    ensures Join(SplitChar(s, c), c) == s
    decreases |s|
  {
    if c in s {
      var i := IndexOf(s, c);
      JoinSplit(s[i + 1..], c);
      var tail := SplitChar(s[i + 1..], c);
      assert SplitChar(s, c) == [s[..i]] + tail;
      assert ([s[..i]] + tail)[1..] == tail;
      assert s == s[..i] + [c] + s[i + 1..];
    }
  }

  /** os.path.basename: the text after the last '/'. */
  function Basename(path: string): (r: string)
    ensures '/' !in r
    decreases |path|
  {
    if '/' in path then Basename(path[IndexOf(path, '/') + 1..]) else path
  }

  lemma {:induction false} BasenameAfterSlash(dir: string, file: string)
    requires '/' !in file
    ensures Basename(dir + "/" + file) == file
    decreases |dir|
  {
    var p := dir + "/" + file;
    assert p[|dir|] == '/';
    IndexOfAtMost(p, '/', |dir|);
    var i := IndexOf(p, '/');
    TailAfterSlash(dir, file, i);
    if i < |dir| {
      BasenameAfterSlash(dir[i + 1..], file);
    }
  }

  /** The first occurrence comes no later than any occurrence. */
  lemma IndexOfAtMost(s: string, c: char, j: nat)
    requires j < |s| && s[j] == c
    ensures c in s && IndexOf(s, c) <= j
  {
    assert s[j] in s;
  }

  /** What follows a slash of `dir + "/" + file`. */
  lemma TailAfterSlash(dir: string, file: string, i: nat)
    requires i <= |dir|
    ensures i < |dir| ==> (dir + "/" + file)[i + 1..] == dir[i + 1..] + "/" + file
    ensures i == |dir| ==> (dir + "/" + file)[i + 1..] == file
  {
  }

  // ---------------------------------------------------------------------
  // Substrings: find, grep, replace
  // ---------------------------------------------------------------------

  predicate StartsWith(s: string, p: string) {
    |p| <= |s| && s[..|p|] == p
  }

  /** `p in s` (equivalently `s.find(p) != -1`) in Python. */
  predicate Contains(s: string, p: string)
    decreases |s|
  {
    StartsWith(s, p) || (s != [] && Contains(s[1..], p))
  }

  /** `p` occurs in `s` at position `i`. */
  predicate OccursAt(s: string, p: string, i: int) {
    0 <= i && i + |p| <= |s| && s[i..i + |p|] == p
  }

  /** Containment means an occurrence at some position. */
  lemma {:induction false} ContainsIff(s: string, p: string)
    ensures Contains(s, p) <==> exists i :: OccursAt(s, p, i)
    decreases |s|
  {
    if StartsWith(s, p) {
      assert OccursAt(s, p, 0);
    }
    if s != [] {
      ContainsIff(s[1..], p);
      if Contains(s[1..], p) {
        var i :| OccursAt(s[1..], p, i);
        assert s[i + 1..i + 1 + |p|] == s[1..][i..i + |p|];
        assert OccursAt(s, p, i + 1);
      }
      if exists i :: OccursAt(s, p, i) {
        var i :| OccursAt(s, p, i);
        if i > 0 {
          assert s[1..][i - 1..i - 1 + |p|] == s[i..i + |p|];
          assert OccursAt(s[1..], p, i - 1);
        } else {
          assert StartsWith(s, p);
        }
      }
    } else {
      if exists i :: OccursAt(s, p, i) {
        var i :| OccursAt(s, p, i);
        assert |p| == 0;
        assert StartsWith(s, p);
      }
    }
  }

  /** A basic regular expression prefix match where '.' stands for any character. */
  predicate PatternAt(s: string, pat: string) {
    |pat| <= |s| && forall k :: 0 <= k < |pat| ==> pat[k] == '.' || pat[k] == s[k]
  }

  /** `grep pat` selects a line when the pattern matches somewhere in it. */
  predicate GrepMatches(s: string, pat: string)
    decreases |s|
  {
    PatternAt(s, pat) || (s != [] && GrepMatches(s[1..], pat))
  }

  /** Without '.', a grep pattern is plain substring search. */
  lemma {:induction false} GrepLiteral(s: string, pat: string)
    requires '.' !in pat
    ensures GrepMatches(s, pat) <==> Contains(s, pat)
    decreases |s|
  {
    assert PatternAt(s, pat) <==> StartsWith(s, pat) by {
      if PatternAt(s, pat) {
        assert forall k :: 0 <= k < |pat| ==> pat[k] != '.';
        assert s[..|pat|] == pat;
      }
    }
    if s != [] {
      GrepLiteral(s[1..], pat);
    }
  }

  /** Python's `s.replace(o, n)`: every non-overlapping occurrence, left to right. */
  function ReplaceAll(s: string, o: string, n: string): (r: string)
    requires o != []
    ensures |o| == |n| ==> |r| == |s|
    decreases |s|
  {
    if |s| < |o| then s
    else if s[..|o|] == o then n + ReplaceAll(s[|o|..], o, n)
    else [s[0]] + ReplaceAll(s[1..], o, n)
  }

  /** Replacing a pattern that does not occur changes nothing. */
  lemma {:induction false} ReplaceAbsent(s: string, o: string, n: string)
    requires o != [] && !Contains(s, o)
    ensures ReplaceAll(s, o, n) == s
    decreases |s|
  {
    if |s| >= |o| {
      assert !StartsWith(s, o);
      ReplaceAbsent(s[1..], o, n);
    }
  }

  /** The first character after renaming '.spi' to '.raw'. */
  lemma RenameHead(t: string)
    ensures t == [] <==> ReplaceAll(t, ".spi", ".raw") == []
    ensures t != [] ==>
              ReplaceAll(t, ".spi", ".raw")[0] == if |t| >= 4 && t[..4] == ".spi" then '.' else t[0]
  {
  }

  /** If the result of renaming '.spi' to '.raw' begins with a text free of '.',
      the original began with that same text. */
  lemma {:induction false} RenamedPrefix(t: string, q: string)
    requires '.' !in q
    ensures StartsWith(ReplaceAll(t, ".spi", ".raw"), q) ==> StartsWith(t, q)
    decreases |q|
  {
    var r := ReplaceAll(t, ".spi", ".raw");
    if q != [] && StartsWith(r, q) {
      RenameHead(t);
      assert r[0] == q[0];
      assert q[0] != '.';
      if |t| >= 4 {
        assert t[..4] != ".spi";
        assert r == [t[0]] + ReplaceAll(t[1..], ".spi", ".raw");
        var r1 := ReplaceAll(t[1..], ".spi", ".raw");
        assert r1[..|q| - 1] == r[1..|q|];
        assert r[1..|q|] == q[1..];
        assert forall k :: 0 <= k < |q[1..]| ==> q[1..][k] != '.' by {
          forall k | 0 <= k < |q[1..]| ensures q[1..][k] != '.' {
            assert q[1..][k] == q[k + 1];
          }
        }
        RenamedPrefix(t[1..], q[1..]);
        assert t[..|q|] == [t[0]] + t[1..][..|q| - 1];
      }
    }
  }

  /** After renaming '.spi' to '.raw' no '.spi' is left. */
  lemma {:induction false} RenameLeavesNoSpi(s: string)
    ensures !Contains(ReplaceAll(s, ".spi", ".raw"), ".spi")
    decreases |s|
  {
    var r := ReplaceAll(s, ".spi", ".raw");
    if |s| < 4 {
      NoLongerPattern(r, ".spi");
    } else if s[..4] == ".spi" {
      RenameLeavesNoSpi(s[4..]);
      RawPrefixNoSpi(ReplaceAll(s[4..], ".spi", ".raw"));
      assert r == ".raw" + ReplaceAll(s[4..], ".spi", ".raw");
    } else {
      var rest := ReplaceAll(s[1..], ".spi", ".raw");
      RenameLeavesNoSpi(s[1..]);
      assert r == [s[0]] + rest;
      assert r[1..] == rest;
      RenamedPrefix(s[1..], "spi");
      assert |rest| == |s| - 1;
      assert r[..4] == [s[0]] + rest[..3];
      assert s[..4] == [s[0]] + s[1..][..3];
      assert !StartsWith(r, ".spi");
    }
  }

  /** ".raw" in front of a name without ".spi" creates none. */
  lemma RawPrefixNoSpi(rest: string)
    requires !Contains(rest, ".spi")
    ensures !Contains(".raw" + rest, ".spi")
  {
    var r := ".raw" + rest;
    assert !StartsWith(r, ".spi") by { assert r[1] == 'r'; }
    assert r[1..] == "raw" + rest;
    assert !StartsWith(r[1..], ".spi") by { assert r[1..][0] == 'r'; }
    assert r[1..][1..] == "aw" + rest;
    assert !StartsWith(r[1..][1..], ".spi") by { assert r[1..][1..][0] == 'a'; }
    assert r[1..][1..][1..] == "w" + rest;
    assert !StartsWith(r[1..][1..][1..], ".spi") by { assert r[1..][1..][1..][0] == 'w'; }
    assert r[1..][1..][1..][1..] == rest;
    assert !Contains(r[1..][1..][1..], ".spi");
    assert !Contains(r[1..][1..], ".spi");
    assert !Contains(r[1..], ".spi");
  }

  lemma NoLongerPattern(s: string, p: string)
    requires |s| < |p|
    ensures !Contains(s, p)
    decreases |s|
  {
    if s != [] {
      NoLongerPattern(s[1..], p);
    }
  }

  // ---------------------------------------------------------------------
  // Lines: Python readlines() and C fgets into a fixed buffer
  // ---------------------------------------------------------------------

  function Flatten(ss: seq<string>): string {
    if ss == [] then [] else ss[0] + Flatten(ss[1..])
  }

  /** Length of the next chunk: up to and including the first newline, at most `cap` characters. */
  function ChunkLen(s: string, cap: nat): (n: nat)
    requires s != [] && cap >= 1
    ensures 1 <= n <= |s| && n <= cap
    ensures '\n' !in s[..n - 1]
    ensures n < |s| ==> s[n - 1] == '\n' || n == cap
    decreases |s|
  {
    if s[0] == '\n' || cap == 1 || |s| == 1 then 1
    else
      var m := ChunkLen(s[1..], cap - 1);
      assert s[..m] == [s[0]] + s[1..][..m - 1];
      m + 1
  }

  /** The successive reads of a line reader that stops after a newline or after `cap` characters. */
  function LineChunks(s: string, cap: nat): (ls: seq<string>)
    requires cap >= 1
    ensures forall i :: 0 <= i < |ls| ==> 1 <= |ls[i]| <= cap && '\n' !in ls[i][..|ls[i]| - 1]
    decreases |s|
  {
    if s == [] then []
    else
      var n := ChunkLen(s, cap);
      [s[..n]] + LineChunks(s[n..], cap)
  }

  /** Reading chunk by chunk loses and invents nothing. */
  lemma {:induction false} LineChunksFlatten(s: string, cap: nat)
    requires cap >= 1
    ensures Flatten(LineChunks(s, cap)) == s
    decreases |s|
  {
    if s != [] {
      var n := ChunkLen(s, cap);
      LineChunksFlatten(s[n..], cap);
      FlattenFirstChunk(s, cap, n);
    }
  }

  /** Flattening puts the first chunk back in front of the rest. */
  lemma FlattenFirstChunk(s: string, cap: nat, n: nat)
    requires s != [] && cap >= 1 && n == ChunkLen(s, cap)
    requires Flatten(LineChunks(s[n..], cap)) == s[n..]
    ensures Flatten(LineChunks(s, cap)) == s
  {
    var first, rest := s[..n], LineChunks(s[n..], cap);
    assert LineChunks(s, cap) == [first] + rest;
    FlattenRejoin(s, n, rest);
  }

  lemma FlattenRejoin(s: string, n: nat, rest: seq<string>)
    requires n <= |s| && Flatten(rest) == s[n..]
    ensures Flatten([s[..n]] + rest) == s
  {
    FlattenCons(s[..n], rest);
    assert s[..n] + s[n..] == s;
  }

  lemma FlattenCons(first: string, rest: seq<string>)
    ensures Flatten([first] + rest) == first + Flatten(rest)
  {
    assert ([first] + rest)[1..] == rest;
  }

  /** Python's `f.readlines()`: lines end at a newline (kept) or at end of file. */
  function ReadLines(s: string): (ls: seq<string>)
    ensures Flatten(ls) == s
    ensures forall i :: 0 <= i < |ls| ==> ls[i] != [] && '\n' !in ls[i][..|ls[i]| - 1]
    ensures forall i :: 0 <= i < |ls| - 1 ==> ls[i][|ls[i]| - 1] == '\n'
  {
    LineChunksFlatten(s, |s| + 1);
    ReadLinesEndAtNewline(s, |s| + 1);
    LineChunks(s, |s| + 1)
  }

  /** Chunks shorter than the buffer end only at a newline. */
  lemma {:induction false} ReadLinesEndAtNewline(s: string, cap: nat)
    requires cap > |s|
    ensures var ls := LineChunks(s, cap);
      forall i :: 0 <= i < |ls| - 1 ==> ls[i][|ls[i]| - 1] == '\n'
    decreases |s|
  {
    if s != [] {
      var n := ChunkLen(s, cap);
      ReadLinesEndAtNewline(s[n..], cap);
      var ls := LineChunks(s, cap);
      assert ls[1..] == LineChunks(s[n..], cap);
      if |ls| > 1 {
        assert n < |s|;
      }
    }
  }

  /** A chunk ends at the first newline when the buffer can hold it. */
  lemma {:induction false} ChunkLenAtNewline(s: string, cap: nat, n: nat)
    requires 1 <= n <= |s| && n <= cap
    requires s[n - 1] == '\n' && '\n' !in s[..n - 1]
    ensures ChunkLen(s, cap) == n
    decreases n
  {
    if n > 1 {
      assert s[0] in s[..n - 1];
      assert s[1..][..n - 2] == s[1..n - 1];
      assert forall k :: 0 <= k < n - 2 ==> s[1..][k] == s[..n - 1][k + 1];
      ChunkLenAtNewline(s[1..], cap - 1, n - 1);
    }
  }

  /** Lines that each end in their only newline, written one after another,
      read back as the same lines. */
  lemma {:induction false} LineChunksOfLines(ls: seq<string>, cap: nat)
    requires cap > |Flatten(ls)|
    requires forall i :: 0 <= i < |ls| ==> ls[i] != [] && ls[i][|ls[i]| - 1] == '\n' && '\n' !in ls[i][..|ls[i]| - 1]
    ensures LineChunks(Flatten(ls), cap) == ls
    decreases |ls|
  {
    if ls != [] {
      FirstLineChunk(ls, cap);
      assert forall i :: 0 <= i < |ls[1..]| ==> ls[1..][i] == ls[i + 1];
      LineChunksOfLines(ls[1..], cap);
    }
  }

  /** The first chunk of the written lines is the first line. */
  lemma FirstLineChunk(ls: seq<string>, cap: nat)
    requires ls != [] && cap > |Flatten(ls)|
    requires ls[0] != [] && ls[0][|ls[0]| - 1] == '\n' && '\n' !in ls[0][..|ls[0]| - 1]
    ensures LineChunks(Flatten(ls), cap) == [ls[0]] + LineChunks(Flatten(ls[1..]), cap)
    ensures cap > |Flatten(ls[1..])|
  {
    var s := Flatten(ls);
    var n := |ls[0]|;
    assert s == ls[0] + Flatten(ls[1..]);
    assert s[..n] == ls[0] && s[n..] == Flatten(ls[1..]);
    ChunkLenAtNewline(s, cap, n);
  }

  lemma ReadLinesOfLines(ls: seq<string>)
    requires forall i :: 0 <= i < |ls| ==> ls[i] != [] && ls[i][|ls[i]| - 1] == '\n' && '\n' !in ls[i][..|ls[i]| - 1]
    ensures ReadLines(Flatten(ls)) == ls
  {
    LineChunksOfLines(ls, |Flatten(ls)| + 1);
  }

  // ---------------------------------------------------------------------
  // Decimal numbers
  // ---------------------------------------------------------------------

  predicate IsDigit(c: char) {
    '0' <= c <= '9'
  }

  predicate AllDigits(s: string) {
    forall i :: 0 <= i < |s| ==> IsDigit(s[i])
  }

  function DigitChar(d: nat): (c: char)
    requires d < 10
    ensures IsDigit(c)
  {
    ['0', '1', '2', '3', '4', '5', '6', '7', '8', '9'][d]
  }

  function DigitValue(c: char): (d: nat)
    requires IsDigit(c)
    ensures d < 10
  {
    (c as int - '0' as int) as nat
  }

  /** The number a string of decimal digits denotes (0 for the empty string). */
  function DigitsValue(s: string): nat
    requires AllDigits(s)
  {
    if s == [] then 0
    else DigitsValue(s[..|s| - 1]) * 10 + DigitValue(s[|s| - 1])
  }

  /** Python's `str(n)` for a natural number. */
  function NatToString(n: nat): (s: string)
    ensures s != [] && AllDigits(s)
  {
    if n < 10 then [DigitChar(n)]
    else NatToString(n / 10) + [DigitChar(n % 10)]
  }

  /** Python's `str(i)` for any integer. */
  function IntToString(i: int): string {
    if i < 0 then "-" + NatToString(-i) else NatToString(i)
  }

  /** A non-empty string of decimal digits, read as a natural number. */
  function ParseNat(s: string): Option<nat> {
    if s != [] && AllDigits(s) then Some(DigitsValue(s)) else None
  }

  /** Printing a number in decimal and reading it back gives the number. */
  lemma {:induction false} NatToStringValue(n: nat)
    ensures DigitsValue(NatToString(n)) == n
  {
    var s := NatToString(n);
    if n < 10 {
      var c := DigitChar(n);
      assert s == [c];
      assert s[..0] == [];
      assert DigitValue(c) == n by {
        if n == 0 {} else if n == 1 {} else if n == 2 {} else if n == 3 {} else if n == 4 {}
        else if n == 5 {} else if n == 6 {} else if n == 7 {} else if n == 8 {} else {}
      }
    } else {
      var a := NatToString(n / 10);
      var c := DigitChar(n % 10);
      NatToStringValue(n / 10);
      assert s == a + [c];
      assert s[..|s| - 1] == a;
      assert DigitValue(c) == n % 10 by {
        var d := n % 10;
        if d == 0 {} else if d == 1 {} else if d == 2 {} else if d == 3 {} else if d == 4 {}
        else if d == 5 {} else if d == 6 {} else if d == 7 {} else if d == 8 {} else {}
      }
    }
  }

  lemma ParseNatToString(n: nat)
    ensures ParseNat(NatToString(n)) == Some(n)
  {
    NatToStringValue(n);
  }

  /** Distinct numbers print differently. */
  lemma NatToStringInjective(a: nat, b: nat)
    requires NatToString(a) == NatToString(b)
    ensures a == b
  {
    NatToStringValue(a);
    NatToStringValue(b);
  }

  /** An optionally signed decimal integer (C's textToInteger, Python's int()). */
  function ParseInt(s: string): Option<int> {
    if |s| >= 1 && s[0] == '-' then
      match ParseNat(s[1..])
      case Some(v) => Some(0 - v)
      case None => None
    else if |s| >= 1 && s[0] == '+' then
      match ParseNat(s[1..])
      case Some(v) => Some(v as int)
      case None => None
    else
      match ParseNat(s)
      case Some(v) => Some(v as int)
      case None => None
  }

  function Pow10(k: nat): (p: nat)
    ensures p >= 1
  {
    if k == 0 then 1 else 10 * Pow10(k - 1)
  }

  /** Digits with at most one decimal point and at least one digit. */
  function ParseUnsignedDecimal(s: string): Option<real> {
    if '.' in s then
      var i := IndexOf(s, '.');
      var ip := s[..i];
      var fp := s[i + 1..];
      if AllDigits(ip) && AllDigits(fp) && (ip != [] || fp != []) then
        Some(DigitsValue(ip) as real + DigitsValue(fp) as real / Pow10(|fp|) as real)
      else None
    else if s != [] && AllDigits(s) then Some(DigitsValue(s) as real)
    else None
  }

  /** An optionally signed fixed-point decimal, as Python's float() and C's textToDouble read them. */
  function ParseDecimal(s: string): Option<real> {
    if |s| >= 1 && s[0] == '-' then
      match ParseUnsignedDecimal(s[1..])
      case Some(v) => Some(-v)
      case None => None
    else if |s| >= 1 && s[0] == '+' then ParseUnsignedDecimal(s[1..])
    else ParseUnsignedDecimal(s)
  }

  /** Every printed natural number is a valid decimal with that value. */
  lemma ParseDecimalOfNat(n: nat)
    ensures ParseDecimal(NatToString(n)) == Some(n as real)
  {
    var s := NatToString(n);
    NatToStringValue(n);
    assert forall i :: 0 <= i < |s| ==> s[i] != '.';
    assert s[0] != '-' && s[0] != '+' by { assert IsDigit(s[0]); }
  }
}
