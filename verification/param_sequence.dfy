/**
 * Per-iteration parameter sequences of the projection-matching protocol
 * (protocol_projmatch.py).  A setting such as "4x1000 6x8.5 5" lists one
 * value per iteration: each blank-separated token is a bare value or "NxV",
 * N copies of V.  The value for iteration i sits at 0-based position i-1;
 * positions past the end reuse the last value and surplus values are
 * never read.
 */
module ParamSequence {
  import opened Wrappers
  import opened Text
  import Seq

  datatype SeqError =
    | EmptySequence
    | BadToken(token: string)

  /** N copies of a value. */
  function Repeat(v: string, n: nat): (r: seq<string>)
    ensures |r| == n
    ensures forall k :: 0 <= k < n ==> r[k] == v
  {
    if n == 0 then [] else [v] + Repeat(v, n - 1)
  }

  /** The values one token stands for: "NxV" with N >= 1 and V non-empty, or a bare value. */
  function ExpandToken(t: string): (r: Result<seq<string>, SeqError>)
    ensures r.Ok? ==> |r.value| >= 1
    ensures 'x' !in t ==> r == Ok([t])
  {
    var parts := SplitChar(t, 'x');
    if |parts| == 1 then
      assert 'x' in t ==> |parts| > 1;
      Ok([t])
    else if |parts| == 2 then
      match ParseNat(parts[0])
      case Some(n) => if n >= 1 && parts[1] != [] then Ok(Repeat(parts[1], n)) else Err(BadToken(t))
      case None => Err(BadToken(t))
    else Err(BadToken(t))
  }

  function ExpandTokens(ts: seq<string>): (r: Result<seq<string>, SeqError>)
    ensures r.Ok? && |ts| >= 1 ==> |r.value| >= |ts|
  {
    if ts == [] then Ok([])
    else
      var head :- ExpandToken(ts[0]);
      var tail :- ExpandTokens(ts[1..]);
      Ok(head + tail)
  }

  /** The full list of per-iteration values a setting spells out. */
  function Expand(spec: string): (r: Result<seq<string>, SeqError>)
    ensures r.Ok? ==> |r.value| >= 1
    ensures Words(spec) == [] ==> r == Err(EmptySequence)
  {
    var ts := Words(spec);
    if ts == [] then Err(EmptySequence) else ExpandTokens(ts)
  }

  /** The value of a setting at 0-based position `index` (iteration index+1). */
  function Resolve(spec: string, index: nat): (r: Result<string, SeqError>)
    ensures Expand(spec).Err? ==> r == Err(Expand(spec).error)
    ensures Expand(spec).Ok? && index < |Expand(spec).value| ==> r == Ok(Expand(spec).value[index])
    ensures Expand(spec).Ok? && index >= |Expand(spec).value| ==>
              r == Ok(Expand(spec).value[|Expand(spec).value| - 1])
  {
    var values :- Expand(spec);
    if index < |values| then Ok(values[index]) else Ok(values[|values| - 1])
  }

  // ---------------------------------------------------------------------
  // Laws stated in the settings' documentation
  // ---------------------------------------------------------------------

  /** "If there are less values than iterations the last value is reused":
      every position at or past the last one reads the same value. */
  lemma LastValueReused(spec: string, i: nat, j: nat)
    requires Expand(spec).Ok?
    requires i >= |Expand(spec).value| - 1 && j >= |Expand(spec).value| - 1
    ensures Resolve(spec, i) == Resolve(spec, j)
  {
  }

  /** One step of ExpandTokens, with the token's expansion named. */
  lemma ExpandTokensStep(ts: seq<string>)
    requires ts != [] && ExpandToken(ts[0]).Ok? && ExpandTokens(ts[1..]).Ok?
    ensures ExpandTokens(ts) == Ok(ExpandToken(ts[0]).value + ExpandTokens(ts[1..]).value)
  {
  }

  lemma {:induction false} ExpandTokensAppend(a: seq<string>, b: seq<string>)
    requires ExpandTokens(a).Ok? && ExpandTokens(b).Ok?
    ensures ExpandTokens(a + b) == Ok(ExpandTokens(a).value + ExpandTokens(b).value)
    decreases |a|
  {
    if a == [] {
      assert a + b == b;
      assert ExpandTokens(a) == Ok([]);
      assert [] + ExpandTokens(b).value == ExpandTokens(b).value;
    } else {
      var ab := a + b;
      assert ab[0] == a[0] && ab[1..] == a[1..] + b;
      ExpandTokensAppend(a[1..], b);
      ExpandTokensStep(a);
      ExpandTokensStep(ab);
      var h, t, u := ExpandToken(a[0]).value, ExpandTokens(a[1..]).value, ExpandTokens(b).value;
      Seq.AppendAssociates(h, t, u);
    }
  }

  /** "If there are more values than iterations the extra values are ignored":
      appending more tokens never changes a position the shorter setting covers. */
  lemma ExtraValuesIgnored(spec: string, more: string, index: nat)
    requires Expand(spec).Ok? && Expand(more).Ok?
    requires index < |Expand(spec).value|
    ensures Resolve(spec + [' '] + more, index) == Resolve(spec, index)
  {
    WordsSpaceJoin(spec, ' ', more);
    ExpandTokensAppend(Words(spec), Words(more));
  }

  // ---------------------------------------------------------------------
  // Writing a setting down and reading it back
  // ---------------------------------------------------------------------

  /** One token of the notation, as the user writes it. */
  datatype Run = Bare(value: string) | Times(count: nat, value: string)

  predicate ValidRun(r: Run) {
    r.value != [] && NoSpace(r.value) && 'x' !in r.value && (r.Times? ==> r.count >= 1)
  }

  function RenderRun(r: Run): string {
    match r
    case Bare(v) => v
    case Times(n, v) => NatToString(n) + ['x'] + v
  }

  /** A setting written as blank-separated tokens. */
  function Render(runs: seq<Run>): string {
    Join(Seq.Map(RenderRun, runs), ' ')
  }

  /** What the runs mean, independently of any string: the values, run by run. */
  function Meaning(runs: seq<Run>): seq<string> {
    if runs == [] then []
    else
      match runs[0]
      case Bare(v) => [v] + Meaning(runs[1..])
      case Times(n, v) => Repeat(v, n) + Meaning(runs[1..])
  }

  lemma RenderedRunIsWord(r: Run)
    requires ValidRun(r)
    ensures RenderRun(r) != [] && NoSpace(RenderRun(r))
    ensures ExpandToken(RenderRun(r)) == Ok(if r.Bare? then [r.value] else Repeat(r.value, r.count))
  {
    if r.Times? {
      var ns := NatToString(r.count);
      assert forall k :: 0 <= k < |ns| ==> ns[k] != 'x' && !IsSpace(ns[k]) by {
        forall k | 0 <= k < |ns| ensures ns[k] != 'x' && !IsSpace(ns[k]) {
          assert IsDigit(ns[k]);
        }
      }
      var t := RenderRun(r);
      assert t == Join([ns, r.value], 'x');
      SplitJoin([ns, r.value], 'x');
      ParseNatToString(r.count);
      assert NoSpace(t) by {
        forall k | 0 <= k < |t| ensures !IsSpace(t[k]) {
          if k < |ns| {
            assert t[k] == ns[k];
          } else if k > |ns| {
            assert t[k] == r.value[k - |ns| - 1];
          }
        }
      }
    }
  }

  lemma {:induction false} ExpandRenderedTokens(runs: seq<Run>)
    requires forall k :: 0 <= k < |runs| ==> ValidRun(runs[k])
    ensures ExpandTokens(Seq.Map(RenderRun, runs)) == Ok(Meaning(runs))
    decreases |runs|
  {
    if runs != [] {
      RenderedRunIsWord(runs[0]);
      var ts := Seq.Map(RenderRun, runs);
      assert ts[0] == RenderRun(runs[0]);
      assert ts[1..] == Seq.Map(RenderRun, runs[1..]);
      ExpandRenderedTokens(runs[1..]);
    }
  }

  /** Round trip: a non-empty list of well-formed tokens, written down and
      expanded, yields exactly the values the tokens mean. */
  lemma ExpandRender(runs: seq<Run>)
    requires |runs| >= 1
    requires forall k :: 0 <= k < |runs| ==> ValidRun(runs[k])
    ensures Expand(Render(runs)) == Ok(Meaning(runs))
  {
    var ts := Seq.Map(RenderRun, runs);
    forall k | 0 <= k < |ts| ensures ts[k] != [] && NoSpace(ts[k]) {
      RenderedRunIsWord(runs[k]);
    }
    WordsJoin(ts);
    ExpandRenderedTokens(runs);
  }

  /** The example of the Search5DShift documentation: "3x5 2x3 0" is 5,5,5,3,3,0. */
  lemma DocumentedExample()
    ensures Expand("3x5 2x3 0") == Ok(["5", "5", "5", "3", "3", "0"])
  {
    var runs := [Times(3, "5"), Times(2, "3"), Bare("0")];
    DocumentedRendering(runs);
    ExpandRender(runs);
    assert Meaning(runs) == ["5", "5", "5", "3", "3", "0"];
  }

  lemma DocumentedRendering(runs: seq<Run>)
    requires runs == [Times(3, "5"), Times(2, "3"), Bare("0")]
    ensures Render(runs) == "3x5 2x3 0"
  {
    assert RenderRun(runs[0]) == "3x5" && RenderRun(runs[1]) == "2x3" && RenderRun(runs[2]) == "0";
    assert Seq.Map(RenderRun, runs) == ["3x5", "2x3", "0"];
    assert Join(["0"], ' ') == "0";
    assert Join(["2x3", "0"], ' ') == "2x3" + " " + Join(["0"], ' ');
  }

  /** Iteration 5 of "2x8 2x0" reuses the last value. */
  lemma ReuseExample()
    ensures Resolve("2x8 2x0", 4) == Ok("0")
  {
    var runs := [Times(2, "8"), Times(2, "0")];
    ReuseRendering(runs);
    ExpandRender(runs);
    assert Meaning(runs) == ["8", "8", "0", "0"];
  }

  lemma ReuseRendering(runs: seq<Run>)
    requires runs == [Times(2, "8"), Times(2, "0")]
    ensures Render(runs) == "2x8 2x0"
  {
    assert RenderRun(runs[0]) == "2x8" && RenderRun(runs[1]) == "2x0";
    assert Seq.Map(RenderRun, runs) == ["2x8", "2x0"];
    assert Join(["2x8", "2x0"], ' ') == "2x8" + " " + Join(["2x0"], ' ');
  }
}

/** Sequence helpers. */
module Seq {
  function Map<A, B>(f: A -> B, xs: seq<A>): (ys: seq<B>)
    ensures |ys| == |xs|
    ensures forall k :: 0 <= k < |xs| ==> ys[k] == f(xs[k])
  {
    if xs == [] then [] else [f(xs[0])] + Map(f, xs[1..])
  }

  lemma AppendAssociates<T>(a: seq<T>, b: seq<T>, c: seq<T>)
    ensures a + (b + c) == (a + b) + c
  {
  }

  lemma AppendRegroups<T>(a: seq<T>, b: seq<T>, c: seq<T>, d: seq<T>, e: seq<T>)
    ensures a + (b + c + d) + e == a + b + c + d + e
  {
  }
}
