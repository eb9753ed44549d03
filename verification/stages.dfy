/**
 * The decisions each stage of a projection-matching iteration takes
 * (protocol_projmatch.py): which volume is masked, how the projection
 * library and the per-CTF-group matching are parameterised, where the
 * class averages go, which reconstruction program runs with how many
 * threads, and which images enter the reconstruction.  Launching the
 * programs is outside the model; the stages return their decisions as data.
 */
module Stages {
  import opened Wrappers
  import opened Text
  import opened RunLayout

  datatype StageError =
    | NotANumber(text: string)
    | UnknownMethod(name: string)
    | TooManyThreads(threads: int, processes: nat)
    | ZeroThreads                     // float(processes) / float(0): ZeroDivisionError
    | ThreadsNotText(threads: int)    // ' -thr ' + an integer: TypeError
    | NoCtfGroups

  // ---------------------------------------------------------------------
  // Masking the reference (execute_mask)
  // ---------------------------------------------------------------------

  /** The volume iteration 1 masks is the user's file as named; later
      iterations add the ".vol" the filter stage wrote. */
  function MaskInput(reference: string, iteration: nat): (r: string)
    ensures r == reference <==> iteration == 1
    ensures iteration != 1 ==> |r| == |reference| + 4 && r[..|reference|] == reference && r[|reference|..] == ".vol"
  {
    if iteration == 1 then reference else reference + ".vol"
  }

  datatype MaskStep =
    | ApplyMask(input: string, output: string, mask: string)
    | CopyVolume(input: string, output: string)

  /** Masking writes the reference volume either way: through xmipp_mask
      when masking is on, as a plain copy when it is off. */
  function Mask(doMask: bool, reference: string, maskFile: string, iteration: nat, output: string): (m: MaskStep)
    ensures m.input == MaskInput(reference, iteration) && m.output == output
    ensures m.ApplyMask? <==> doMask
    ensures m.ApplyMask? ==> m.mask == maskFile
  {
    var input := MaskInput(reference, iteration);
    if doMask then ApplyMask(input, output, maskFile) else CopyVolume(input, output)
  }

  // ---------------------------------------------------------------------
  // Projection library and matching (execute_projection_matching)
  // ---------------------------------------------------------------------

  /** The -angular_distance argument: the configured text when its value is
      below 181 degrees, -1 (no restriction) otherwise; text that is not a
      number stops the run as Python's atof does. */
  function AngularDistance(maxChange: string): (r: Result<string, StageError>)
    ensures r.Err? <==> ParseDecimal(maxChange).None?
    ensures r.Err? ==> r.error == NotANumber(maxChange)
    ensures r.Ok? && ParseDecimal(maxChange).value < 181.0 ==> r.value == maxChange
    ensures r.Ok? && ParseDecimal(maxChange).value >= 181.0 ==> r.value == "-1"
  {
    match ParseDecimal(maxChange)
    case None => Err(NotANumber(maxChange))
    case Some(v) => if v < 181.0 then Ok(maxChange) else Ok("-1")
  }

  /** Whatever is configured, the program is asked for a restriction below
      181 degrees or for none at all (-1). */
  lemma AngularDistanceBounded(maxChange: string)
    requires AngularDistance(maxChange).Ok?
    ensures var v := ParseDecimal(AngularDistance(maxChange).value);
      v.Some? && v.value < 181.0
  {
    if ParseDecimal(maxChange).value >= 181.0 {
      ParseDecimalOfNat(1);
      assert NatToString(1) == "1";
      assert ParseDecimal("-1") == Some(-1.0);
    }
  }

  /** The CTF groups in the order the matching loop visits them: the loop
      variable runs up and the group number ictf+1 = groups-ii runs down. */
  function CtfGroupOrder(groups: int): (r: seq<nat>)
    ensures |r| == if groups <= 0 then 0 else groups
    ensures forall k :: 0 <= k < |r| ==> r[k] == groups - k
    decreases if groups <= 0 then 0 else groups
  {
    if groups <= 0 then [] else [groups as nat] + CtfGroupOrder(groups - 1)
  }

  /** Every group 1 .. groups is visited exactly once, in strictly descending order. */
  lemma CtfGroupOrderIsDescendingPermutation(groups: int)
    ensures var r := CtfGroupOrder(groups);
      && (forall i, j :: 0 <= i < j < |r| ==> r[i] > r[j])
      && (forall g :: g in r <==> 1 <= g <= groups)
  {
    var r := CtfGroupOrder(groups);
    forall g | 1 <= g <= groups ensures g in r {
      assert r[groups - g] == g;
    }
  }

  /** Renaming ".sel" to ".doc" only touches the extension of a name without dots. */
  lemma {:induction false} ReplaceExtension(name: string)
    requires '.' !in name
    ensures ReplaceAll(name + ".sel", ".sel", ".doc") == name + ".doc"
    decreases |name|
  {
    var s := name + ".sel";
    if name == [] {
      assert s[..4] == ".sel";
      assert s[4..] == [];
    } else {
      assert s[0] != '.';
      assert s[1..] == name[1..] + ".sel";
      ReplaceExtension(name[1..]);
      assert name[1..] + ".doc" == (name + ".doc")[1..];
    }
  }

  /** The docfile holding the angles of one CTF group: the group's selfile
      ../CtfGroups/<name>.sel, without directory and with ".sel" turned into ".doc". */
  function GroupDoc(groupName: string): string {
    ReplaceAll(Basename("../" + CtfGroupDirectory + "/" + groupName + ".sel"), ".sel", ".doc")
  }

  lemma GroupDocPlain(groupName: string)
    requires '/' !in groupName && '.' !in groupName
    ensures GroupDoc(groupName) == groupName + ".doc"
  {
    assert "../" + CtfGroupDirectory + "/" + groupName + ".sel"
        == ("../" + CtfGroupDirectory) + "/" + (groupName + ".sel");
    assert '/' !in groupName + ".sel" by {
      assert forall k :: 0 <= k < |groupName| ==> (groupName + ".sel")[k] == groupName[k];
    }
    BasenameAfterSlash("../" + CtfGroupDirectory, groupName + ".sel");
    ReplaceExtension(groupName);
  }

  /** The lines make_subset_docfiles writes: one per CTF group, in ascending
      group order, each naming the group's docfile as active. `groupName(g)`
      is the name utils_xmipp.composeFileName gives group g. */
  method SubsetManifest(groups: int, groupName: nat -> string) returns (lines: seq<string>)
    ensures |lines| == if groups <= 0 then 0 else groups
    ensures forall k :: 0 <= k < |lines| ==> lines[k] == GroupDoc(groupName(k + 1)) + " 1\n"
  {
    lines := [];
    var g := 0;
    while g < groups
      invariant 0 <= g <= (if groups <= 0 then 0 else groups)
      invariant |lines| == g
      invariant forall k :: 0 <= k < g ==> lines[k] == GroupDoc(groupName(k + 1)) + " 1\n"
    {
      lines := lines + [GroupDoc(groupName(g + 1)) + " 1\n"];
      g := g + 1;
    }
  }

  /** A docfile name followed by " 1" and a newline is one line of text. */
  lemma ActiveLine(doc: string)
    requires '\n' !in doc
    ensures var l := doc + " 1\n";
      l[|l| - 1] == '\n' && '\n' !in l[..|l| - 1]
  {
    var l := doc + " 1\n";
    assert l[..|l| - 1] == doc + " 1";
  }

  /** Reading the manifest back gives exactly the lines written, provided no
      docfile name (`doc(g)` for group g) holds a newline. */
  lemma ManifestReadsBack(lines: seq<string>, doc: nat -> string)
    requires forall k :: 0 <= k < |lines| ==> lines[k] == doc(k + 1) + " 1\n" && '\n' !in doc(k + 1)
    ensures ReadLines(Flatten(lines)) == lines
  {
    forall k | 0 <= k < |lines|
      ensures lines[k] != [] && lines[k][|lines[k]| - 1] == '\n' && '\n' !in lines[k][..|lines[k]| - 1]
    {
      ActiveLine(doc(k + 1));
    }
    ReadLinesOfLines(lines);
  }

  /** One pass of the matching loop: which docfile it matches and where its
      matches go. */
  datatype GroupRun = GroupRun(group: nat, input: string, output: string)

  function GroupRuns(doCtf: bool, groups: int, inputDoc: string, groupName: nat -> string): (runs: seq<GroupRun>)
    ensures |runs| == |CtfGroupOrder(groups)|
    ensures forall k :: 0 <= k < |runs| ==> runs[k].group == CtfGroupOrder(groups)[k]
    ensures doCtf ==> forall k :: 0 <= k < |runs| ==>
      runs[k].input == GroupDoc(groupName(runs[k].group)) && runs[k].output == ProjMatchRootName + "_" + groupName(runs[k].group)
    ensures !doCtf ==> forall k :: 0 <= k < |runs| ==> runs[k].input == inputDoc && runs[k].output == ProjMatchRootName
  {
    var order := CtfGroupOrder(groups);
    seq(|order|, k requires 0 <= k < |order| =>
      if doCtf then GroupRun(order[k], GroupDoc(groupName(order[k])), ProjMatchRootName + "_" + groupName(order[k]))
      else GroupRun(order[k], inputDoc, ProjMatchRootName))
  }

  /** The matching loop consumes exactly the docfiles the manifest lists,
      in the reverse order: pass k reads the manifest's line groups-1-k. */
  lemma RunsReverseManifest(groups: int, inputDoc: string, groupName: nat -> string, lines: seq<string>)
    requires |lines| == if groups <= 0 then 0 else groups
    requires forall k :: 0 <= k < |lines| ==> lines[k] == GroupDoc(groupName(k + 1)) + " 1\n"
    ensures var runs := GroupRuns(true, groups, inputDoc, groupName);
      |runs| == |lines| &&
      forall k :: 0 <= k < |runs| ==> lines[|lines| - 1 - k] == runs[k].input + " 1\n"
  {
  }

  /** Whether the reference is taken as CTF-amplitude corrected: always,
      except in iteration 1 when the user says it is not. */
  function ReferenceIsCtfCorrected(iteration: nat, userSaysCorrected: bool): (r: bool)
    ensures !r <==> iteration == 1 && !userSaysCorrected
  {
    if iteration == 1 && !userSaysCorrected then false else true
  }

  // ---------------------------------------------------------------------
  // Class averages
  // ---------------------------------------------------------------------

  /** The options of xmipp_angular_class_average that the protocol decides. */
  datatype ClassAverage = ClassAverage(
    addTo: bool,        // -add_to: accumulate all CTF groups into one result
    target: string,     // the root the averages are written under
    realign: bool,      // the 2D re-alignment options
    split: bool)        // -split: two half sets for the resolution

  function ClassAverageOptions(doCtf: bool, align2d: string, doResolution: bool): (c: ClassAverage)
    ensures c.target == ProjMatchRootName
    ensures c.addTo <==> doCtf
    ensures c.realign <==> align2d == "1"
    ensures c.split <==> doResolution
  {
    ClassAverage(doCtf, ProjMatchRootName, align2d == "1", doResolution)
  }

  /** The angles document the matching stage moves to the iteration's output
      name. It is only assigned inside the group loop, so with no group
      there is none. */
  function MatchedDoc(groups: int, align2d: string): (r: Result<string, StageError>)
    ensures r.Err? <==> groups <= 0
    ensures r.Ok? && align2d == "1" ==> r.value == ProjMatchRootName + "_realigned.doc"
    ensures r.Ok? && align2d != "1" ==> r.value == ProjMatchRootName + ".doc"
  {
    if groups <= 0 then Err(NoCtfGroups)
    else if align2d == "1" then Ok(ProjMatchRootName + "_realigned.doc")
    else Ok(ProjMatchRootName + ".doc")
  }

  /** The realigned document is the one kept exactly when the class averages
      were asked to realign. */
  lemma RealignedDocIffRealigned(doCtf: bool, groups: int, align2d: string, doResolution: bool)
    requires groups >= 1
    ensures MatchedDoc(groups, align2d).value == ProjMatchRootName + "_realigned.doc"
            <==> ClassAverageOptions(doCtf, align2d, doResolution).realign
  {
    if align2d != "1" {
      var a := ProjMatchRootName + "_realigned.doc";
      var b := ProjMatchRootName + ".doc";
      assert a[|ProjMatchRootName|] != b[|ProjMatchRootName|];
    }
  }

  // ---------------------------------------------------------------------
  // Images that enter the reconstruction
  // ---------------------------------------------------------------------

  /** A line of multi_align2d.sel survives the three `grep -v` filters: it is
      no library projection, no reference image (the '.' of "ref.xmp" is a
      wildcard) and not deactivated (" -1"). */
  predicate KeptForReconstruction(line: string) {
    !GrepMatches(line, ProjectLibraryRootName) && !GrepMatches(line, "ref.xmp") && !GrepMatches(line, " -1")
  }

  function ReconstructionSelfile(lines: seq<string>): (r: seq<string>)
    ensures |r| <= |lines|
    ensures forall x :: x in r <==> x in lines && KeptForReconstruction(x)
  {
    if lines == [] then []
    else if KeptForReconstruction(lines[0]) then [lines[0]] + ReconstructionSelfile(lines[1..])
    else
      assert forall x :: x in lines[1..] ==> x in lines;
      ReconstructionSelfile(lines[1..])
  }

  /** The filters work line by line: a file's pieces may be filtered separately. */
  lemma {:induction false} ReconstructionSelfileAppend(a: seq<string>, b: seq<string>)
    ensures ReconstructionSelfile(a + b) == ReconstructionSelfile(a) + ReconstructionSelfile(b)
    decreases |a|
  {
    if a != [] {
      assert (a + b)[0] == a[0] && (a + b)[1..] == a[1..] + b;
      ReconstructionSelfileAppend(a[1..], b);
    } else {
      assert a + b == b;
    }
  }

  /** Filtering the filtered file again changes nothing. */
  lemma {:induction false} ReconstructionSelfileIdempotent(lines: seq<string>)
    ensures ReconstructionSelfile(ReconstructionSelfile(lines)) == ReconstructionSelfile(lines)
    decreases |lines|
  {
    if lines != [] {
      ReconstructionSelfileIdempotent(lines[1..]);
      if KeptForReconstruction(lines[0]) {
        var r := ReconstructionSelfile(lines);
        assert r[0] == lines[0] && r[1..] == ReconstructionSelfile(lines[1..]);
      }
    }
  }

  /** The library pattern has no wildcard, so it drops exactly the lines
      containing it; "ref.xmp" also drops look-alikes such as "ref_xmp". */
  lemma GrepPatterns(line: string)
    ensures GrepMatches(line, ProjectLibraryRootName) <==> Contains(line, ProjectLibraryRootName)
    ensures !KeptForReconstruction("a_ref_xmp 1")
  {
    GrepLiteral(line, ProjectLibraryRootName);
    assert PatternAt("ref_xmp 1", "ref.xmp");
    assert "a_ref_xmp 1"[1..][1..] == "ref_xmp 1";
  }

  // ---------------------------------------------------------------------
  // Reconstruction (execute_reconstruction, and the halves of execute_resolution)
  // ---------------------------------------------------------------------

  datatype Method = Wbp | Art | Fourier

  function ParseMethod(name: string): (r: Result<Method, StageError>)
    ensures r.Ok? <==> name == "wbp" || name == "art" || name == "fourier"
    ensures r.Err? ==> r.error == UnknownMethod(name)
  {
    if name == "wbp" then Ok(Wbp)
    else if name == "art" then Ok(Art)
    else if name == "fourier" then Ok(Fourier)
    else Err(UnknownMethod(name))
  }

  /** How a reconstruction program is launched. */
  datatype Launch = Launch(program: Method, output: string, parallel: bool, threads: int)

  /** The method-specific adjustments: wbp runs with one thread, art never in
      parallel, fourier drops MPI when using threads. */
  function MethodLaunch(m: Method, volume: string, parallel: bool, threads: int): Launch {
    match m
    case Wbp => Launch(Wbp, volume + ".vol", parallel, 1)
    case Art => Launch(Art, volume, false, threads)
    case Fourier => Launch(Fourier, volume + ".vol", if threads > 1 then false else parallel, threads)
  }

  /** The adjustments followed by the two thread guards, in the order the
      code meets them: dividing the MPI processes by the thread count fails
      on zero threads, then a launch with more threads than MPI processes is
      refused. This is the plan with the thread count put on the command line
      as text, which is what the concatenation evidently means. */
  function PlanReconstruction(name: string, volume: string, parallel: bool, threads: int, processes: nat)
    : (r: Result<Launch, StageError>)
    ensures ParseMethod(name).Err? ==> r == Err(UnknownMethod(name))
    ensures r.Ok? ==> r.value.program == ParseMethod(name).value && r.value.threads != 0 && r.value.threads <= processes
    ensures ParseMethod(name).Ok? ==> match ParseMethod(name).value
      case Wbp => r.Ok? <==> processes >= 1
      case Art => r.Ok? <==> threads != 0 && threads <= processes
      case Fourier => r.Ok? <==> threads != 0 && threads <= processes
    ensures ParseMethod(name).Ok? && ParseMethod(name).value != Wbp && threads == 0 ==> r == Err(ZeroThreads)
    ensures r.Ok? ==> match r.value.program
      case Wbp => r.value == Launch(Wbp, volume + ".vol", parallel, 1)
      case Art => r.value == Launch(Art, volume, false, threads)
      case Fourier => r.value == Launch(Fourier, volume + ".vol", parallel && threads <= 1, threads)
  {
    var m :- ParseMethod(name);
    var launch := MethodLaunch(m, volume, parallel, threads);
    if launch.threads == 0 then Err(ZeroThreads)
    else if launch.threads > processes then Err(TooManyThreads(launch.threads, processes))
    else Ok(launch)
  }

  /** The plan as written: art and fourier append the thread count to the
      command line with `+`, which Python refuses for the integer count the
      protocol header holds, before any guard is reached; wbp replaces the
      count by 1 and never builds that text. */
  function PlanReconstructionAsWritten(name: string, volume: string, parallel: bool, threads: int, processes: nat)
    : (r: Result<Launch, StageError>)
    ensures ParseMethod(name).Ok? && ParseMethod(name).value != Wbp ==> r == Err(ThreadsNotText(threads))
    ensures ParseMethod(name).Err? || ParseMethod(name).value == Wbp ==>
      r == PlanReconstruction(name, volume, parallel, threads, processes)
  {
    var m :- ParseMethod(name);
    if m == Wbp then PlanReconstruction(name, volume, parallel, threads, processes) else Err(ThreadsNotText(threads))
  }

  /** With the header's defaults (method fourier, one thread) the plan as
      written never launches, while the corrected plan launches fourier with
      one thread and keeps MPI. */
  lemma DefaultFourierNeverLaunches(volume: string, parallel: bool, processes: nat)
    requires processes >= 1
    ensures PlanReconstructionAsWritten("fourier", volume, parallel, 1, processes) == Err(ThreadsNotText(1))
    ensures PlanReconstruction("fourier", volume, parallel, 1, processes) == Ok(Launch(Fourier, volume + ".vol", parallel, 1))
  {
    assert ParseMethod("fourier") == Ok(Fourier);
  }

  /** The adjustments are settled after one pass: planning again from an
      adjusted launch changes nothing. This is why the second half-volume of
      the resolution stage, which sees the first half's adjusted settings,
      is launched exactly like the first. */
  lemma PlanSettles(name: string, volume: string, parallel: bool, threads: int, processes: nat)
    requires PlanReconstruction(name, volume, parallel, threads, processes).Ok?
    ensures var l := PlanReconstruction(name, volume, parallel, threads, processes).value;
      PlanReconstruction(name, volume, l.parallel, l.threads, processes) == Ok(l)
  {
  }

  /** The two half volumes the resolution stage reconstructs. */
  function HalfVolume(half: nat): string
    requires half == 1 || half == 2
  {
    ProjMatchRootName + "_split_" + (if half == 1 then "1" else "2")
  }

  /** The resolution stage launches both halves with the same guards as the
      full reconstruction: one is refused exactly when the other is. */
  lemma HalvesAgreeWithFull(name: string, volume: string, parallel: bool, threads: int, processes: nat, half: nat)
    requires half == 1 || half == 2
    ensures PlanReconstruction(name, HalfVolume(half), parallel, threads, processes).Ok?
        <==> PlanReconstruction(name, volume, parallel, threads, processes).Ok?
  {
  }

  // ---------------------------------------------------------------------
  // Set-up values
  // ---------------------------------------------------------------------

  /** A negative outer radius means "half the image size minus one", with
      Python 2 integer division. */
  function OuterRadius(configured: int, xdim: nat): (r: int)
    ensures configured >= 0 ==> r == configured
    ensures configured < 0 ==> r >= -1 && 2 * (r + 1) <= xdim < 2 * (r + 1) + 2
  {
    if configured < 0 then xdim / 2 - 1 else configured
  }

  /** The Fourier frequency limit of the first reconstruction: the
      configured text read as a number when starting at iteration 1, 0.5
      (Nyquist) when resuming, in which case the text is never read. */
  function InitialMaxFrequency(continueAt: int, configured: string): (r: Result<real, StageError>)
    ensures continueAt != 1 ==> r == Ok(0.5)
    ensures continueAt == 1 ==> (r.Ok? <==> ParseDecimal(configured).Some?)
    ensures continueAt == 1 && r.Ok? ==> r.value == ParseDecimal(configured).value
    ensures r.Err? ==> r == Err(NotANumber(configured))
  {
    if continueAt != 1 then Ok(0.5)
    else match ParseDecimal(configured)
      case Some(f) => Ok(f)
      case None => Err(NotANumber(configured))
  }

  /** A fresh run starts from any whole-number limit written in decimal, and
      the header's default "0.25" reads as a quarter of the sampling rate. */
  lemma InitialMaxFrequencyReadsDecimal(n: nat)
    ensures InitialMaxFrequency(1, NatToString(n)) == Ok(n as real)
    ensures InitialMaxFrequency(1, "0.25") == Ok(0.25)
  {
    ParseDecimalOfNat(n);
    var s := "0.25";
    assert IndexOf(s, '.') == 1;
    assert s[..1] == "0" && s[2..] == "25";
    assert DigitsValue("25") == 25 by {
      assert "25"[..1] == "2";
      assert "2"[..0] == [];
    }
    assert DigitsValue("0") == 0 by { assert "0"[..0] == []; }
  }
}
