/**
 * The resolution estimate and the filtration that closes every iteration
 * (protocol_projmatch.py, execute_resolution and filter_at_given_resolution).
 * The FSC file of the two half reconstructions is scanned for the highest
 * frequency before the correlation first falls below 0.5; the reconstruction
 * is then low-passed (or copied) and the cutoff becomes the next iteration's
 * Fourier frequency limit.
 */
module Resolution {
  import opened Wrappers
  import opened Text

  const FscThreshold: real := 0.5

  datatype FscError =
    | MissingColumn(line: string)   // fewer than two fields: Python's IndexError
    | NotANumber(text: string)      // float() refuses the field: ValueError

  /** What the scan does with one line after the header. */
  datatype RowStep = Skip | Stop | Value(frequency: real)

  /** A line is stripped and skipped when it starts with '#'; otherwise its
      second field is the correlation and, only when that is at least 0.5,
      its first field is read as the frequency. */
  function Classify(line: string): Result<RowStep, FscError>
  {
    var ws := Words(line);
    if ws != [] && ws[0][0] == '#' then Ok(Skip)
    else if |ws| < 2 then Err(MissingColumn(line))
    else match ParseDecimal(ws[1])
      case None => Err(NotANumber(ws[1]))
      case Some(correlation) =>
        if correlation < FscThreshold then Ok(Stop)
        else match ParseDecimal(ws[0])
          case None => Err(NotANumber(ws[0]))
          case Some(f) => Ok(Value(f))
  }

  /** The three outcomes of a row, stated field by field. */
  lemma ClassifyMeaning(line: string)
    ensures var ws := Words(line); var r := Classify(line);
      && (r == Ok(Skip) <==> ws != [] && ws[0][0] == '#')
      && (r == Ok(Stop) <==>
            !(ws != [] && ws[0][0] == '#') && |ws| >= 2
            && ParseDecimal(ws[1]).Some? && ParseDecimal(ws[1]).value < FscThreshold)
      && (r.Ok? && r.value.Value? <==>
            !(ws != [] && ws[0][0] == '#') && |ws| >= 2
            && ParseDecimal(ws[1]).Some? && ParseDecimal(ws[1]).value >= FscThreshold
            && ParseDecimal(ws[0]).Some?)
      && (r.Ok? && r.value.Value? ==> r.value.frequency == ParseDecimal(ws[0]).value)
      && (r.Err? && |ws| < 2 ==> r.error == MissingColumn(line))
  {
  }

  /** The rows the scan sees: every line after the header line. */
  function DataRows(content: string): seq<string> {
    var lines := ReadLines(content);
    if lines == [] then [] else lines[1..]
  }

  /** The scan's view of the rows: each one classified. */
  function Steps(rows: seq<string>): (steps: seq<Result<RowStep, FscError>>)
    ensures |steps| == |rows|
    ensures forall k :: 0 <= k < |rows| ==> steps[k] == Classify(rows[k])
  {
    seq(|rows|, k requires 0 <= k < |rows| => Classify(rows[k]))
  }

  /** The frequency a row contributes, if any. */
  function ValueOf(step: Result<RowStep, FscError>): Option<real> {
    if step.Ok? && step.value.Value? then Some(step.value.frequency) else None
  }

  predicate Continues(step: Result<RowStep, FscError>) {
    step.Ok? && !step.value.Stop?
  }

  /** Where the scan ends: the first row that stops it or cannot be read. */
  function StopIndex(steps: seq<Result<RowStep, FscError>>): (n: nat)
    ensures n <= |steps|
    ensures forall k :: 0 <= k < n ==> Continues(steps[k])
    ensures n < |steps| ==> !Continues(steps[n])
  {
    if steps == [] then 0
    else if Continues(steps[0]) then
      var m := StopIndex(steps[1..]);
      assert forall k :: 1 <= k < m + 1 ==> steps[k] == steps[1..][k - 1];
      1 + m
    else 0
  }

  /** The reference reading, from the end backwards: the frequency of the
      last row that has one, 0 when none has. */
  function LastFrequency(steps: seq<Result<RowStep, FscError>>): real {
    if steps == [] then 0.0
    else match ValueOf(steps[|steps| - 1])
      case Some(f) => f
      case None => LastFrequency(steps[..|steps| - 1])
  }

  /** The loop of execute_resolution over the classified rows, front to
      back: remember each frequency read, stop at the first drop. */
  method ScanSteps(steps: seq<Result<RowStep, FscError>>) returns (r: Result<real, FscError>)
    ensures var n := StopIndex(steps);
      && (r.Err? <==> n < |steps| && steps[n].Err?)
      && (r.Err? ==> r.error == steps[n].error)
      && (r.Ok? ==> r.value == LastFrequency(steps[..n]))
  {
    var frequency := 0.0;
    var i := 0;
    while i < |steps|
      invariant i <= StopIndex(steps)
      invariant frequency == LastFrequency(steps[..i])
    {
      var step := steps[i];
      if step.Err? {
        return Err(step.error);
      }
      if step.value.Stop? {
        break;
      }
      assert steps[..i + 1][..i] == steps[..i];
      if step.value.Value? {
        frequency := step.value.frequency;
      }
      i := i + 1;
    }
    return Ok(frequency);
  }

  /** The rows of an FSC file as the scan classifies them. */
  function FscSteps(content: string): seq<Result<RowStep, FscError>> {
    Steps(DataRows(content))
  }

  /** The reference reading of a whole FSC file: the error of the row that
      ends the scan, or the last frequency before it scaled by the sampling
      rate. */
  function FscEstimate(content: string, resolSam: real): Result<real, FscError> {
    ScanFrequency(FscSteps(content), resolSam)
  }

  function ScanFrequency(steps: seq<Result<RowStep, FscError>>, resolSam: real): Result<real, FscError> {
    var n := StopIndex(steps);
    if n < |steps| && steps[n].Err? then Err(steps[n].error) else Ok(Scale(LastFrequency(steps[..n]), resolSam))
  }

  /** A frequency in pixel^-1 times the sampling rate ResolSam. */
  function Scale(frequency: real, resolSam: real): real {
    frequency * resolSam
  }

  /** The scan's result scaled by the sampling rate ResolSam (pixel^-1). */
  method ScaledScan(steps: seq<Result<RowStep, FscError>>, resolSam: real) returns (r: Result<real, FscError>)
    ensures r == ScanFrequency(steps, resolSam)
  {
    var found := ScanSteps(steps);
    if found.Err? {
      return Err(found.error);
    }
    return Ok(Scale(found.value, resolSam));
  }

  /** The resolution execute_resolution returns for an FSC file, computed
      by the row loop; it agrees with the reference reading FscEstimate. */
  method FscResolution(content: string, resolSam: real) returns (r: Result<real, FscError>)
    ensures r == FscEstimate(content, resolSam)
  {
    var steps := FscSteps(content);
    r := ScaledScan(steps, resolSam);
  }

  // ---------------------------------------------------------------------
  // What the scan's result means
  // ---------------------------------------------------------------------

  /** The result is 0 exactly when no row before the stop carried a frequency,
      which includes a first data row that already drops below 0.5. */
  lemma {:induction false} NoValueMeansZero(steps: seq<Result<RowStep, FscError>>)
    requires forall k :: 0 <= k < |steps| ==> ValueOf(steps[k]).None?
    ensures LastFrequency(steps) == 0.0
    decreases |steps|
  {
    if steps != [] {
      var init := steps[..|steps| - 1];
      assert forall k :: 0 <= k < |init| ==> init[k] == steps[k];
      NoValueMeansZero(init);
    }
  }

  /** Otherwise it is the frequency of the last row that has one: nothing
      after that row contributes a frequency. */
  lemma {:induction false} LastFrequencyWitness(steps: seq<Result<RowStep, FscError>>)
    requires exists k :: 0 <= k < |steps| && ValueOf(steps[k]).Some?
    ensures exists k ::
      && 0 <= k < |steps| && ValueOf(steps[k]) == Some(LastFrequency(steps))
      && forall m :: k < m < |steps| ==> ValueOf(steps[m]).None?
    decreases |steps|
  {
    var last := |steps| - 1;
    if ValueOf(steps[last]).Some? {
      assert ValueOf(steps[last]) == Some(LastFrequency(steps));
    } else {
      var init := steps[..last];
      assert LastFrequency(steps) == LastFrequency(init);
      var j :| 0 <= j < |steps| && ValueOf(steps[j]).Some?;
      assert j < last && init[j] == steps[j];
      LastFrequencyWitness(init);
      var k :| && 0 <= k < |init| && ValueOf(init[k]) == Some(LastFrequency(init))
               && forall m :: k < m < |init| ==> ValueOf(init[m]).None?;
      assert init[k] == steps[k] && ValueOf(steps[k]) == Some(LastFrequency(steps));
      assert forall m :: k < m < |steps| ==> ValueOf(steps[m]).None? by {
        forall m | k < m < |steps| ensures ValueOf(steps[m]).None? {
          if m < last {
            assert init[m] == steps[m];
          }
        }
      }
    }
  }

  /** When no row drops below 0.5 (and none is malformed), the scan reads to
      the end and returns the last row's frequency, if that row has one. */
  lemma NoDropReadsAll(steps: seq<Result<RowStep, FscError>>)
    requires forall k :: 0 <= k < |steps| ==> Continues(steps[k])
    ensures StopIndex(steps) == |steps|
    ensures steps != [] && ValueOf(steps[|steps| - 1]).Some? ==>
      LastFrequency(steps[..StopIndex(steps)]) == ValueOf(steps[|steps| - 1]).value
  {
    assert steps[..|steps|] == steps;
  }

  /** The scan keeps the frequency of the row before the first drop: here the
      rows read 0.1 and 0.2 above the threshold, then drop, then rise again,
      and the answer is 0.2, not the frequency of the dropping row. */
  lemma ScanExample()
    ensures var steps := [Ok(Skip), Ok(Value(0.1)), Ok(Value(0.2)), Ok(Stop), Ok(Value(0.4))];
      StopIndex(steps) == 3 && LastFrequency(steps[..StopIndex(steps)]) == 0.2
  {
    var steps: seq<Result<RowStep, FscError>> := [Ok(Skip), Ok(Value(0.1)), Ok(Value(0.2)), Ok(Stop), Ok(Value(0.4))];
    assert steps[3..][1..] == [Ok(Value(0.4))];
    assert StopIndex(steps[3..]) == 0;
    assert steps[..3][..2] == [Ok(Skip), Ok(Value(0.1))];
  }

  // ---------------------------------------------------------------------
  // Filtration (filter_at_given_resolution)
  // ---------------------------------------------------------------------

  datatype FilterAction = CopyThrough | LowPass(cutoff: real)

  datatype FilterStep = FilterStep(input: string, output: string, action: FilterAction, cutoff: real)

  /** The cutoff is the constant alone when the resolution is set to zero,
      the resolution plus the constant otherwise; the volume is copied when
      the constant is below 0.5 or no resolution was computed, low-passed at
      the cutoff otherwise; the cutoff is returned either way. */
  function FilterAtResolution(doResolution: bool, setToZero: bool, constant: real, frequency: real,
                              reconstructed: string, filtered: string): (s: FilterStep)
    ensures s.input == reconstructed + ".vol" && s.output == filtered + ".vol"
    ensures setToZero ==> s.cutoff == constant
    ensures !setToZero ==> s.cutoff == frequency + constant
    ensures s.action == CopyThrough <==> constant < 0.5 || !doResolution
    ensures s.action.LowPass? ==> s.action.cutoff == s.cutoff
  {
    var cutoff := if setToZero then constant else frequency + constant;
    var action := if constant < 0.5 || !doResolution then CopyThrough else LowPass(cutoff);
    FilterStep(reconstructed + ".vol", filtered + ".vol", action, cutoff)
  }

  /** With the resolution set to zero the estimate plays no part at all. */
  lemma SetToZeroIgnoresEstimate(doResolution: bool, constant: real, f1: real, f2: real, rec: string, fil: string)
    ensures FilterAtResolution(doResolution, true, constant, f1, rec, fil)
         == FilterAtResolution(doResolution, true, constant, f2, rec, fil)
  {
  }

  /** A consequence of the copy rule: whenever the low-pass runs on a
      non-negative estimate, it cuts at or above 0.5 pixel^-1, the Nyquist
      frequency, where the documentation expects a constant above 0.5 to
      avoid filtration. */
  lemma LowPassAtOrAboveNyquist(doResolution: bool, setToZero: bool, constant: real, frequency: real,
                                rec: string, fil: string)
    requires frequency >= 0.0
    requires FilterAtResolution(doResolution, setToZero, constant, frequency, rec, fil).action.LowPass?
    ensures FilterAtResolution(doResolution, setToZero, constant, frequency, rec, fil).cutoff >= 0.5
  {
  }

  /** The copy test as written: the constant arrives as the setting's text
      and is compared with 0.5 before any conversion; Python 2 orders every
      number before every string, so the test is false whatever the text,
      and only a switched-off resolution copies the volume. The cutoff still
      goes through float(), which refuses text that is not a number. */
  function FilterAtResolutionAsWritten(doResolution: bool, setToZero: bool, constantText: string, frequency: real,
                                       reconstructed: string, filtered: string): (s: Option<FilterStep>)
    ensures s.Some? <==> ParseDecimal(constantText).Some?
    ensures s.Some? ==> (s.value.action == CopyThrough <==> !doResolution)
    ensures s.Some? ==> s.value.input == reconstructed + ".vol" && s.value.output == filtered + ".vol"
    ensures s.Some? ==> s.value.cutoff == (if setToZero then 0.0 else frequency) + ParseDecimal(constantText).value
  {
    match ParseDecimal(constantText)
    case None => None
    case Some(constant) =>
      var cutoff := if setToZero then constant else frequency + constant;
      var textBelowHalf := false;  // str < float in Python 2
      var action := if textBelowHalf || !doResolution then CopyThrough else LowPass(cutoff);
      Some(FilterStep(reconstructed + ".vol", filtered + ".vol", action, cutoff))
  }

  /** With the resolution computed and the constant "0", the intended rule
      copies the volume but the code as written low-passes it at the bare
      estimate; the two agree on every cutoff. */
  lemma SmallConstantStillFilters(setToZero: bool, frequency: real, rec: string, fil: string)
    ensures ParseDecimal("0") == Some(0.0)
    ensures FilterAtResolution(true, setToZero, 0.0, frequency, rec, fil).action == CopyThrough
    ensures FilterAtResolutionAsWritten(true, setToZero, "0", frequency, rec, fil).value.action.LowPass?
    ensures FilterAtResolutionAsWritten(true, setToZero, "0", frequency, rec, fil).value.cutoff
         == FilterAtResolution(true, setToZero, 0.0, frequency, rec, fil).cutoff
  {
    ParseDecimalOfNat(0);
    assert NatToString(0) == "0";
  }

  /** Over all inputs the code as written and the intended rule read the
      same files and agree on the cutoff; their actions differ exactly when
      resolution is on and the constant is below 0.5. */
  lemma AsWrittenDiffersOnlyBelowHalf(doResolution: bool, setToZero: bool, constantText: string, frequency: real,
                                      rec: string, fil: string)
    requires ParseDecimal(constantText).Some?
    ensures var written := FilterAtResolutionAsWritten(doResolution, setToZero, constantText, frequency, rec, fil).value;
      var intended := FilterAtResolution(doResolution, setToZero, ParseDecimal(constantText).value, frequency, rec, fil);
      && written.input == intended.input
      && written.output == intended.output
      && written.cutoff == intended.cutoff
      && (written.action == intended.action <==> !(doResolution && ParseDecimal(constantText).value < 0.5))
  {
  }
}
