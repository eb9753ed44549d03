/**
 * The iteration controller of the projection-matching protocol
 * (protocol_projmatch.py, projection_matching_class.__init__).  A run is
 * modelled as a pure function from the configuration and the environment
 * (working directory, image size, number of CTF groups, the FSC files the
 * external programs produce) to the set-up it computes and one record per completed
 * iteration; an abort ends the run with an error after the records of the
 * iterations that completed.
 */
module Controller {
  import opened Wrappers
  import opened Text
  import opened ParamSequence
  import opened RunLayout
  import opened Stages
  import opened Resolution
  import opened Paths

  /** The per-iteration settings of projection matching, each a sequence in
      the "NxV" notation. */
  datatype MatchingSettings = MatchingSettings(
    angSamplingRateDeg: string,
    maxChangeOffset: string,
    maxChangeInAngles: string,
    search5DShift: string,
    search5DStep: string,
    minimumCrossCorrelation: string,
    discardPercentage: string,
    doAlign2D: string,
    align2dMaxChangeOffset: string,
    align2dMaxChangeRot: string)

  datatype Config = Config(
    iterations: int,              // NumberofIterations as the user gives it
    continueAt: int,              // ContinueAtIteration
    deleteWorkingDir: bool,
    referenceFile: string,        // ReferenceFileName as the user gives it
    doCtfCorrection: bool,
    outerRadius: int,
    fourierMaxFrequency: string,  // FourierMaxFrequencyOfInterest, a text
    doMask: bool,
    maskFile: string,             // MaskFileName as the user gives it
    doProjectionMatching: bool,
    matching: MatchingSettings,
    referenceIsCtfCorrected: bool,
    reconstructionMethod: string, // a sequence
    artLambda: string,            // a sequence
    doReconstruction: bool,
    doParallel: bool,
    processes: nat,
    threads: int,                 // NumberOfThreads, a Python integer
    doComputeResolution: bool,
    resolSam: real,
    setResolutionToZero: bool,
    constantToAdd: string)        // a sequence

  /** What the run learns from outside: the directory os.getcwd() reports,
      the image width of the selfile, the number of CTF groups
      execute_ctf_groups makes, the name utils_xmipp.composeFileName gives
      CTF group g, and the FSC file the resolution program writes in each
      iteration. */
  datatype Env = Env(cwd: AbsolutePath, xdim: nat, ctfGroups: int, groupName: nat -> string, fsc: nat -> string)

  datatype RunError =
    | CannotDeleteWhenResuming(continueAt: int)
    | Align2DWithCtf(iteration: nat)
    | BadSetting(seqError: SeqError)
    | BadNumber(text: string)
    | NoName(iteration: nat)          // a name list is too short: Python's IndexError
    | StageFailed(stageError: StageError)
    | FscFailed(fscError: FscError)

  /** What __init__ computes before the first iteration: the mask file by
      its absolute name, and the name lists built from the absolute name
      of the reference. */
  datatype Setup = Setup(outerRadius: int, ctfGroups: int, maskFile: string, layout: Layout, initialMaxFrequency: real)

  /** The projection-matching stage of one iteration. */
  datatype Matching = Matching(
    inputDoc: string,
    outputDoc: string,
    angularDistance: string,
    ctfCorrectedReference: bool,
    subsetManifest: bool,
    groups: seq<GroupRun>,
    classAverage: ClassAverage,
    matchedDoc: string)

  /** One completed iteration. */
  datatype IterationRecord = IterationRecord(
    iteration: nat,
    maxFrequencyIn: real,               // the Fourier limit it reconstructs with
    mask: MaskStep,
    matching: Option<Matching>,
    reconstruction: Option<Launch>,
    halves: Option<(Launch, Launch)>,
    resolution: real,                   // filter_frequence
    filter: FilterStep)

  /** The whole run: the set-up (none when the resume guard fires), the
      completed iterations, and the error that ended it early, if any. */
  datatype Outcome = Outcome(setup: Option<Setup>, records: seq<IterationRecord>, error: Option<RunError>)

  /** A sequence setting at 0-based position index. */
  function Setting(spec: string, index: nat): Result<string, RunError> {
    match Resolve(spec, index)
    case Ok(v) => Ok(v)
    case Err(e) => Err(BadSetting(e))
  }

  /** Several sequence settings read in order at one position; the first
      that does not resolve aborts the reading. */
  function Settings(specs: seq<string>, index: nat): (r: Result<seq<string>, RunError>)
    ensures r.Ok? <==> forall k :: 0 <= k < |specs| ==> Resolve(specs[k], index).Ok?
    ensures r.Ok? ==> |r.value| == |specs| && forall k :: 0 <= k < |specs| ==> Ok(r.value[k]) == Resolve(specs[k], index)
    ensures r.Err? ==> r.error.BadSetting?
    ensures specs != [] && Resolve(specs[0], index).Err? ==> r == Err(BadSetting(Resolve(specs[0], index).error))
  {
    if specs == [] then Ok([])
    else
      var v :- Setting(specs[0], index);
      var rest :- Settings(specs[1..], index);
      Ok([v] + rest)
  }

  function Name(names: seq<string>, i: nat, iteration: nat): Result<string, RunError> {
    match At(names, i)
    case Some(n) => Ok(n)
    case None => Err(NoName(iteration))
  }

  function Stage<T>(r: Result<T, StageError>): Result<T, RunError> {
    match r
    case Ok(v) => Ok(v)
    case Err(e) => Err(StageFailed(e))
  }

  // ---------------------------------------------------------------------
  // The Align2D/CTF guard
  // ---------------------------------------------------------------------

  /** The guard as written: the resolved setting is a string and is compared
      with the integer 1, which in Python is never equal. */
  function Align2DGuardAsWritten(cfg: Config, iteration: nat): (r: Result<bool, RunError>)
    requires iteration >= 1
    ensures r.Ok? ==> !r.value
  {
    var v :- Setting(cfg.matching.doAlign2D, iteration - 1);
    Ok(false)
  }

  /** The guard as intended: re-alignment requested for this iteration
      (the setting is "1", as the class-average stage reads it) while CTF
      correction is on. */
  function Align2DGuard(cfg: Config, iteration: nat): (r: Result<bool, RunError>)
    requires iteration >= 1
    ensures r.Ok? ==> (r.value <==> cfg.doCtfCorrection && Resolve(cfg.matching.doAlign2D, iteration - 1) == Ok("1"))
    ensures r.Err? <==> Resolve(cfg.matching.doAlign2D, iteration - 1).Err?
  {
    var v :- Setting(cfg.matching.doAlign2D, iteration - 1);
    Ok(v == "1" && cfg.doCtfCorrection)
  }

  // ---------------------------------------------------------------------
  // One iteration
  // ---------------------------------------------------------------------

  /** The ten per-iteration matching settings, in the order the iteration
      reads them. */
  function MatchingSpecs(m: MatchingSettings): (specs: seq<string>)
    ensures |specs| == 10 && specs[2] == m.maxChangeInAngles && specs[7] == m.doAlign2D
  {
    [m.angSamplingRateDeg, m.maxChangeOffset, m.maxChangeInAngles, m.search5DShift, m.search5DStep,
     m.minimumCrossCorrelation, m.discardPercentage, m.doAlign2D, m.align2dMaxChangeOffset,
     m.align2dMaxChangeRot]
  }

  /** Projection matching of iteration i: it reads the ten settings, then
      the angle documents, then derives the angular distance from the
      maximum change in angles and the matched document from the number of
      CTF groups and the Align2D setting. */
  function MatchingStage(cfg: Config, env: Env, setup: Setup, i: nat): (r: Result<Matching, RunError>)
    requires i >= 1
    ensures r.Ok? <==>
      && Settings(MatchingSpecs(cfg.matching), i - 1).Ok?
      && At(setup.layout.docs, i).Some? && At(setup.layout.docs, i + 1).Some?
      && ParseDecimal(Resolve(cfg.matching.maxChangeInAngles, i - 1).value).Some?
      && setup.ctfGroups >= 1
    ensures r.Err? ==> !r.error.Align2DWithCtf?
    ensures r.Ok? ==> At(setup.layout.docs, i) == Some(r.value.inputDoc)
    ensures r.Ok? ==> At(setup.layout.docs, i + 1) == Some(r.value.outputDoc)
    ensures r.Ok? ==> var maxAngles := Resolve(cfg.matching.maxChangeInAngles, i - 1).value;
      AngularDistance(maxAngles) == Ok(r.value.angularDistance)
    ensures r.Ok? ==> var align2d := Resolve(cfg.matching.doAlign2D, i - 1).value;
      && r.value.classAverage == ClassAverageOptions(cfg.doCtfCorrection, align2d, cfg.doComputeResolution)
      && MatchedDoc(setup.ctfGroups, align2d) == Ok(r.value.matchedDoc)
    ensures r.Ok? ==> r.value.groups == GroupRuns(cfg.doCtfCorrection, setup.ctfGroups, r.value.inputDoc, env.groupName)
    ensures r.Ok? ==> r.value.ctfCorrectedReference == ReferenceIsCtfCorrected(i, cfg.referenceIsCtfCorrected)
    ensures r.Ok? ==> r.value.subsetManifest == cfg.doCtfCorrection
  {
    var values :- Settings(MatchingSpecs(cfg.matching), i - 1);
    var maxAngles := values[2];
    var align2d := values[7];
    var inputDoc :- Name(setup.layout.docs, i, i);
    var outputDoc :- Name(setup.layout.docs, i + 1, i);
    var distance :- Stage(AngularDistance(maxAngles));
    var matched :- Stage(MatchedDoc(setup.ctfGroups, align2d));
    Ok(Matching(
      inputDoc, outputDoc, distance,
      ReferenceIsCtfCorrected(i, cfg.referenceIsCtfCorrected),
      cfg.doCtfCorrection,
      GroupRuns(cfg.doCtfCorrection, setup.ctfGroups, inputDoc, env.groupName),
      ClassAverageOptions(cfg.doCtfCorrection, align2d, cfg.doComputeResolution),
      matched))
  }

  /** What a completed iteration i read and wrote, in terms of the run's
      name lists. */
  predicate Fits(layout: Layout, rec: IterationRecord) {
    && rec.iteration >= 1
    && At(layout.filtered, rec.iteration).Some?
    && At(layout.filtered, rec.iteration + 1).Some?
    && rec.mask.input == MaskInput(layout.filtered[rec.iteration], rec.iteration)
    && rec.filter.output == layout.filtered[rec.iteration + 1] + ".vol"
    && (rec.matching.Some? ==>
          && At(layout.docs, rec.iteration) == Some(rec.matching.value.inputDoc)
          && At(layout.docs, rec.iteration + 1) == Some(rec.matching.value.outputDoc))
  }

  /** Fits, stated for the iteration number the record carries. */
  lemma FitsAt(layout: Layout, rec: IterationRecord, i: nat)
    requires rec.iteration == i >= 1
    requires At(layout.filtered, i).Some? && At(layout.filtered, i + 1).Some?
    requires rec.mask.input == MaskInput(layout.filtered[i], i)
    requires rec.filter.output == layout.filtered[i + 1] + ".vol"
    requires rec.matching.Some? ==>
      && At(layout.docs, i) == Some(rec.matching.value.inputDoc)
      && At(layout.docs, i + 1) == Some(rec.matching.value.outputDoc)
    ensures Fits(layout, rec)
  {
  }

  /** The reconstruction of the iteration's volume, when switched on. */
  function ReconstructionStage(cfg: Config, methodName: string, volume: string): (r: Result<Option<Launch>, RunError>)
    ensures !cfg.doReconstruction ==> r == Ok(None)
    ensures cfg.doReconstruction ==> (r.Ok? <==> PlanReconstruction(methodName, volume, cfg.doParallel, cfg.threads, cfg.processes).Ok?)
    ensures cfg.doReconstruction && r.Ok? ==>
      r.value == Some(PlanReconstruction(methodName, volume, cfg.doParallel, cfg.threads, cfg.processes).value)
    ensures r.Ok? && r.value.Some? ==> r.value.value.output in {volume, volume + ".vol"}
  {
    if cfg.doReconstruction then
      var l :- Stage(PlanReconstruction(methodName, volume, cfg.doParallel, cfg.threads, cfg.processes));
      Ok(Some(l))
    else Ok(None)
  }

  /** The two half reconstructions of the resolution stage. The second one
      inherits the parallel flag and thread count the first one settled on,
      and is therefore launched exactly like the first. */
  function HalvesStage(cfg: Config, methodName: string): (r: Result<Option<(Launch, Launch)>, RunError>)
    ensures !cfg.doComputeResolution ==> r == Ok(None)
    ensures cfg.doComputeResolution ==>
      (r.Ok? <==> PlanReconstruction(methodName, HalfVolume(1), cfg.doParallel, cfg.threads, cfg.processes).Ok?)
    ensures cfg.doComputeResolution && r.Ok? ==> r.value.Some?
    ensures cfg.doComputeResolution && r.Ok? ==>
      r.value.value.0 == PlanReconstruction(methodName, HalfVolume(1), cfg.doParallel, cfg.threads, cfg.processes).value
    ensures r.Ok? && r.value.Some? ==> var (h1, h2) := r.value.value;
      h1.output in {HalfVolume(1), HalfVolume(1) + ".vol"} && h2.output in {HalfVolume(2), HalfVolume(2) + ".vol"}
      && h1.program == h2.program && h1.parallel == h2.parallel && h1.threads == h2.threads
  {
    if cfg.doComputeResolution then
      var h1 :- Stage(PlanReconstruction(methodName, HalfVolume(1), cfg.doParallel, cfg.threads, cfg.processes));
      HalvesAgreeWithFull(methodName, HalfVolume(1), h1.parallel, h1.threads, cfg.processes, 2);
      PlanSettles(methodName, HalfVolume(1), cfg.doParallel, cfg.threads, cfg.processes);
      var h2 := PlanReconstruction(methodName, HalfVolume(2), h1.parallel, h1.threads, cfg.processes).value;
      Ok(Some((h1, h2)))
    else Ok(None)
  }

  /** filter_frequence: the FSC estimate of the iteration scaled by the
      sampling rate, or 0 when resolution is not computed. */
  function Estimate(cfg: Config, env: Env, i: nat): (r: Result<real, RunError>)
    ensures !cfg.doComputeResolution ==> r == Ok(0.0)
    ensures cfg.doComputeResolution ==> var estimate := FscEstimate(env.fsc(i), cfg.resolSam);
      && (r.Ok? <==> estimate.Ok?)
      && (r.Ok? ==> r.value == estimate.value)
      && (r.Err? ==> r.error == FscFailed(estimate.error))
  {
    if !cfg.doComputeResolution then Ok(0.0)
    else
      match FscEstimate(env.fsc(i), cfg.resolSam)
      case Ok(f) => Ok(f)
      case Err(e) => Err(FscFailed(e))
  }

  /** The filtration of the iteration: the constant of this iteration must
      read as a number; the cutoff it returns is the next iteration's
      Fourier limit. */
  function Filtration(cfg: Config, i: nat, resolution: real, volume: string, filtered: string): (r: Result<FilterStep, RunError>)
    requires i >= 1
    ensures r.Ok? <==> Setting(cfg.constantToAdd, i - 1).Ok? && ParseDecimal(Setting(cfg.constantToAdd, i - 1).value).Some?
    ensures r.Ok? ==> r.value.input == volume + ".vol" && r.value.output == filtered + ".vol"
    ensures r.Ok? ==> var c := ParseDecimal(Setting(cfg.constantToAdd, i - 1).value).value;
      r.value.cutoff == (if cfg.setResolutionToZero then c else resolution + c)
      && (r.value.action == CopyThrough <==> c < 0.5 || !cfg.doComputeResolution)
  {
    var constantText :- Setting(cfg.constantToAdd, i - 1);
    var constant :- match ParseDecimal(constantText)
      case Some(c) => Ok(c)
      case None => Err(BadNumber(constantText));
    Ok(FilterAtResolution(cfg.doComputeResolution, cfg.setResolutionToZero, constant, resolution, volume, filtered))
  }

  /** The first two stages: masking the reference and projection matching. */
  function MaskAndMatch(cfg: Config, env: Env, setup: Setup, i: nat): (r: Result<(MaskStep, Option<Matching>), RunError>)
    requires i >= 1
    ensures r.Err? ==> !r.error.Align2DWithCtf?
    ensures r.Ok? ==> At(setup.layout.filtered, i).Some? && At(setup.layout.reference, i).Some?
    ensures r.Ok? ==> r.value.0.input == MaskInput(setup.layout.filtered[i], i)
    ensures r.Ok? <==>
      && At(setup.layout.filtered, i).Some? && At(setup.layout.reference, i).Some?
      && (cfg.doProjectionMatching ==> MatchingStage(cfg, env, setup, i).Ok?)
    ensures r.Ok? ==> r.value.0 == Mask(cfg.doMask, setup.layout.filtered[i], setup.maskFile, i, setup.layout.reference[i])
    ensures r.Ok? ==> r.value.0.output == setup.layout.reference[i]
    ensures r.Ok? ==> r.value.1 == if cfg.doProjectionMatching then Some(MatchingStage(cfg, env, setup, i).value) else None
    ensures r.Ok? && r.value.1.Some? ==>
      && At(setup.layout.docs, i) == Some(r.value.1.value.inputDoc)
      && At(setup.layout.docs, i + 1) == Some(r.value.1.value.outputDoc)
  {
    var maskIn :- Name(setup.layout.filtered, i, i);
    var maskOut :- Name(setup.layout.reference, i, i);
    var mask := Mask(cfg.doMask, maskIn, setup.maskFile, i, maskOut);
    var matching :- if cfg.doProjectionMatching then
        var m :- MatchingStage(cfg, env, setup, i); Ok(Some(m))
      else Ok(None);
    Ok((mask, matching))
  }

  /** The last two stages: the resolution estimate and the filtration it
      drives, which writes the next iteration's reference. The constant is
      resolved before the next filtered name is looked up, and read as a
      number only after it. */
  function ResolutionAndFilter(cfg: Config, env: Env, setup: Setup, i: nat, volume: string)
    : (r: Result<(real, FilterStep), RunError>)
    requires i >= 1
    ensures r.Ok? <==>
      && Estimate(cfg, env, i).Ok? && Setting(cfg.constantToAdd, i - 1).Ok?
      && At(setup.layout.filtered, i + 1).Some?
      && ParseDecimal(Setting(cfg.constantToAdd, i - 1).value).Some?
    ensures Estimate(cfg, env, i).Ok? && Setting(cfg.constantToAdd, i - 1).Err? ==>
      r == Err(Setting(cfg.constantToAdd, i - 1).error)
    ensures Estimate(cfg, env, i).Ok? && Setting(cfg.constantToAdd, i - 1).Ok? && At(setup.layout.filtered, i + 1).None? ==>
      r == Err(NoName(i))
    ensures r.Err? ==> !r.error.Align2DWithCtf?
    ensures r.Ok? ==> r.value.1.input == volume + ".vol" && r.value.1.output == setup.layout.filtered[i + 1] + ".vol"
    ensures r.Ok? ==> Estimate(cfg, env, i) == Ok(r.value.0)
    ensures r.Ok? ==> Filtration(cfg, i, r.value.0, volume, setup.layout.filtered[i + 1]) == Ok(r.value.1)
  {
    var resolution :- Estimate(cfg, env, i);
    var constantText :- Setting(cfg.constantToAdd, i - 1);
    var filtered :- Name(setup.layout.filtered, i + 1, i);
    var filter :- Filtration(cfg, i, resolution, volume, filtered);
    Ok((resolution, filter))
  }

  /** Every stage of iteration i after the guard succeeds, each reading the
      method named for this iteration and the volume it reconstructs. */
  predicate StagesSucceed(cfg: Config, env: Env, setup: Setup, i: nat)
    requires i >= 1
  {
    && MaskAndMatch(cfg, env, setup, i).Ok?
    && Setting(cfg.reconstructionMethod, i - 1).Ok? && Setting(cfg.artLambda, i - 1).Ok?
    && At(setup.layout.reconstructed, i).Some?
    && ReconstructionStage(cfg, Setting(cfg.reconstructionMethod, i - 1).value, setup.layout.reconstructed[i]).Ok?
    && HalvesStage(cfg, Setting(cfg.reconstructionMethod, i - 1).value).Ok?
    && ResolutionAndFilter(cfg, env, setup, i, setup.layout.reconstructed[i]).Ok?
  }

  /** The stages after the guard: mask, matching, reconstruction,
      resolution, filtration. */
  function IterationStages(cfg: Config, env: Env, setup: Setup, i: nat, maxFrequency: real)
    : (r: Result<IterationRecord, RunError>)
    requires i >= 1
    ensures r.Ok? <==> StagesSucceed(cfg, env, setup, i)
    ensures r.Err? ==> !r.error.Align2DWithCtf?
    ensures r.Ok? ==> r.value.iteration == i && r.value.maxFrequencyIn == maxFrequency
    ensures r.Ok? ==> Fits(setup.layout, r.value)
    ensures r.Ok? ==> MaskAndMatch(cfg, env, setup, i) == Ok((r.value.mask, r.value.matching))
    ensures r.Ok? ==> At(setup.layout.reconstructed, i).Some? && Setting(cfg.reconstructionMethod, i - 1).Ok?
    ensures r.Ok? ==> var methodName := Setting(cfg.reconstructionMethod, i - 1).value;
      && ReconstructionStage(cfg, methodName, setup.layout.reconstructed[i]) == Ok(r.value.reconstruction)
      && HalvesStage(cfg, methodName) == Ok(r.value.halves)
    ensures r.Ok? ==> r.value.filter.input == setup.layout.reconstructed[i] + ".vol"
    ensures r.Ok? ==> Estimate(cfg, env, i) == Ok(r.value.resolution)
    ensures r.Ok? ==> Filtration(cfg, i, r.value.resolution, setup.layout.reconstructed[i], setup.layout.filtered[i + 1])
                      == Ok(r.value.filter)
  {
    var layout := setup.layout;
    var front :- MaskAndMatch(cfg, env, setup, i);
    var methodName :- Setting(cfg.reconstructionMethod, i - 1);
    var artLambda :- Setting(cfg.artLambda, i - 1);
    var volume :- Name(layout.reconstructed, i, i);
    var reconstruction :- ReconstructionStage(cfg, methodName, volume);
    var halves :- HalvesStage(cfg, methodName);
    var back :- ResolutionAndFilter(cfg, env, setup, i, volume);
    var rec := IterationRecord(i, maxFrequency, front.0, front.1, reconstruction, halves, back.0, back.1);
    FitsAt(layout, rec, i);
    Ok(rec)
  }

  /** One iteration with the intended guard. */
  function RunIteration(cfg: Config, env: Env, setup: Setup, i: nat, maxFrequency: real)
    : (r: Result<IterationRecord, RunError>)
    requires i >= 1
    ensures cfg.doCtfCorrection && Resolve(cfg.matching.doAlign2D, i - 1) == Ok("1") ==> r == Err(Align2DWithCtf(i))
    ensures Align2DGuard(cfg, i) == Ok(false) ==> r == IterationStages(cfg, env, setup, i, maxFrequency)
    ensures Align2DGuard(cfg, i).Err? ==> r == Err(Align2DGuard(cfg, i).error)
    ensures r.Ok? ==> r == IterationStages(cfg, env, setup, i, maxFrequency)
    ensures r.Ok? ==> r.value.iteration == i && r.value.maxFrequencyIn == maxFrequency && Fits(setup.layout, r.value)
  {
    var stop :- Align2DGuard(cfg, i);
    if stop then Err(Align2DWithCtf(i)) else IterationStages(cfg, env, setup, i, maxFrequency)
  }

  /** One iteration with the guard as written. */
  function RunIterationAsWritten(cfg: Config, env: Env, setup: Setup, i: nat, maxFrequency: real)
    : (r: Result<IterationRecord, RunError>)
    requires i >= 1
    ensures Resolve(cfg.matching.doAlign2D, i - 1).Ok? ==> r == IterationStages(cfg, env, setup, i, maxFrequency)
  {
    var stop :- Align2DGuardAsWritten(cfg, i);
    if stop then Err(Align2DWithCtf(i)) else IterationStages(cfg, env, setup, i, maxFrequency)
  }

  // ---------------------------------------------------------------------
  // The loop
  // ---------------------------------------------------------------------

  datatype LoopResult = LoopResult(records: seq<IterationRecord>, error: Option<RunError>)

  /** The records of a run of iterations starting at i: numbered i, i+1, ...,
      each fitting the layout, each starting from the cutoff before it. */
  predicate Chained(layout: Layout, records: seq<IterationRecord>, i: nat) {
    && (forall k :: 0 <= k < |records| ==> records[k].iteration == i + k)
    && (forall k :: 0 <= k < |records| ==> Fits(layout, records[k]))
    && (forall k :: 0 <= k < |records| - 1 ==> records[k + 1].maxFrequencyIn == records[k].filter.cutoff)
  }

  /** Putting iteration i in front of a chain that starts at i+1 from its cutoff
      gives a chain that starts at i. */
  lemma ChainCons(layout: Layout, rec: IterationRecord, rest: seq<IterationRecord>, i: nat)
    requires rec.iteration == i && Fits(layout, rec)
    requires Chained(layout, rest, i + 1)
    requires rest != [] ==> rest[0].maxFrequencyIn == rec.filter.cutoff
    ensures Chained(layout, [rec] + rest, i)
  {
    var all := [rec] + rest;
    assert forall k :: 1 <= k < |all| ==> all[k] == rest[k - 1];
  }

  /** The Fourier limit the step after a run of records starts from: the
      initial limit when there are none, the last record's cutoff
      otherwise. */
  function NextFrequency(records: seq<IterationRecord>, maxFrequency: real): real {
    if records == [] then maxFrequency else records[|records| - 1].filter.cutoff
  }

  /** One iteration as a function of its number and starting limit. */
  function Step(cfg: Config, env: Env, setup: Setup): (step: (nat, real) -> Result<IterationRecord, RunError>)
    ensures forall j: nat, f: real :: j >= 1 ==> step(j, f) == RunIteration(cfg, env, setup, j, f)
  {
    (j: nat, f: real) => if j >= 1 then RunIteration(cfg, env, setup, j, f) else Err(NoName(j))
  }

  /** Each of a run of records starting at iteration i is what one step
      computes from the limit the record starts from (which Chained ties
      to the cutoff of the record before it). */
  predicate Replays(step: (nat, real) -> Result<IterationRecord, RunError>, records: seq<IterationRecord>, i: nat) {
    forall k :: 0 <= k < |records| ==> step(i + k, records[k].maxFrequencyIn) == Ok(records[k])
  }

  /** An error that ends a run of steps, at most `last` of them, is the
      error of the first step that did not complete. */
  predicate StoppedBy(step: (nat, real) -> Result<IterationRecord, RunError>, r: LoopResult,
                      i: nat, last: int, maxFrequency: real)
  {
    r.error.Some? ==>
      && i + |r.records| <= last
      && step(i + |r.records|, NextFrequency(r.records, maxFrequency)) == Err(r.error.value)
  }

  /** Putting the record step i computes in front of records that replay
      from i+1 gives records that replay from i. */
  lemma {:induction false} ReplaysCons(step: (nat, real) -> Result<IterationRecord, RunError>, rec: IterationRecord,
                                       rest: seq<IterationRecord>, i: nat)
    requires step(i, rec.maxFrequencyIn) == Ok(rec)
    requires Replays(step, rest, i + 1)
    ensures Replays(step, [rec] + rest, i)
  {
    var all := [rec] + rest;
    forall k | 0 <= k < |all|
      ensures step(i + k, all[k].maxFrequencyIn) == Ok(all[k])
    {
      if k >= 1 {
        assert all[k] == rest[k - 1];
        assert i + k == (i + 1) + (k - 1);
      }
    }
  }

  /** The error after records that replay from i+1 is still the error of
      the first step that failed once a record is put in front. */
  lemma StoppedByCons(step: (nat, real) -> Result<IterationRecord, RunError>, rec: IterationRecord,
                      rest: LoopResult, i: nat, last: int, maxFrequency: real)
    requires StoppedBy(step, rest, i + 1, last, rec.filter.cutoff)
    ensures StoppedBy(step, LoopResult([rec] + rest.records, rest.error), i, last, maxFrequency)
  {
    if rest.error.Some? && rest.records != [] {
      assert ([rec] + rest.records)[|rest.records|] == rest.records[|rest.records| - 1];
    }
  }

  /** What the loop relies on in a step: a record it returns carries the
      iteration number and the limit it was asked for, and fits the
      layout. */
  ghost predicate StepFits(step: (nat, real) -> Result<IterationRecord, RunError>, layout: Layout) {
    forall j: nat, f: real :: j >= 1 && step(j, f).Ok? ==>
      && step(j, f).value.iteration == j
      && step(j, f).value.maxFrequencyIn == f
      && Fits(layout, step(j, f).value)
  }

  /** An iteration fits the run's layout. */
  lemma StepFitsLayout(cfg: Config, env: Env, setup: Setup)
    ensures StepFits(Step(cfg, env, setup), setup.layout)
  {
    var step := Step(cfg, env, setup);
    forall j: nat, f: real | j >= 1 && step(j, f).Ok?
      ensures step(j, f).value.iteration == j && step(j, f).value.maxFrequencyIn == f
      ensures Fits(setup.layout, step(j, f).value)
    {
      assert step(j, f) == RunIteration(cfg, env, setup, j, f);
    }
  }

  /** Steps i .. last, each starting from the previous step's cutoff; the
      first error ends the loop. */
  function LoopOf(step: (nat, real) -> Result<IterationRecord, RunError>, layout: Layout,
                  i: nat, last: int, maxFrequency: real): (r: LoopResult)
    requires i >= 1 && StepFits(step, layout)
    ensures Chained(layout, r.records, i)
    ensures Replays(step, r.records, i)
    ensures StoppedBy(step, r, i, last, maxFrequency)
    ensures r.error.None? ==> |r.records| == if last < i then 0 else last - i + 1
    ensures |r.records| <= if last < i then 0 else last - i + 1
    ensures r.records != [] ==> r.records[0].maxFrequencyIn == maxFrequency
    ensures r.error.None? && i <= last ==> At(layout.filtered, last + 1).Some?
    decreases if last < i then 0 else last - i + 1
  {
    if i > last then LoopResult([], None)
    else match step(i, maxFrequency)
      case Err(e) => LoopResult([], Some(e))
      case Ok(rec) =>
        var rest := LoopOf(step, layout, i + 1, last, rec.filter.cutoff);
        ChainCons(layout, rec, rest.records, i);
        ReplaysCons(step, rec, rest.records, i);
        StoppedByCons(step, rec, rest, i, last, maxFrequency);
        LoopResult([rec] + rest.records, rest.error)
  }

  /** Iterations i .. cfg.iterations of the run. */
  function Loop(cfg: Config, env: Env, setup: Setup, i: nat, maxFrequency: real): (r: LoopResult)
    requires i >= 1
    ensures Chained(setup.layout, r.records, i)
    ensures Replays(Step(cfg, env, setup), r.records, i)
    ensures StoppedBy(Step(cfg, env, setup), r, i, cfg.iterations, maxFrequency)
    ensures r.error.None? ==> |r.records| == if cfg.iterations < i then 0 else cfg.iterations - i + 1
    ensures |r.records| <= if cfg.iterations < i then 0 else cfg.iterations - i + 1
    ensures r.records != [] ==> r.records[0].maxFrequencyIn == maxFrequency
    ensures r.error.None? && i <= cfg.iterations ==> At(setup.layout.filtered, cfg.iterations + 1).Some?
  {
    StepFitsLayout(cfg, env, setup);
    LoopOf(Step(cfg, env, setup), setup.layout, i, cfg.iterations, maxFrequency)
  }

  /** What __init__ computes before the first iteration. Both file names
      are made absolute first (lines 587-588). */
  function RunSetup(cfg: Config, env: Env, frequency: real): Setup {
    Setup(
      OuterRadius(cfg.outerRadius, env.xdim),
      if cfg.doCtfCorrection then env.ctfGroups else 1,
      AbsPath(env.cwd, cfg.maskFile),
      MakeLayout(UserReference(cfg, env), cfg.iterations),
      frequency)
  }

  /** The reference volume by its absolute name. */
  function UserReference(cfg: Config, env: Env): string {
    AbsPath(env.cwd, cfg.referenceFile)
  }

  /** A whole run. ContinueAtIteration is taken to be at least 1. */
  function Run(cfg: Config, env: Env): (o: Outcome)
    requires cfg.continueAt >= 1
    ensures InitialMaxFrequency(cfg.continueAt, cfg.fourierMaxFrequency).Err? ==>
      o == Outcome(None, [], Some(StageFailed(StageError.NotANumber(cfg.fourierMaxFrequency))))
    ensures cfg.continueAt != 1 && cfg.deleteWorkingDir ==>
      o == Outcome(None, [], Some(CannotDeleteWhenResuming(cfg.continueAt)))
    ensures o.setup.None? <==>
      (cfg.continueAt != 1 && cfg.deleteWorkingDir) || InitialMaxFrequency(cfg.continueAt, cfg.fourierMaxFrequency).Err?
    ensures o.setup.Some? ==> InitialMaxFrequency(cfg.continueAt, cfg.fourierMaxFrequency).Ok?
    ensures o.setup.Some? ==>
      o.setup.value == RunSetup(cfg, env, InitialMaxFrequency(cfg.continueAt, cfg.fourierMaxFrequency).value)
    ensures o.setup.Some? ==>
      Replays(Step(cfg, env, o.setup.value), o.records, cfg.continueAt as nat)
    ensures o.setup.Some? ==>
      StoppedBy(Step(cfg, env, o.setup.value), LoopResult(o.records, o.error), cfg.continueAt as nat, cfg.iterations,
                o.setup.value.initialMaxFrequency)
    ensures Chained(MakeLayout(UserReference(cfg, env), cfg.iterations), o.records, cfg.continueAt as nat)
    ensures |o.records| <= if cfg.iterations < cfg.continueAt then 0 else cfg.iterations - cfg.continueAt + 1
    ensures o.error.None? ==> |o.records| == if cfg.iterations < cfg.continueAt then 0 else cfg.iterations - cfg.continueAt + 1
    ensures o.records != [] ==>
      InitialMaxFrequency(cfg.continueAt, cfg.fourierMaxFrequency) == Ok(o.records[0].maxFrequencyIn)
  {
    match InitialMaxFrequency(cfg.continueAt, cfg.fourierMaxFrequency)
    case Err(e) => Outcome(None, [], Some(StageFailed(e)))
    case Ok(frequency) =>
      if cfg.continueAt != 1 && cfg.deleteWorkingDir then
        Outcome(None, [], Some(CannotDeleteWhenResuming(cfg.continueAt)))
      else
        var setup := RunSetup(cfg, env, frequency);
        var loop := Loop(cfg, env, setup, cfg.continueAt as nat, frequency);
        Outcome(Some(setup), loop.records, loop.error)
  }

  // ---------------------------------------------------------------------
  // Properties of a run
  // ---------------------------------------------------------------------

  /** The guard the comment above it describes stops the iteration that
      would realign classes with CTF correction on; the guard as written
      lets that iteration run its stages, none of which reports the clash. */
  lemma Align2DGuardIgnored(cfg: Config, env: Env, setup: Setup, i: nat, maxFrequency: real)
    requires i >= 1
    requires cfg.doCtfCorrection && Resolve(cfg.matching.doAlign2D, i - 1) == Ok("1")
    ensures RunIteration(cfg, env, setup, i, maxFrequency) == Err(Align2DWithCtf(i))
    ensures RunIterationAsWritten(cfg, env, setup, i, maxFrequency) != Err(Align2DWithCtf(i))
  {
  }

  /** A run that starts at an iteration asking for realignment with CTF
      correction on does nothing and reports the clash. */
  lemma Align2DStopsRun(cfg: Config, env: Env)
    requires 1 <= cfg.continueAt <= cfg.iterations
    requires !cfg.deleteWorkingDir
    requires cfg.doCtfCorrection && Resolve(cfg.matching.doAlign2D, cfg.continueAt - 1) == Ok("1")
    ensures Run(cfg, env).records == []
    ensures InitialMaxFrequency(cfg.continueAt, cfg.fourierMaxFrequency).Ok? ==>
      Run(cfg, env).error == Some(Align2DWithCtf(cfg.continueAt as nat))
  {
    var frequency := InitialMaxFrequency(cfg.continueAt, cfg.fourierMaxFrequency);
    if frequency.Ok? {
      var setup := RunSetup(cfg, env, frequency.value);
      LoopStopsAtGuard(cfg, env, setup, cfg.continueAt as nat, frequency.value);
      assert Run(cfg, env) == Outcome(Some(setup), [], Some(Align2DWithCtf(cfg.continueAt as nat)));
    }
  }

  /** The loop ends at once with the clash when its first iteration asks
      for realignment with CTF correction on. */
  lemma LoopStopsAtGuard(cfg: Config, env: Env, setup: Setup, i: nat, maxFrequency: real)
    requires 1 <= i <= cfg.iterations
    requires cfg.doCtfCorrection && Resolve(cfg.matching.doAlign2D, i - 1) == Ok("1")
    ensures Loop(cfg, env, setup, i, maxFrequency) == LoopResult([], Some(Align2DWithCtf(i)))
  {
  }

  /** Iteration b continues from iteration a: it masks the volume a
      filtered, reconstructs up to the cutoff a filtered at, and matches
      from the angles a wrote. */
  predicate HandsOver(a: IterationRecord, b: IterationRecord) {
    && b.mask.input == a.filter.output
    && b.maxFrequencyIn == a.filter.cutoff
    && (a.matching.Some? && b.matching.Some? ==> b.matching.value.inputDoc == a.matching.value.outputDoc)
  }

  /** Consecutive iterations of a run hand over their results. */
  lemma ConsecutiveIterations(cfg: Config, env: Env)
    requires cfg.continueAt >= 1
    ensures var records := Run(cfg, env).records;
      forall k :: 0 <= k < |records| - 1 ==> HandsOver(records[k], records[k + 1])
  {
    var records := Run(cfg, env).records;
    forall k | 0 <= k < |records| - 1 ensures HandsOver(records[k], records[k + 1]) {
      ChainedHandOver(MakeLayout(UserReference(cfg, env), cfg.iterations), records, cfg.continueAt as nat, k);
    }
  }

  /** ConsecutiveIterations for any chain of records that fits a layout. */
  lemma ChainedHandOver(layout: Layout, records: seq<IterationRecord>, start: nat, k: nat)
    requires Chained(layout, records, start)
    requires k + 1 < |records|
    ensures HandsOver(records[k], records[k + 1])
  {
    NextRecord(layout, records[k], records[k + 1]);
  }

  /** Two records of consecutive iterations fitting the same name lists
      hand over the filtered volume and the angles document. */
  lemma NextRecord(layout: Layout, a: IterationRecord, b: IterationRecord)
    requires Fits(layout, a) && Fits(layout, b) && b.iteration == a.iteration + 1
    ensures b.mask.input == a.filter.output
    ensures a.matching.Some? && b.matching.Some? ==> b.matching.value.inputDoc == a.matching.value.outputDoc
  {
  }

  /** A fresh run masks the user's reference first, by its absolute name,
      at the configured Fourier limit. A reference that resolves to the
      root is dropped from the name list, and iteration 1 then masks its own
      filtered volume instead. */
  lemma FirstIterationUsesUserReference(cfg: Config, env: Env)
    requires cfg.continueAt == 1
    requires Run(cfg, env).records != []
    ensures UserReference(cfg, env) != "/" ==>
      Run(cfg, env).records[0].mask.input == UserReference(cfg, env)
    ensures UserReference(cfg, env) == "/" ==>
      Run(cfg, env).records[0].mask.input == IterName(1, FilteredReconstruction)
    ensures ParseDecimal(cfg.fourierMaxFrequency) == Some(Run(cfg, env).records[0].maxFrequencyIn)
  {
    var o := Run(cfg, env);
    var layout := o.setup.value.layout;
    assert Fits(layout, o.records[0]);
    if UserReference(cfg, env) != "/" {
      FilteredHandOff(UserReference(cfg, env), cfg.iterations, 1);
    } else {
      ShortReferenceShift(UserReference(cfg, env), cfg.iterations);
    }
  }

  /** Iteration k's filter writes `../Iter_k/Iter_k_filtered_reconstruction.vol`. */
  predicate FilteredIntoOwnDirectory(rec: IterationRecord) {
    rec.filter.output == IterName(rec.iteration, FilteredReconstruction) + ".vol"
  }

  /** Every record filters into its own directory, and the next record
      masks that file. */
  predicate OwnDirectories(records: seq<IterationRecord>) {
    && (forall k :: 0 <= k < |records| ==> FilteredIntoOwnDirectory(records[k]))
    && (forall k :: 0 <= k < |records| - 1 ==>
          records[k + 1].mask.input == IterName(records[k].iteration, FilteredReconstruction) + ".vol")
  }

  /** Every record filters into the directory of the iteration after it. */
  predicate ShiftedDirectories(records: seq<IterationRecord>) {
    forall k :: 0 <= k < |records| ==>
      records[k].filter.output == IterName(records[k].iteration + 1, FilteredReconstruction) + ".vol"
  }

  /** With a user reference, every iteration writes its filtered volume into
      its own directory, and the next iteration masks exactly that file.
      With a reference that resolves to the root, every iteration writes
      into the directory of the iteration after it. */
  lemma FilteredVolumesInOwnDirectory(cfg: Config, env: Env)
    requires cfg.continueAt >= 1
    ensures UserReference(cfg, env) != "/" ==> OwnDirectories(Run(cfg, env).records)
    ensures UserReference(cfg, env) == "/" ==> ShiftedDirectories(Run(cfg, env).records)
  {
    var records := Run(cfg, env).records;
    var reference := UserReference(cfg, env);
    if reference != "/" {
      ChainedOwnDirectories(reference, cfg.iterations, records, cfg.continueAt as nat);
    } else {
      ChainedShiftedDirectories(reference, cfg.iterations, records, cfg.continueAt as nat);
    }
  }

  /** FilteredVolumesInOwnDirectory with a user reference, for any chain of
      records that fits the layout. */
  lemma ChainedOwnDirectories(reference: string, iterations: int, records: seq<IterationRecord>, start: nat)
    requires |reference| > 1
    requires start >= 1 && Chained(MakeLayout(reference, iterations), records, start)
    requires |records| <= if iterations < start then 0 else iterations - start + 1
    ensures OwnDirectories(records)
  {
    forall k | 0 <= k < |records| ensures FilteredIntoOwnDirectory(records[k]) {
      ChainedFilterOutput(reference, iterations, records, start, k);
    }
    forall k | 0 <= k < |records| - 1
      ensures records[k + 1].mask.input == IterName(records[k].iteration, FilteredReconstruction) + ".vol"
    {
      ChainedFilterOutput(reference, iterations, records, start, k);
      ChainedHandOver(MakeLayout(reference, iterations), records, start, k);
    }
  }

  /** The shifted hand-off of a dropped reference name, for any chain of
      records that fits the layout. */
  lemma ChainedShiftedDirectories(reference: string, iterations: int, records: seq<IterationRecord>, start: nat)
    requires |reference| <= 1
    requires start >= 1 && Chained(MakeLayout(reference, iterations), records, start)
    ensures ShiftedDirectories(records)
  {
    forall k | 0 <= k < |records|
      ensures records[k].filter.output == IterName(records[k].iteration + 1, FilteredReconstruction) + ".vol"
    {
      ChainedShortFilterOutput(reference, iterations, records, start, k);
    }
  }

  /** FilteredVolumesInOwnDirectory for any chain of records that fits the layout. */
  lemma ChainedFilterOutput(referenceFile: string, iterations: int, records: seq<IterationRecord>, start: nat, k: nat)
    requires |referenceFile| > 1
    requires start >= 1 && Chained(MakeLayout(referenceFile, iterations), records, start)
    requires k < |records| <= if iterations < start then 0 else iterations - start + 1
    ensures FilteredIntoOwnDirectory(records[k])
  {
    var rec := records[k];
    assert rec.iteration == start + k && Fits(MakeLayout(referenceFile, iterations), rec);
    FilteredHandOff(referenceFile, iterations, rec.iteration);
  }

  /** The shifted hand-off for any chain of records that fits the layout of
      a dropped reference name. */
  lemma ChainedShortFilterOutput(referenceFile: string, iterations: int, records: seq<IterationRecord>, start: nat, k: nat)
    requires |referenceFile| <= 1
    requires start >= 1 && Chained(MakeLayout(referenceFile, iterations), records, start)
    requires k < |records|
    ensures records[k].filter.output == IterName(records[k].iteration + 1, FilteredReconstruction) + ".vol"
  {
    var rec := records[k];
    assert rec.iteration == start + k && Fits(MakeLayout(referenceFile, iterations), rec);
    ShortReferenceHandOff(referenceFile, iterations, rec.iteration);
  }

  /** Which docfiles iteration `it` reads and writes, by name. */
  lemma DocsOfIteration(layout: Layout, referenceFile: string, iterations: int, it: nat, inputDoc: string, outputDoc: string)
    requires layout == MakeLayout(referenceFile, iterations)
    requires 1 <= it <= iterations
    requires At(layout.docs, it) == Some(inputDoc) && At(layout.docs, it + 1) == Some(outputDoc)
    ensures outputDoc == IterName(it, DocFileWithCurrentAngles)
    ensures inputDoc == if it == 1 then "../" + DocFileWithOriginalAngles else IterName(it - 1, DocFileWithCurrentAngles)
  {
    DocHandOff(referenceFile, iterations, it);
    if it > 1 {
      DocHandOff(referenceFile, iterations, it - 1);
    }
  }

  /** Projection matching of iteration k reads the angles iteration k-1
      wrote, or the original angles at iteration 1, and writes its own. */
  predicate ReadsPreviousAngles(rec: IterationRecord)
    requires rec.iteration >= 1 && rec.matching.Some?
  {
    && rec.matching.value.outputDoc == IterName(rec.iteration, DocFileWithCurrentAngles)
    && rec.matching.value.inputDoc ==
         if rec.iteration == 1 then "../" + DocFileWithOriginalAngles
         else IterName(rec.iteration - 1, DocFileWithCurrentAngles)
  }

  /** Every matching stage of a run reads the angles of the iteration
      before it. */
  lemma AnglesHandOff(cfg: Config, env: Env)
    requires cfg.continueAt >= 1
    ensures var records := Run(cfg, env).records;
      forall k :: 0 <= k < |records| && records[k].matching.Some? ==> ReadsPreviousAngles(records[k])
  {
    var records := Run(cfg, env).records;
    forall k | 0 <= k < |records| && records[k].matching.Some? ensures ReadsPreviousAngles(records[k]) {
      ChainedAngles(UserReference(cfg, env), cfg.iterations, records, cfg.continueAt as nat, k);
    }
  }

  /** AnglesHandOff for any chain of records that fits the layout. */
  lemma ChainedAngles(referenceFile: string, iterations: int, records: seq<IterationRecord>, start: nat, k: nat)
    requires start >= 1 && Chained(MakeLayout(referenceFile, iterations), records, start)
    requires k < |records| <= if iterations < start then 0 else iterations - start + 1
    requires records[k].matching.Some?
    ensures ReadsPreviousAngles(records[k])
  {
    var rec := records[k];
    assert rec.iteration == start + k && Fits(MakeLayout(referenceFile, iterations), rec);
    DocsOfIteration(MakeLayout(referenceFile, iterations), referenceFile, iterations, rec.iteration,
                    rec.matching.value.inputDoc, rec.matching.value.outputDoc);
  }

  /** A reference that resolves to the root ("/", "/..", or the empty
      name in the root directory) is dropped from the name list, which is
      then one short, so a run that reaches the last iteration always ends
      in an IndexError. */
  lemma ShortReferenceNeverCompletes(cfg: Config, env: Env)
    requires 1 <= cfg.continueAt <= cfg.iterations && !cfg.deleteWorkingDir
    requires UserReference(cfg, env) == "/"
    ensures Run(cfg, env).error.Some?
  {
    ShortReferenceShift(UserReference(cfg, env), cfg.iterations);
  }
}
