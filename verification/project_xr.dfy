/**
 * The X-ray projection program (project_XR.cpp): its command-line flags,
 * the line-driven reader of the projection parameter file, the integer
 * window that off-centred projection crops the rotated volume to, and the
 * bookkeeping of the projection loop.
 */
module ProjectXR {
  import opened Wrappers
  import opened Text
  import Seq

  // ---------------------------------------------------------------------
  // The parameter file
  // ---------------------------------------------------------------------

  /** fgets(line, 200, ...) stores at most 199 characters per read, so a
      longer line is seen as several. */
  const LineBuffer: nat := 199

  datatype XRError =
    | NoParameterFile               // error 3005: empty file name
    | CannotOpen(name: string)      // error 3005: the file does not open
    | BadField(state: nat)          // error 3007: a required field is missing or unreadable
    | Incomplete(name: string)      // error 3007: end of file before all nine groups
    | NoFirstWord(state: nat)       // a noise line holds no word; firstWord reports its own error

  /** The error number the library reports. A noise line with no word fails
      inside firstWord, which is called there without an error number, so
      the number is firstWord's default, which is not part of this model. */
  function Code(e: XRError): (c: Option<int>)
    ensures c == Some(3005) <==> e.NoParameterFile? || e.CannotOpen?
    ensures c == Some(3007) <==> e.BadField? || e.Incomplete?
    ensures c.None? <==> e.NoFirstWord?
  {
    match e
    case NoParameterFile => Some(3005)
    case CannotOpen(_) => Some(3005)
    case BadField(_) => Some(3007)
    case Incomplete(_) => Some(3007)
    case NoFirstWord(_) => None
  }

  datatype Params = Params(
    phantom: string,
    projectionSeed: string,
    starting: int,
    extension: Option<string>,      // the optional third token of the seed line
    projXdim: int,
    projYdim: int,
    axisRot: real,
    axisTilt: real,
    raxis: (real, real, real),
    tilt0: real,
    tiltF: real,
    tiltStep: real,
    angleDev: real,
    angleAvg: real,
    pixelDev: real,
    pixelAvg: real,
    centerDev: real,
    centerAvg: real)

  /** The reader between two lines: how many groups it has read (0 .. 9)
      and the values so far. */
  datatype Reader = Reader(state: nat, params: Params)

  /** Lines the reader passes over: starting with NUL, '#' or a newline. */
  predicate Skipped(line: string) {
    line == [] || line[0] == '\0' || line[0] == '#' || line[0] == '\n'
  }

  function Token(ws: seq<string>, k: nat): Option<string> {
    if k < |ws| then Some(ws[k]) else None
  }

  /** textToInteger of a token that may be missing. */
  function IntField(t: Option<string>, state: nat): Result<int, XRError> {
    if t.None? then Err(BadField(state))
    else match ParseInt(t.value)
      case Some(v) => Ok(v)
      case None => Err(BadField(state))
  }

  /** textToDouble / textToFloat of a token that may be missing. */
  function RealField(t: Option<string>, state: nat): Result<real, XRError> {
    if t.None? then Err(BadField(state))
    else match ParseDecimal(t.value)
      case Some(v) => Ok(v)
      case None => Err(BadField(state))
  }

  /** An optional average: 0 when its token is absent. */
  function OptionalReal(t: Option<string>, state: nat): (r: Result<real, XRError>)
    ensures t.None? ==> r == Ok(0.0)
  {
    if t.None? then Ok(0.0) else RealField(t, state)
  }

  /** The reader's response to one line. */
  function Step(rd: Reader, line: string): (r: Result<Reader, XRError>)
    requires rd.state <= 9
    ensures Skipped(line) || rd.state == 9 ==> r == Ok(rd)
    ensures r.Ok? && !Skipped(line) && rd.state < 9 ==> r.value.state == rd.state + 1
    ensures r.Err? ==> r.error.BadField? || r.error.NoFirstWord?
    ensures r.Err? ==> !Skipped(line) && rd.state < 9 && r.error.state == rd.state
    ensures !Skipped(line) && 6 <= rd.state <= 8 && Words(line) == [] ==> r == Err(NoFirstWord(rd.state))
    ensures r.Err? && r.error.NoFirstWord? ==> 6 <= rd.state <= 8 && Words(line) == []
  {
    if Skipped(line) then Ok(rd)
    else
      var ws := Words(line);
      var p := rd.params;
      match rd.state
      case 0 =>
        if ws == [] then Err(BadField(0)) else Ok(Reader(1, p.(phantom := ws[0])))
      case 1 =>
        if ws == [] then Err(BadField(1))
        else
          var starting :- if |ws| > 1 then IntField(Token(ws, 1), 1) else Ok(p.starting);
          Ok(Reader(2, p.(projectionSeed := ws[0], starting := starting, extension := Token(ws, 2))))
      case 2 =>
        var x :- IntField(Token(ws, 0), 2);
        var y :- IntField(Token(ws, 1), 2);
        Ok(Reader(3, p.(projXdim := x, projYdim := y)))
      case 3 =>
        var rot :- RealField(Token(ws, 0), 3);
        var tilt :- RealField(Token(ws, 1), 3);
        Ok(Reader(4, p.(axisRot := rot, axisTilt := tilt)))
      case 4 =>
        var ax :- RealField(Token(ws, 0), 4);
        var ay :- RealField(Token(ws, 1), 4);
        var az :- RealField(Token(ws, 2), 4);
        Ok(Reader(5, p.(raxis := (ax, ay, az))))
      case 5 =>
        var t0 :- RealField(Token(ws, 0), 5);
        var tF :- RealField(Token(ws, 1), 5);
        var step :- RealField(Token(ws, 2), 5);
        Ok(Reader(6, p.(tilt0 := t0, tiltF := tF, tiltStep := step)))
      case 6 =>
        if ws == [] then Err(NoFirstWord(6))
        else
          var dev :- RealField(Token(ws, 0), 6);
          var avg :- OptionalReal(Token(ws, 1), 6);
          Ok(Reader(7, p.(angleDev := dev, angleAvg := avg)))
      case 7 =>
        if ws == [] then Err(NoFirstWord(7))
        else
          var dev :- RealField(Token(ws, 0), 7);
          var avg :- OptionalReal(Token(ws, 1), 7);
          Ok(Reader(8, p.(pixelDev := dev, pixelAvg := avg)))
      case 8 =>
        if ws == [] then Err(NoFirstWord(8))
        else
          var dev :- RealField(Token(ws, 0), 8);
          var avg :- OptionalReal(Token(ws, 1), 8);
          Ok(Reader(9, p.(centerDev := dev, centerAvg := avg)))
      case _ => Ok(rd)
  }

  /** The reader over a sequence of lines; the first error ends it. */
  function Feed(rd: Reader, lines: seq<string>): (r: Result<Reader, XRError>)
    requires rd.state <= 9
    ensures r.Ok? ==> rd.state <= r.value.state <= 9
    ensures r.Err? ==> r.error.BadField? || r.error.NoFirstWord?
    decreases |lines|
  {
    if lines == [] then Ok(rd)
    else
      var next :- Step(rd, lines[0]);
      Feed(next, lines[1..])
  }

  /** Projection_XR_Parameters::read. `content` is the file's text, or None
      when it does not open; `defaults` are the values the object held before. */
  function ReadParams(fileName: string, content: Option<string>, defaults: Params): (r: Result<Params, XRError>)
    ensures fileName == "" ==> r == Err(NoParameterFile)
    ensures fileName != "" && content.None? ==> r == Err(CannotOpen(fileName))
    ensures r.Ok? ==> content.Some? && Feed(Reader(0, defaults), LineChunks(content.value, LineBuffer)) == Ok(Reader(9, r.value))
    ensures fileName != "" && content.Some? ==>
      var f := Feed(Reader(0, defaults), LineChunks(content.value, LineBuffer));
      (f.Err? ==> r == Err(f.error)) && (f.Ok? && f.value.state != 9 ==> r == Err(Incomplete(fileName)))
  {
    if fileName == "" then Err(NoParameterFile)
    else if content.None? then Err(CannotOpen(fileName))
    else
      var rd :- Feed(Reader(0, defaults), LineChunks(content.value, LineBuffer));
      if rd.state != 9 then Err(Incomplete(fileName)) else Ok(rd.params)
  }

  /** The number of lines the reader does not skip. */
  function Accepted(lines: seq<string>): (n: nat)
    ensures n <= |lines|
  {
    if lines == [] then 0 else (if Skipped(lines[0]) then 0 else 1) + Accepted(lines[1..])
  }

  /** The state counts accepted lines, up to nine: every accepted line moves
      the reader one state on until the last group is read, and nothing
      moves it after that. */
  lemma {:induction false} StateCountsAcceptedLines(rd: Reader, lines: seq<string>)
    requires rd.state <= 9
    requires Feed(rd, lines).Ok?
    ensures Feed(rd, lines).value.state == if rd.state + Accepted(lines) >= 9 then 9 else rd.state + Accepted(lines)
    decreases |lines|
  {
    if lines != [] {
      var next := Step(rd, lines[0]).value;
      StateCountsAcceptedLines(next, lines[1..]);
    }
  }

  /** A file with fewer than nine lines that are not comments or blank can
      never be read completely. */
  lemma TooFewLinesIncomplete(fileName: string, content: string, defaults: Params)
    requires fileName != ""
    requires Accepted(LineChunks(content, LineBuffer)) < 9
    ensures ReadParams(fileName, Some(content), defaults).Err?
    ensures var e := ReadParams(fileName, Some(content), defaults).error;
      Code(e) == Some(3007) || e.NoFirstWord?
  {
    var f := Feed(Reader(0, defaults), LineChunks(content, LineBuffer));
    if f.Ok? {
      StateCountsAcceptedLines(Reader(0, defaults), LineChunks(content, LineBuffer));
    }
  }

  /** A skipped line may be inserted anywhere without changing the outcome. */
  lemma {:induction false} SkippedLineAnywhere(rd: Reader, a: seq<string>, c: string, b: seq<string>)
    requires rd.state <= 9
    requires Skipped(c)
    ensures Feed(rd, a + [c] + b) == Feed(rd, a + b)
    decreases |a|
  {
    if a == [] {
      assert a + [c] + b == [c] + b;
      assert ([c] + b)[1..] == b;
      assert a + b == b;
    } else {
      assert (a + [c] + b)[0] == a[0] && (a + [c] + b)[1..] == a[1..] + [c] + b;
      assert (a + b)[0] == a[0] && (a + b)[1..] == a[1..] + b;
      var s := Step(rd, a[0]);
      if s.Ok? {
        SkippedLineAnywhere(s.value, a[1..], c, b);
      }
    }
  }

  /** The optional tokens: the first projection number changes only when
      given, and a missing average reads as 0. */
  lemma OptionalFields(rd: Reader, line: string)
    requires rd.state <= 9 && !Skipped(line) && |Words(line)| == 1
    requires Step(rd, line).Ok?
    ensures rd.state == 1 ==> Step(rd, line).value.params.starting == rd.params.starting
    ensures rd.state == 1 ==> Step(rd, line).value.params.extension == None
    ensures rd.state == 6 ==> Step(rd, line).value.params.angleAvg == 0.0
    ensures rd.state == 7 ==> Step(rd, line).value.params.pixelAvg == 0.0
    ensures rd.state == 8 ==> Step(rd, line).value.params.centerAvg == 0.0
  {
  }

  // ---------------------------------------------------------------------
  // Command-line flags (Prog_Project_XR_Parameters::read)
  // ---------------------------------------------------------------------

  datatype ArgError = MissingArgument(flag: string)

  datatype Tell = ShowAngles

  datatype ProgParams = ProgParams(
    verbose: bool,
    projParam: string,
    selFile: string,
    psfFile: string,
    onlyCreateAngles: bool,
    tell: set<Tell>)

  /** The position of the first occurrence of a word. */
  function FirstIndex(argv: seq<string>, flag: string): (i: nat)
    ensures i <= |argv|
    ensures i < |argv| ==> argv[i] == flag
    ensures forall j :: 0 <= j < i ==> argv[j] != flag
  {
    if argv == [] then 0
    else if argv[0] == flag then 0
    else 1 + FirstIndex(argv[1..], flag)
  }

  /** The word after the first occurrence of a flag, when there is one. */
  function ValueOf(argv: seq<string>, flag: string): (v: Option<string>)
    ensures v.Some? ==> flag in argv
    ensures flag !in argv ==> v.None?
  {
    var i := FirstIndex(argv, flag);
    if i + 1 < |argv| then Some(argv[i + 1]) else None
  }

  /** getParameter: the flag's value, else the default, else an error. */
  function GetParameter(argv: seq<string>, flag: string, default: Option<string>): (r: Result<string, ArgError>)
    ensures ValueOf(argv, flag).Some? ==> r == Ok(ValueOf(argv, flag).value)
    ensures ValueOf(argv, flag).None? ==> r == if default.Some? then Ok(default.value) else Err(MissingArgument(flag))
  {
    match ValueOf(argv, flag)
    case Some(v) => Ok(v)
    case None => if default.Some? then Ok(default.value) else Err(MissingArgument(flag))
  }

  function ReadArgs(argv: seq<string>): (r: Result<ProgParams, ArgError>)
    ensures r.Ok? <==> "-v" in argv || ValueOf(argv, "-i").Some?
    ensures r.Ok? ==> r.value.verbose == ("-v" in argv) && r.value.onlyCreateAngles == ("-only_create_angles" in argv)
    ensures r.Ok? ==> r.value.projParam == ValueOf(argv, "-i").GetOr("")
    ensures r.Ok? ==> r.value.selFile == ValueOf(argv, "-o").GetOr("") && r.value.psfFile == ValueOf(argv, "-psf").GetOr("")
    ensures r.Ok? ==> r.value.tell == if "-show_angles" in argv then {ShowAngles} else {}
  {
    var verbose := "-v" in argv;
    var projParam :- GetParameter(argv, "-i", if verbose then Some("") else None);
    var selFile := GetParameter(argv, "-o", Some("")).value;
    var psfFile := GetParameter(argv, "-psf", Some("")).value;
    Ok(ProgParams(verbose, projParam, selFile, psfFile, "-only_create_angles" in argv,
                  if "-show_angles" in argv then {ShowAngles} else {}))
  }

  /** A word present exactly when the switch is on. */
  function Switch(on: bool, flag: string): seq<string> {
    if on then [flag] else []
  }

  /** A command line that asks for the given parameters. */
  function RenderArgs(p: ProgParams): seq<string> {
    Switch(p.verbose, "-v") + (["-i", p.projParam] + (["-o", p.selFile] + (["-psf", p.psfFile]
      + (Switch(p.onlyCreateAngles, "-only_create_angles") + Switch(ShowAngles in p.tell, "-show_angles")))))
  }

  /** A flag's value is the word after its first occurrence. */
  lemma {:induction false} ValueAfterFirst(a: seq<string>, flag: string, v: string, b: seq<string>)
    requires flag !in a
    ensures ValueOf(a + ([flag, v] + b), flag) == Some(v)
    ensures FirstIndex(a + ([flag, v] + b), flag) == |a|
    decreases |a|
  {
    var all := a + ([flag, v] + b);
    if a != [] {
      assert all[0] == a[0] && all[1..] == a[1..] + ([flag, v] + b);
      ValueAfterFirst(a[1..], flag, v, b);
    }
  }

  /** A file name that is not one of the flags. */
  predicate NotAFlag(w: string) {
    w != "-v" && w != "-i" && w != "-o" && w != "-psf" && w != "-only_create_angles" && w != "-show_angles"
  }

  /** The projection parameter file of a rendered command line reads back. */
  lemma RenderedInput(p: ProgParams)
    ensures ValueOf(RenderArgs(p), "-i") == Some(p.projParam)
  {
    var tail := Switch(p.onlyCreateAngles, "-only_create_angles") + Switch(ShowAngles in p.tell, "-show_angles");
    ValueAfterFirst(Switch(p.verbose, "-v"), "-i", p.projParam, ["-o", p.selFile] + (["-psf", p.psfFile] + tail));
  }

  /** The selfile name of a rendered command line reads back. */
  lemma RenderedOutput(p: ProgParams)
    requires NotAFlag(p.projParam)
    ensures ValueOf(RenderArgs(p), "-o") == Some(p.selFile)
  {
    var tail := Switch(p.onlyCreateAngles, "-only_create_angles") + Switch(ShowAngles in p.tell, "-show_angles");
    var a := Switch(p.verbose, "-v") + ["-i", p.projParam];
    var c := ["-psf", p.psfFile] + tail;
    Seq.AppendAssociates(Switch(p.verbose, "-v"), ["-i", p.projParam], ["-o", p.selFile] + c);
    ValueAfterFirst(a, "-o", p.selFile, c);
  }

  /** The PSF file name of a rendered command line reads back. */
  lemma RenderedPsf(p: ProgParams)
    requires NotAFlag(p.projParam) && NotAFlag(p.selFile)
    ensures ValueOf(RenderArgs(p), "-psf") == Some(p.psfFile)
  {
    var tail := Switch(p.onlyCreateAngles, "-only_create_angles") + Switch(ShowAngles in p.tell, "-show_angles");
    var v := Switch(p.verbose, "-v");
    var a := v + ["-i", p.projParam, "-o", p.selFile];
    assert RenderArgs(p) == a + (["-psf", p.psfFile] + tail);
    ValueAfterFirst(a, "-psf", p.psfFile, tail);
  }

  /** The three switches of a rendered command line read back. */
  lemma RenderedSwitches(p: ProgParams)
    requires NotAFlag(p.projParam) && NotAFlag(p.selFile) && NotAFlag(p.psfFile)
    ensures ("-v" in RenderArgs(p)) == p.verbose
    ensures ("-only_create_angles" in RenderArgs(p)) == p.onlyCreateAngles
    ensures ("-show_angles" in RenderArgs(p)) == (ShowAngles in p.tell)
  {
  }

  /** Reading back a rendered command line gives the parameters it was
      rendered from, as long as no file name is itself one of the flags. */
  lemma ReadArgsRoundTrip(p: ProgParams)
    requires NotAFlag(p.projParam) && NotAFlag(p.selFile) && NotAFlag(p.psfFile)
    ensures ReadArgs(RenderArgs(p)) == Ok(p)
  {
    RenderedInput(p);
    RenderedOutput(p);
    RenderedPsf(p);
    RenderedSwitches(p);
    OnlyShowAngles(p.tell);
  }

  /** ShowAngles is the only thing to tell. */
  lemma OnlyShowAngles(tell: set<Tell>)
    ensures tell == if ShowAngles in tell then {ShowAngles} else {}
  {
    forall t | t in tell
      ensures t == ShowAngles
    {
      match t { case ShowAngles => }
    }
  }

  // ---------------------------------------------------------------------
  // The window of project_xr_Volume_offCentered
  // ---------------------------------------------------------------------

  function Abs(x: int): (r: nat)
    ensures r == x || r == -x
  {
    if x < 0 then -x else x
  }

  /** Logical index bounds of a volume, first to last, in each direction. */
  datatype Box = Box(zinit: int, zend: int, yinit: int, yend: int, xinit: int, xend: int)

  /** The rotated volume, whose first indices are (z0, y0, x0) and whose
      size is iniZdim x iniYdim x iniXdim, is widened by twice the axis
      offset (in pixels) in y and x, towards the side that recentres it. */
  function OffCenteredWindow(iniXdim: int, iniYdim: int, iniZdim: int, xOffset: int, yOffset: int,
                             x0: int, y0: int, z0: int): (w: Box)
    ensures w.zinit == z0 && w.zend - w.zinit + 1 == iniZdim
    ensures w.yend - w.yinit + 1 == iniYdim + 2 * Abs(yOffset)
    ensures w.xend - w.xinit + 1 == iniXdim + 2 * Abs(xOffset)
    ensures w.yinit == if yOffset > 0 then y0 - 2 * yOffset else y0
    ensures w.xinit == if xOffset > 0 then x0 - 2 * xOffset else x0
  {
    var zinit := z0;
    var zend := zinit + iniZdim - 1;
    var yinit := if yOffset <= 0 then y0 else y0 - 2 * yOffset;
    var yend := if yOffset <= 0 then yinit + iniYdim + 2 * Abs(yOffset) - 1 else yinit + iniYdim + 2 * yOffset - 1;
    var xinit := if xOffset <= 0 then x0 else x0 - 2 * xOffset;
    var xend := xinit + iniXdim + 2 * Abs(xOffset) - 1;
    Box(zinit, zend, yinit, yend, xinit, xend)
  }

  /** The window holds the whole volume and its centre is the volume's
      centre moved back by the offset, in both directions, whatever the
      offsets' signs. */
  lemma WindowRecentres(iniXdim: int, iniYdim: int, iniZdim: int, xOffset: int, yOffset: int, x0: int, y0: int, z0: int)
    ensures var w := OffCenteredWindow(iniXdim, iniYdim, iniZdim, xOffset, yOffset, x0, y0, z0);
      && w.yinit <= y0 && y0 + iniYdim - 1 <= w.yend
      && w.xinit <= x0 && x0 + iniXdim - 1 <= w.xend
      && w.yinit + w.yend == y0 + (y0 + iniYdim - 1) - 2 * yOffset
      && w.xinit + w.xend == x0 + (x0 + iniXdim - 1) - 2 * xOffset
  {
  }

  // ---------------------------------------------------------------------
  // The projection loop and its selfile
  // ---------------------------------------------------------------------

  /** One selfile row: an image and its enabled flag. */
  datatype SelRow = SelRow(image: string, enabled: int)

  /** The loop over tilt angles ends: the step is positive, or the first
      angle is already past the last. */
  predicate TiltLoopEnds(prm: Params) {
    prm.tiltStep > 0.0 || prm.tilt0 > prm.tiltF
  }

  /** The k-th angle the loop tests: tilt0 after k steps of tiltStep. */
  function Angle(prm: Params, k: nat): real {
    prm.tilt0 + k as real * prm.tiltStep
  }

  /** TiltLoopEnds is exactly the condition under which some angle the loop
      tests passes tiltF; otherwise every test `angle <= tiltF` holds and
      the loop runs forever. */
  lemma TiltLoopEndsExactly(prm: Params)
    ensures TiltLoopEnds(prm) <==> exists k: nat :: Angle(prm, k) > prm.tiltF
  {
    if TiltLoopEnds(prm) {
      if prm.tilt0 > prm.tiltF {
        assert Angle(prm, 0) > prm.tiltF;
      } else {
        var x := (prm.tiltF - prm.tilt0) / prm.tiltStep;
        assert x * prm.tiltStep == prm.tiltF - prm.tilt0;
        NonNegativeFactor(x, prm.tiltStep);
        var f := x.Floor;
        assert x < f as real + 1.0;
        var g := f as real + 1.0 - x;
        ExceedsBy(g, prm.tiltStep);
        assert (f + 1) as real * prm.tiltStep == x * prm.tiltStep + g * prm.tiltStep;
        assert Angle(prm, f + 1) > prm.tiltF;
      }
    } else {
      forall k: nat ensures Angle(prm, k) <= prm.tiltF {
        NonPositiveStep(k as real, prm.tiltStep);
      }
    }
  }

  lemma ExceedsBy(g: real, step: real)
    requires g > 0.0 && step > 0.0
    ensures g * step > 0.0
  {
  }

  lemma NonPositiveStep(k: real, step: real)
    requires k >= 0.0 && step <= 0.0
    ensures k * step <= 0.0
  {
  }

  /** How many angles the loop visits, by the formula the source uses for
      its progress bar (expectedNumProjs, FLOOR((tiltF - tilt0) / tiltStep)),
      plus the first angle. */
  function ProjectionCount(prm: Params): nat
    requires TiltLoopEnds(prm)
  {
    if prm.tilt0 > prm.tiltF then 0 else ((prm.tiltF - prm.tilt0) / prm.tiltStep).Floor + 1
  }

  /** The angles visited form the progression tilt0, tilt0 + step, ... */
  lemma {:induction false} ProgressionTerms(tilts: seq<real>, t0: real, step: real, k: nat)
    requires tilts != [] && tilts[0] == t0
    requires forall j :: 0 <= j < |tilts| - 1 ==> tilts[j + 1] == tilts[j] + step
    requires k < |tilts|
    ensures tilts[k] == t0 + k as real * step
    decreases k
  {
    if k > 0 {
      ProgressionTerms(tilts, t0, step, k - 1);
    }
  }

  /** A progression from t0 by a positive step that stays at or below tF
      and whose next term passes it has FLOOR((tF - t0) / step) + 1 terms. */
  lemma ProgressionCount(tilts: seq<real>, t0: real, tF: real, step: real)
    requires step > 0.0 && t0 <= tF
    requires tilts != [] && tilts[0] == t0
    requires forall j :: 0 <= j < |tilts| - 1 ==> tilts[j + 1] == tilts[j] + step
    requires tilts[|tilts| - 1] <= tF < tilts[|tilts| - 1] + step
    ensures |tilts| == ((tF - t0) / step).Floor + 1
  {
    var n := |tilts|;
    ProgressionTerms(tilts, t0, step, n - 1);
    var last := tilts[n - 1];
    assert (n - 1) as real * step == last - t0;
    FloorBetween(tF - t0, step, n - 1);
  }

  /** A number between m and m+1 times a positive step, divided by the
      step, has floor m. */
  lemma FloorBetween(d: real, step: real, m: int)
    requires step > 0.0
    requires m as real * step <= d < m as real * step + step
    ensures (d / step).Floor == m
  {
    var x := d / step;
    var lo := x - m as real;
    var hi := m as real + 1.0 - x;
    assert x * step == d;
    assert lo * step == d - m as real * step;
    NonNegativeFactor(lo, step);
    assert hi * step == m as real * step + step - d;
    PositiveFactor(hi, step);
    FloorOf(x, m);
  }

  lemma FloorOf(x: real, m: int)
    requires m as real <= x < m as real + 1.0
    ensures x.Floor == m
  {
    var f := x.Floor;
    assert f as real <= x < f as real + 1.0;
  }

  lemma NonNegativeFactor(g: real, step: real)
    requires step > 0.0 && g * step >= 0.0
    ensures g >= 0.0
  {
  }

  lemma PositiveFactor(g: real, step: real)
    requires step > 0.0 && g * step > 0.0
    ensures g > 0.0
  {
  }

  lemma ZeroFactor(g: real, step: real)
    requires step > 0.0 && g * step == 0.0
    ensures g == 0.0
  {
  }

  /** One more step taken off leaves one step fewer to go. */
  lemma FloorStepsDown(d: real, step: real)
    requires step > 0.0
    ensures ((d - step) / step).Floor == (d / step).Floor - 1
  {
    var y := d / step;
    var z := (d - step) / step;
    assert y * step == d && z * step == d - step;
    assert (z - (y - 1.0)) * step == 0.0;
    ZeroFactor(z - (y - 1.0), step);
    var f := y.Floor;
    assert f as real <= y < f as real + 1.0;
    assert (f - 1) as real <= z < (f - 1) as real + 1.0;
  }

  /** The angle the loop tries after a run of visited angles. */
  function NextAngle(prm: Params, tilts: seq<real>): real {
    if tilts == [] then prm.tilt0 else tilts[|tilts| - 1] + prm.tiltStep
  }

  /** Angles visited so far: tilt0, then one step further each time, none
      past tiltF. */
  predicate VisitedSoFar(prm: Params, tilts: seq<real>) {
    && (tilts != [] ==> tilts[0] == prm.tilt0)
    && (forall k :: 0 <= k < |tilts| - 1 ==> tilts[k + 1] == tilts[k] + prm.tiltStep)
    && (forall k :: 0 <= k < |tilts| ==> tilts[k] <= prm.tiltF)
  }

  /** Visiting the next angle, when it is not past tiltF, keeps the
      visited angles a progression. */
  lemma VisitNext(prm: Params, tilts: seq<real>)
    requires VisitedSoFar(prm, tilts) && NextAngle(prm, tilts) <= prm.tiltF
    ensures VisitedSoFar(prm, tilts + [NextAngle(prm, tilts)])
    ensures NextAngle(prm, tilts + [NextAngle(prm, tilts)]) == NextAngle(prm, tilts) + prm.tiltStep
  {
    var t := tilts + [NextAngle(prm, tilts)];
    assert forall k :: 0 <= k < |tilts| ==> t[k] == tilts[k];
  }

  /** How many more angles the loop visits from `angle` on, for a positive
      step. */
  function StepsLeft(prm: Params, angle: real): int
    requires prm.tiltStep > 0.0
  {
    ((prm.tiltF - angle) / prm.tiltStep).Floor + 1
  }

  /** An angle not past tiltF leaves at least that angle to visit. */
  lemma StepsLeftPositive(prm: Params, angle: real)
    requires prm.tiltStep > 0.0 && angle <= prm.tiltF
    ensures StepsLeft(prm, angle) >= 1
  {
    var x := (prm.tiltF - angle) / prm.tiltStep;
    assert x * prm.tiltStep == prm.tiltF - angle;
    NonNegativeFactor(x, prm.tiltStep);
    var f := x.Floor;
    assert f as real <= x < f as real + 1.0;
  }

  /** The tilt angles of `for (angle = tilt0; angle <= tiltF; angle += tiltStep)`. */
  method TiltAngles(prm: Params) returns (tilts: seq<real>)
    requires TiltLoopEnds(prm)
    ensures VisitedSoFar(prm, tilts) && NextAngle(prm, tilts) > prm.tiltF
    ensures |tilts| == ProjectionCount(prm)
  {
    tilts := [];
    var angle := prm.tilt0;
    while angle <= prm.tiltF
      invariant VisitedSoFar(prm, tilts) && angle == NextAngle(prm, tilts)
      invariant prm.tiltStep <= 0.0 ==> tilts == []
      decreases if prm.tiltStep > 0.0 then StepsLeft(prm, angle) else 0
    {
      if prm.tiltStep > 0.0 {
        FloorStepsDown(prm.tiltF - angle, prm.tiltStep);
        assert StepsLeft(prm, angle + prm.tiltStep) == StepsLeft(prm, angle) - 1;
        StepsLeftPositive(prm, angle);
      }
      VisitNext(prm, tilts);
      tilts := tilts + [angle];
      angle := angle + prm.tiltStep;
    }
    if tilts != [] {
      ProgressionCount(tilts, prm.tilt0, prm.tiltF, prm.tiltStep);
    }
  }

  /** PROJECT_XR_Effectively_project's bookkeeping: one projection per tilt
      angle from tilt0 while the angle does not pass tiltF, numbered
      consecutively from the first projection number, each listed as
      enabled. `compose(seed, n, ext)` is the file name FileName::compose
      builds. */
  method EffectivelyProject(prm: Params, compose: (string, int, Option<string>) -> string)
    returns (numProjs: int, tilts: seq<real>, rows: seq<SelRow>)
    requires TiltLoopEnds(prm)
    ensures numProjs == |rows| == |tilts| == ProjectionCount(prm)
    ensures VisitedSoFar(prm, tilts) && NextAngle(prm, tilts) > prm.tiltF
    ensures forall k :: 0 <= k < |rows| ==>
      rows[k] == SelRow(compose(prm.projectionSeed, prm.starting + k, prm.extension), 1)
  {
    tilts := TiltAngles(prm);
    numProjs := 0;
    rows := [];
    var idx := prm.starting;
    while numProjs < |tilts|
      invariant 0 <= numProjs <= |tilts|
      invariant numProjs == |rows| && idx == prm.starting + numProjs
      invariant forall k :: 0 <= k < |rows| ==>
        rows[k] == SelRow(compose(prm.projectionSeed, prm.starting + k, prm.extension), 1)
    {
      var name := compose(prm.projectionSeed, idx, prm.extension);
      rows := rows + [SelRow(name, 1)];
      numProjs := numProjs + 1;
      idx := idx + 1;
    }
  }

  /** What ROUT_XR_project returns and writes. */
  datatype Projected = Projected(count: int, selfile: Option<seq<SelRow>>)

  /** ROUT_XR_project: read the parameter file, then project unless only the
      angles are wanted; the selfile is written only when it has a name. */
  method RoutProject(prog: ProgParams, content: Option<string>, defaults: Params,
                     compose: (string, int, Option<string>) -> string)
    returns (r: Result<Projected, XRError>)
    requires ReadParams(prog.projParam, content, defaults).Ok? && !prog.onlyCreateAngles ==>
      TiltLoopEnds(ReadParams(prog.projParam, content, defaults).value)
    ensures r.Ok? <==> ReadParams(prog.projParam, content, defaults).Ok?
    ensures r.Err? ==> r == Err(ReadParams(prog.projParam, content, defaults).error)
    ensures r.Ok? && prog.onlyCreateAngles ==> r.value == Projected(0, None)
    ensures r.Ok? && !prog.onlyCreateAngles ==>
      var prm := ReadParams(prog.projParam, content, defaults).value;
      && r.value.count == ProjectionCount(prm)
      && (r.value.selfile.Some? <==> prog.selFile != "")
      && (r.value.selfile.Some? ==> |r.value.selfile.value| == r.value.count)
      && (r.value.selfile.Some? ==> forall k :: 0 <= k < r.value.count ==>
            r.value.selfile.value[k] == SelRow(compose(prm.projectionSeed, prm.starting + k, prm.extension), 1))
  {
    var prm := ReadParams(prog.projParam, content, defaults);
    if prm.Err? {
      return Err(prm.error);
    }
    if prog.onlyCreateAngles {
      return Ok(Projected(0, None));
    }
    var count, tilts, rows := EffectivelyProject(prm.value, compose);
    r := Ok(Projected(count, if prog.selFile != "" then Some(rows) else None));
  }
}
