# Xmipp protocol core in Dafny

This project models the decision logic of four parts of the Xmipp
electron-microscopy suite and proves properties about it:

- **Projection-matching refinement** (`protocol_projmatch.py`). The iteration
  controller runs iterations `ContinueAtIteration..NumberofIterations`. Each
  iteration has these stages:
  - the reference volume is masked;
  - the images are matched against projections, CTF group by CTF group;
  - the images are averaged per class;
  - the volume is reconstructed by WBP, ART or Fourier;
  - the FSC resolution is estimated from two half reconstructions;
  - the volume is low-pass filtered, and the cutoff becomes the next
    iteration's frequency limit.

  Per-iteration settings use the "NxV" run-length notation. File names are
  handed from one iteration to the next through `fill_name_vector`. A whole
  run is modelled as data: one `IterationRecord` per iteration with the
  decisions it took, or the error that stopped it (`Controller.Run`).
- **X-ray projection program** (`project_XR.cpp`). This covers:
  - the line-driven parameter-file reader, a state machine with states 0 to 9;
  - the command-line flags;
  - the integer window arithmetic of the off-centred volume;
  - the count of projections and selfile rows.
- **Particle-picking protocol** (`protocol_particle_pick.py`). This covers:
  - selfile validation;
  - the active-row filter with its `.spi` to `.raw` renaming;
  - counting picked particles;
  - the automatic-picking selection and its inversion;
  - the round-robin distribution over MPI ranks;
  - the pair-list guard;
  - the arguments passed to the marking program.
- **Particle picker canvas** (`ParticlePickerCanvas.java`). This covers the
  clamping of the visible rectangle in `moveTo` and the keyboard handler
  that nudges the active particle or toggles the shape check boxes.

Files, one module each:

- `wrappers.dfy`: `Option` and `Result`.
- `text.dfy`: Python-style `split()`, joining and splitting on a character,
  `fgets`/`readlines` line chunks, `replace`, `grep` matching, and decimal
  printing and parsing.
- `param_sequence.dfy`: the per-iteration parameter sequences.
- `paths.dfy`: Python 2's `os.path.abspath` and `os.path.normpath`, which
  the protocol applies to the reference and mask names.
- `run_layout.dfy`: the name vectors.
- `stages.dfy`: the decisions of each stage.
- `resolution.dfy`: the FSC scan and the filtration.
- `controller.dfy`: the iteration loop.
- `project_xr.dfy`: the X-ray projection program.
- `particle_pick.dfy`: the particle-picking protocol.
- `picker_canvas.dfy`: the picker canvas.

Effects are made into parameters or data:

- Launching programs, copying files and logging become records of what would
  be launched.
- Files the code reads become inputs: the FSC curve, the selfile, the `.pos`
  files and the parameter file.
- Values that external programs compute become inputs in `Controller.Env`:
  - the working directory that `os.getcwd()` reports, an absolute name;
  - the image size;
  - the number of CTF groups;
  - the group names from `composeFileName`.

## Model

| member | source | states |
|---|---|---|
| ParamSequence.Expand | trunk/xmipp/applications/scripts/protocols/protocol_projmatch.py:159-167 | A setting expands to at least one value; a setting with no token is an error |
| ParamSequence.Resolve | trunk/xmipp/applications/scripts/protocols/protocol_projmatch.py:785-804 | The value for position i is the i-th expanded value, the last one past the end, and an error when the setting does not expand |
| ParamSequence.LastValueReused | trunk/xmipp/applications/scripts/protocols/protocol_projmatch.py:166 | Every position at or past the last value reads the same value |
| ParamSequence.ExtraValuesIgnored | trunk/xmipp/applications/scripts/protocols/protocol_projmatch.py:167 | Appending more values never changes a position that was already covered |
| ParamSequence.ExpandRender | trunk/xmipp/applications/scripts/protocols/protocol_projmatch.py:211-216 | Writing runs of values in "NxV" notation and expanding the text gives back exactly the values the runs mean (round trip) |
| ParamSequence.DocumentedExample | trunk/xmipp/applications/scripts/protocols/protocol_projmatch.py:213-214 | "3x5 2x3 0" expands to 5,5,5,3,3,0 as its documentation says |
| ParamSequence.ReuseExample | trunk/xmipp/applications/scripts/protocols/protocol_projmatch.py:164-166 | "2x8 2x0" gives 0 at the fifth iteration (last value reused) |
| RunLayout.FillNameVector | trunk/xmipp/applications/scripts/protocols/protocol_projmatch.py:1646-1657 | The vector starts with "dummy", holds the user name only when it is longer than one character, then one name per iteration 1..n-1 |
| RunLayout.FillNameVectorAt | trunk/xmipp/applications/scripts/protocols/protocol_projmatch.py:1653-1657 | Entry k (shifted by one when the user name is kept) is `../Iter_k/Iter_k_<root>` |
| RunLayout.At | trunk/xmipp/applications/scripts/protocols/protocol_projmatch.py:777 | Indexing a name vector yields a name exactly when the index is in range, where Python would raise IndexError |
| RunLayout.OwnOutputs | trunk/xmipp/applications/scripts/protocols/protocol_projmatch.py:728-752 | Iteration k reconstructs into and masks into its own directory's files |
| RunLayout.FilteredHandOff | trunk/xmipp/applications/scripts/protocols/protocol_projmatch.py:734-738 | With a user reference, iteration 1 reads it and iteration k+1 reads the filtered volume of iteration k |
| RunLayout.ShortReferenceShift | trunk/xmipp/applications/scripts/protocols/protocol_projmatch.py:1651-1652 | A reference name of at most one character is dropped, so every filtered name shifts down and the last index is missing |
| RunLayout.DocHandOff | trunk/xmipp/applications/scripts/protocols/protocol_projmatch.py:741-745 | Iteration 1 reads the original angles; iteration k+1 reads the angles document written by iteration k |
| RunLayout.IterNameInjective | trunk/xmipp/applications/scripts/protocols/protocol_projmatch.py:1654-1657 | Different iterations never share a file name |
| Paths.AbsPath | trunk/xmipp/applications/scripts/protocols/protocol_projmatch.py:587-588 | The absolute name starts with '/', so it has at most one character exactly when it is the root "/" |
| Paths.Collapse | trunk/xmipp/applications/scripts/protocols/protocol_projmatch.py:587-588 | Below the root, normpath keeps only plain components: no empty, ".", ".." or slashed ones |
| Paths.NormalForm | trunk/xmipp/applications/scripts/protocols/protocol_projmatch.py:587-588 | One or two leading slashes followed by plain components is already normal |
| Paths.NormPathIdempotent | trunk/xmipp/applications/scripts/protocols/protocol_projmatch.py:587-588 | Normalising an absolute name twice is normalising it once |
| Paths.AbsPathIdempotent | trunk/xmipp/applications/scripts/protocols/protocol_projmatch.py:587-588 | Resolving an absolute name again changes nothing |
| Paths.AbsPathOfRelative | trunk/xmipp/applications/scripts/protocols/protocol_projmatch.py:587-588 | A clean relative name resolves to the working directory, a slash and the name (or "/" and the name at the root) |
| Paths.ResolvesToRoot | trunk/xmipp/applications/scripts/protocols/protocol_projmatch.py:587-588 | "/" resolves to the root from anywhere, and so do "/.." and, in the root directory, the empty name |
| Paths.OneLetterExample | trunk/xmipp/applications/scripts/protocols/protocol_projmatch.py:587-588 | The one-letter reference "x" resolves to "/home/user/x" in /home/user, longer than one character |
| Stages.MaskInput | trunk/xmipp/applications/scripts/protocols/protocol_projmatch.py:1021-1024 | The mask reads the reference name itself exactly at iteration 1, and the name plus ".vol" otherwise |
| Stages.Mask | trunk/xmipp/applications/scripts/protocols/protocol_projmatch.py:1025-1046 | The mask is applied when masking is on and the input is copied to the output otherwise |
| Stages.AngularDistance | trunk/xmipp/applications/scripts/protocols/protocol_projmatch.py:1122-1127 | The configured distance is kept below 181 and replaced by -1 otherwise; non-numeric text is an error |
| Stages.AngularDistanceBounded | trunk/xmipp/applications/scripts/protocols/protocol_projmatch.py:1122-1127 | Whatever the projection matching receives is a number below 181 |
| Stages.CtfGroupOrder | trunk/xmipp/applications/scripts/protocols/protocol_projmatch.py:1158-1159 | The group loop visits N, N-1, ..., 1 |
| Stages.CtfGroupOrderIsDescendingPermutation | trunk/xmipp/applications/scripts/protocols/protocol_projmatch.py:1156-1159 | Every group 1..N is visited exactly once, in strictly descending order |
| Stages.GroupDocPlain | trunk/xmipp/applications/scripts/protocols/protocol_projmatch.py:1297-1300 | The subset document of a plain group name is that name with ".doc" |
| Stages.SubsetManifest | trunk/xmipp/applications/scripts/protocols/protocol_projmatch.py:1295-1313 | The manifest has one active line per group, in ascending group order |
| Stages.ManifestReadsBack | trunk/xmipp/applications/scripts/protocols/protocol_projmatch.py:1309-1313 | Reading the written manifest back yields exactly its lines |
| Stages.GroupRuns | trunk/xmipp/applications/scripts/protocols/protocol_projmatch.py:1158-1176 | One matching run per group in loop order; with CTF correction run k reads its group's subset document and writes `<root>_<group>`, without it every run reads the iteration's input document and writes the plain root |
| Stages.RunsReverseManifest | trunk/xmipp/applications/scripts/protocols/protocol_projmatch.py:1162-1167 | The matching runs read the manifest's documents in reverse order |
| Stages.ReferenceIsCtfCorrected | trunk/xmipp/applications/scripts/protocols/protocol_projmatch.py:806-810 | The reference counts as uncorrected only at iteration 1 when the user says so |
| Stages.ClassAverageOptions | trunk/xmipp/applications/scripts/protocols/protocol_projmatch.py:1214-1233 | Class averages go to `-add_to` exactly with CTF correction, are realigned exactly when Align2D is "1", and are split exactly when resolution is computed |
| Stages.MatchedDoc | trunk/xmipp/applications/scripts/protocols/protocol_projmatch.py:1243-1246 | The matched document is `_realigned.doc` with Align2D "1" and `.doc` otherwise; with no group it is never assigned |
| Stages.RealignedDocIffRealigned | trunk/xmipp/applications/scripts/protocols/protocol_projmatch.py:1223-1246 | The realigned document is produced exactly when the averaging realigns |
| Stages.ReconstructionSelfile | trunk/xmipp/applications/scripts/protocols/protocol_projmatch.py:858-861 | A line is kept exactly when none of the three grep patterns matches it |
| Stages.ReconstructionSelfileAppend | trunk/xmipp/applications/scripts/protocols/protocol_projmatch.py:858-861 | The filter works line by line: filtering a concatenation concatenates the filtered parts |
| Stages.ReconstructionSelfileIdempotent | trunk/xmipp/applications/scripts/protocols/protocol_projmatch.py:858-861 | Filtering twice equals filtering once |
| Stages.GrepPatterns | trunk/xmipp/applications/scripts/protocols/protocol_projmatch.py:860 | The `ref.xmp` pattern is a regular expression whose dot also drops "ref_xmp" |
| Stages.ParseMethod | trunk/xmipp/applications/scripts/protocols/protocol_projmatch.py:1347-1393 | Only wbp, art and fourier are accepted; anything else is the unknown-method error |
| Stages.PlanReconstruction | trunk/xmipp/applications/scripts/protocols/protocol_projmatch.py:1347-1402 | The launch the code intends: wbp forces one thread, art forces serial, fourier drops MPI when threads > 1; the plan is refused with zero threads (the division at 1398-1399) and with more threads than MPI processes (1400), and otherwise launched with the parsed method |
| Stages.PlanReconstructionAsWritten | trunk/xmipp/applications/scripts/protocols/protocol_projmatch.py:1362-1386 | As written, art and fourier add the integer thread count to a string, which fails for every thread count; wbp and unknown methods behave as intended |
| Stages.DefaultFourierNeverLaunches | trunk/xmipp/applications/scripts/protocols/protocol_projmatch.py:461 | With the default NumberOfThreads=1 the fourier reconstruction fails as written and launches serially as intended |
| Stages.PlanSettles | trunk/xmipp/applications/scripts/protocols/protocol_projmatch.py:1357-1378 | Planning again with the adjusted settings changes nothing |
| Stages.HalvesAgreeWithFull | trunk/xmipp/applications/scripts/protocols/protocol_projmatch.py:1456-1514 | Each half reconstruction is accepted exactly when the full one is |
| Stages.OuterRadius | trunk/xmipp/applications/scripts/protocols/protocol_projmatch.py:679-686 | A negative radius becomes xdim/2 - 1 (floor); others are kept |
| Stages.InitialMaxFrequency | trunk/xmipp/applications/scripts/protocols/protocol_projmatch.py:629-632 | At iteration 1 the configured text is converted: success exactly when it reads as a decimal, with that value, and the not-a-number error otherwise; 0.5 when resuming |
| Stages.InitialMaxFrequencyReadsDecimal | trunk/xmipp/applications/scripts/protocols/protocol_projmatch.py:388 | The default text "0.25" reads as 0.25, and every printed whole number reads as itself |
| Resolution.ClassifyMeaning | trunk/xmipp/applications/scripts/protocols/protocol_projmatch.py:1570-1577 | '#' lines are skipped; a correlation below 0.5 stops the scan; otherwise the first column is read as the frequency; a short line is an IndexError |
| Resolution.StopIndex | trunk/xmipp/applications/scripts/protocols/protocol_projmatch.py:1574-1575 | The scan ends at the first row that stops it or cannot be read |
| Resolution.ScanSteps | trunk/xmipp/applications/scripts/protocols/protocol_projmatch.py:1569-1577 | The loop returns the last frequency read before the first drop, or the error of the row that ends it |
| Resolution.ScaledScan | trunk/xmipp/applications/scripts/protocols/protocol_projmatch.py:1569-1584 | The row loop followed by the multiplication by ResolSam gives the reference reading: the error of the row that ends the scan, or the last frequency before it times ResolSam |
| Resolution.FscResolution | trunk/xmipp/applications/scripts/protocols/protocol_projmatch.py:1564-1584 | After skipping the header line, the loop's result is the reference reading of the whole file used by the controller |
| Resolution.NoValueMeansZero | trunk/xmipp/applications/scripts/protocols/protocol_projmatch.py:1569 | When no row before the drop is read, the result stays 0 |
| Resolution.LastFrequencyWitness | trunk/xmipp/applications/scripts/protocols/protocol_projmatch.py:1576-1577 | A result read from the file is the frequency of a row after which no row was read |
| Resolution.NoDropReadsAll | trunk/xmipp/applications/scripts/protocols/protocol_projmatch.py:1570-1577 | Without a drop the scan reads to the end and returns the last row's frequency |
| Resolution.ScanExample | trunk/xmipp/applications/scripts/protocols/protocol_projmatch.py:1570-1577 | Rows 0.1, 0.2, drop, 0.4 give 0.2 |
| Resolution.FilterAtResolution | trunk/xmipp/applications/scripts/protocols/protocol_projmatch.py:1602-1622 | The cutoff is the constant, or estimate plus constant; the volume is copied when the constant is below 0.5 or resolution is off and low-passed at the cutoff otherwise |
| Resolution.SetToZeroIgnoresEstimate | trunk/xmipp/applications/scripts/protocols/protocol_projmatch.py:1604-1605 | With SetResolutiontoZero the estimate plays no part |
| Resolution.LowPassAtOrAboveNyquist | trunk/xmipp/applications/scripts/protocols/protocol_projmatch.py:1611-1617 | Whenever the low-pass runs on a non-negative estimate, it cuts at 0.5 or above |
| Resolution.FilterAtResolutionAsWritten | trunk/xmipp/applications/scripts/protocols/protocol_projmatch.py:1604-1611 | As written, the text-versus-number test never copies, so only a switched-off resolution copies the volume |
| Resolution.SmallConstantStillFilters | trunk/xmipp/applications/scripts/protocols/protocol_projmatch.py:1611 | With the constant "0" the intended rule copies but the code as written low-passes, at the same cutoff |
| Resolution.AsWrittenDiffersOnlyBelowHalf | trunk/xmipp/applications/scripts/protocols/protocol_projmatch.py:1602-1622 | For every numeric constant, the code as written and the intended rule read and write the same files at the same cutoff, and take different actions exactly when resolution is on and the constant is below 0.5 |
| Controller.Align2DGuardAsWritten | trunk/xmipp/applications/scripts/protocols/protocol_projmatch.py:760-761 | As written, the string-versus-1 comparison never raises the Align2D/CTF error |
| Controller.Align2DGuard | trunk/xmipp/applications/scripts/protocols/protocol_projmatch.py:759-765 | The guard fires exactly when CTF correction is on and this iteration's Align2D value is "1"; a malformed setting is an error |
| Controller.Settings | trunk/xmipp/applications/scripts/protocols/protocol_projmatch.py:785-804 | The settings read at one position succeed exactly when every one resolves, giving each resolved value in order; a failure is a bad setting, and the first setting's own error when the first does not resolve |
| Controller.MatchingStage | trunk/xmipp/applications/scripts/protocols/protocol_projmatch.py:783-852 | Matching succeeds exactly when its ten settings resolve, the angles documents at i and i+1 exist, the angular distance is numeric and there is a CTF group; it then reads document i, writes document i+1, and uses the stage decisions for distance, class averages, matched document, group runs and reference correction |
| Controller.ReconstructionStage | trunk/xmipp/applications/scripts/protocols/protocol_projmatch.py:865-888 | Reconstruction happens only when switched on, succeeds exactly when its plan is accepted (so zero threads or more threads than processes stop it), launches exactly that plan, and writes the iteration's volume |
| Controller.HalvesStage | trunk/xmipp/applications/scripts/protocols/protocol_projmatch.py:1456-1522 | The half reconstructions run only with resolution on, succeed exactly when the first half's plan is accepted (so zero threads or more threads than processes stop them), launch the first half as planned, and give both halves the same program and settings |
| Controller.Estimate | trunk/xmipp/applications/scripts/protocols/protocol_projmatch.py:890-913 | The estimate is 0 with resolution off, and otherwise the scaled FSC scan of the iteration's curve |
| Controller.Filtration | trunk/xmipp/applications/scripts/protocols/protocol_projmatch.py:915-928 | Filtration reads this iteration's reconstruction, writes the next iteration's filtered name, and follows the copy/cutoff rule |
| Controller.MaskAndMatch | trunk/xmipp/applications/scripts/protocols/protocol_projmatch.py:773-852 | Succeeds exactly when the filtered and reference names of iteration i exist and, with matching on, matching succeeds; the mask reads the filtered name and writes the reference, and matching runs exactly when switched on |
| Controller.ResolutionAndFilter | trunk/xmipp/applications/scripts/protocols/protocol_projmatch.py:890-928 | Succeeds exactly when the estimate, the constant setting and the next filtered name all succeed, failing in that order; the filtration reads the iteration's reconstructed volume, writes the next filtered volume and uses the iteration's estimate |
| Controller.IterationStages | trunk/xmipp/applications/scripts/protocols/protocol_projmatch.py:773-928 | An iteration succeeds exactly when every stage does; its record holds each stage's own result, fits the name vectors, and has each stage present exactly when switched on |
| Controller.RunIteration | trunk/xmipp/applications/scripts/protocols/protocol_projmatch.py:759-928 | A clash of Align2D "1" with CTF correction stops the iteration before any stage, a malformed Align2D setting is its error, and otherwise the iteration is exactly its stages |
| Controller.RunIterationAsWritten | trunk/xmipp/applications/scripts/protocols/protocol_projmatch.py:759-928 | As written, the stages run whatever the Align2D setting says |
| Controller.Loop | trunk/xmipp/applications/scripts/protocols/protocol_projmatch.py:754-928 | Record k is what iteration i+k returns from the previous cutoff; an error is what the first failing iteration returns, and comes only before the last iteration is done; records are chained through the name vectors and the loop completes all iterations otherwise |
| Controller.Run | trunk/xmipp/applications/scripts/protocols/protocol_projmatch.py:587-754 | A configured frequency that is not a number stops the run at setup; resuming while deleting stops before anything else; otherwise the setup is the one __init__ computes, with the name lists built from the absolute name of the reference and the mask taken by its absolute name, each record is what its iteration returns and an error is what the first failing iteration returns, and the first iteration starts from the configured frequency |
| Controller.Align2DGuardIgnored | trunk/xmipp/applications/scripts/protocols/protocol_projmatch.py:760-765 | Where the intended guard stops an iteration, the code as written does not |
| Controller.Align2DStopsRun | trunk/xmipp/applications/scripts/protocols/protocol_projmatch.py:759-765 | A clash in the first iteration leaves no record, and is the run's error whenever the setup succeeded |
| Controller.ConsecutiveIterations | trunk/xmipp/applications/scripts/protocols/protocol_projmatch.py:777 | Iteration i+1 masks the filter output of iteration i, starts from its cutoff and reads its angles document |
| Controller.FirstIterationUsesUserReference | trunk/xmipp/applications/scripts/protocols/protocol_projmatch.py:735-738 | A fresh run starts from the configured frequency and masks the absolute name of the user's reference (made at line 587); when that name is the root "/", it is dropped and iteration 1 masks its own filtered volume instead |
| Controller.FilteredVolumesInOwnDirectory | trunk/xmipp/applications/scripts/protocols/protocol_projmatch.py:926 | Iteration k writes `../Iter_k/Iter_k_filtered_reconstruction.vol`, which the next iteration masks; when the reference resolves to the root, iteration k writes iteration k+1's filtered volume instead |
| Controller.AnglesHandOff | trunk/xmipp/applications/scripts/protocols/protocol_projmatch.py:816-817 | Iteration k writes `Iter_k`'s current-angles document and reads the previous iteration's, or the original angles at iteration 1 |
| Controller.ShortReferenceNeverCompletes | trunk/xmipp/applications/scripts/protocols/protocol_projmatch.py:1651-1652 | The only absolute name of at most one character is the root "/" (a reference of "/" or "/..", or an empty one in the root directory); with it the last iteration's filter output index is missing and the run never completes |
| ProjectXR.Code | trunk/xmipp/libraries/reconstruction/project_XR.cpp:74-82 | A missing or unopenable file is error 3005; a truncated file or a missing or unreadable field is error 3007; a noise line with no word fails inside firstWord, which is given no error number, so no number is claimed for it |
| ProjectXR.Step | trunk/xmipp/libraries/reconstruction/project_XR.cpp:83-178 | Skipped lines and lines after state 9 change nothing; an accepted line advances the state by one; an error names the state it happened in; a noise line (states 6-8) with no word is the firstWord error, exactly then, and every other error is a bad field |
| ProjectXR.Feed | trunk/xmipp/libraries/reconstruction/project_XR.cpp:83-179 | The state never decreases nor passes 9; every error comes from a line: a bad field or a noise line with no word |
| ProjectXR.ReadParams | trunk/xmipp/libraries/reconstruction/project_XR.cpp:67-184 | An empty name is error 3005 before reading; an unopenable file is 3005; success means the state reached 9 |
| ProjectXR.StateCountsAcceptedLines | trunk/xmipp/libraries/reconstruction/project_XR.cpp:91-178 | The final state is the number of accepted lines, capped at 9 |
| ProjectXR.TooFewLinesIncomplete | trunk/xmipp/libraries/reconstruction/project_XR.cpp:180-182 | Fewer than nine accepted lines end in an error: 3007, unless a noise line with no word stopped the read first |
| ProjectXR.SkippedLineAnywhere | trunk/xmipp/libraries/reconstruction/project_XR.cpp:85-90 | Inserting a blank, NUL-led or comment line anywhere changes nothing |
| ProjectXR.OptionalFields | trunk/xmipp/libraries/reconstruction/project_XR.cpp:103-175 | A missing second token keeps `starting` at state 1 and sets the averages to 0 at states 6, 7 and 8 |
| ProjectXR.GetParameter | trunk/xmipp/libraries/reconstruction/project_XR.cpp:36-40 | The word after the first occurrence of the flag, else the default, else a missing-argument error |
| ProjectXR.ReadArgs | trunk/xmipp/libraries/reconstruction/project_XR.cpp:32-45 | `-i` is mandatory unless `-v` is given; `-o` and `-psf` default to ""; `-show_angles` sets exactly the show-angles bit |
| ProjectXR.ReadArgsRoundTrip | trunk/xmipp/libraries/reconstruction/project_XR.cpp:32-45 | Reading a command line rendered from any parameters whose file names are not flags gives those parameters back |
| ProjectXR.OffCenteredWindow | trunk/xmipp/libraries/reconstruction/project_XR.cpp:317-348 | The window is iniYdim + 2·|yOffset| high, iniXdim + 2·|xOffset| wide and iniZdim deep; its start moves by -2·offset only for a positive offset |
| ProjectXR.WindowRecentres | trunk/xmipp/libraries/reconstruction/project_XR.cpp:326-348 | The window contains the volume and its centre is the volume's centre moved by -offset |
| ProjectXR.EffectivelyProject | trunk/xmipp/libraries/reconstruction/project_XR.cpp:202-286 | The angle loop from tilt0 to tiltF visits exactly floor((tiltF - tilt0) / tiltStep) + 1 angles in steps of tiltStep (none when tilt0 > tiltF); one enabled selfile row per angle, numbered from `starting`; the returned count equals the rows |
| ProjectXR.TiltAngles | trunk/xmipp/libraries/reconstruction/project_XR.cpp:216 | The angles visited are tilt0 + k·tiltStep for every k below the count, the next one passes tiltF, and the count is floor((tiltF - tilt0) / tiltStep) + 1 |
| ProjectXR.TiltLoopEndsExactly | trunk/xmipp/libraries/reconstruction/project_XR.cpp:216 | The loop ends, that is some angle tilt0 + k·tiltStep passes tiltF, exactly when tiltStep > 0 or tilt0 > tiltF; otherwise every angle passes the test and the loop never ends |
| ProjectXR.RoutProject | trunk/xmipp/libraries/reconstruction/project_XR.cpp:385-422 | Succeeds exactly when the parameter file reads, with the reader's error otherwise; `-only_create_angles` gives count 0 and no selfile; otherwise the count is the number of angles of the tilt loop and a selfile of that many rows is written exactly when `-o` names one |
| ParticlePick.ReadSelfile | trunk/xmipp/applications/scripts/protocols/protocol_particle_pick.py:213-238 | A missing file, an empty file or a first line of the wrong width is an error; otherwise every line is returned split into words |
| ParticlePick.SelfileReadsBack | trunk/xmipp/applications/scripts/protocols/protocol_particle_pick.py:222-238 | Writing rows as a selfile and reading them back gives the rows |
| ParticlePick.Entries | trunk/xmipp/applications/scripts/protocols/protocol_particle_pick.py:259-278 | Every row must unpack into its fields, else the first bad row is the error; a name is listed exactly when its row's state does not contain "-1", renamed from .spi to .raw |
| ParticlePick.EntriesAppend | trunk/xmipp/applications/scripts/protocols/protocol_particle_pick.py:259-278 | The listing keeps row order: listing two blocks of rows lists the first block's entries followed by the second's |
| ParticlePick.EntriesOfRow | trunk/xmipp/applications/scripts/protocols/protocol_particle_pick.py:259-278 | A single row lists its own renamed entry when active and nothing otherwise |
| ParticlePick.ListedNamesAreRaw | trunk/xmipp/applications/scripts/protocols/protocol_particle_pick.py:261-272 | No listed name still contains ".spi"; tilted partners appear exactly for pair lists |
| ParticlePick.CountPicked | trunk/xmipp/applications/scripts/protocols/protocol_particle_pick.py:387-397 | 0 without a .pos file; otherwise the lines after the header, never negative |
| ParticlePick.CountPickedOfPosFile | trunk/xmipp/applications/scripts/protocols/protocol_particle_pick.py:387-397 | A .pos file of a header and n particle lines counts n |
| ParticlePick.InvertSelection | trunk/xmipp/applications/scripts/protocols/protocol_particle_pick.py:366-369 | Each flag f becomes 1 - f |
| ParticlePick.InvertTwice | trunk/xmipp/applications/scripts/protocols/protocol_particle_pick.py:366-369 | Inverting twice restores the selection |
| ParticlePick.SelectedNames | trunk/xmipp/applications/scripts/protocols/protocol_particle_pick.py:375-377 | A name is selected exactly when some set check box carries it |
| ParticlePick.SelectedNamesAppend | trunk/xmipp/applications/scripts/protocols/protocol_particle_pick.py:375-377 | Selection keeps the micrographs' order: selecting from two blocks concatenates the selections |
| ParticlePick.SelectedNamesOfOne | trunk/xmipp/applications/scripts/protocols/protocol_particle_pick.py:375-377 | One check box selects its micrograph exactly when it is set |
| ParticlePick.InvertSelectsComplement | trunk/xmipp/applications/scripts/protocols/protocol_particle_pick.py:366-377 | For 0/1 flags, the selections before and after inverting partition the micrographs |
| ParticlePick.BroadcastRoundTrip | trunk/xmipp/applications/scripts/protocols/protocol_particle_pick.py:378-382 | Joining with '*' and splitting gives the names back; an empty selection gives one empty name |
| ParticlePick.ExactlyOneRank | trunk/xmipp/applications/scripts/protocols/protocol_particle_pick.py:383-384 | Every position is handled by exactly one rank below nprocs |
| ParticlePick.Launches | trunk/xmipp/applications/scripts/protocols/protocol_particle_pick.py:382-385 | A launch is in the result exactly when it is the picking of a non-empty name at a position the rank handles, and there are no more launches than positions |
| ParticlePick.LaunchesSplit | trunk/xmipp/applications/scripts/protocols/protocol_particle_pick.py:383-385 | The launches over positions from..end are those over from..m-1 followed by those over m..end, so a rank launches in position order |
| ParticlePick.LaunchesAtOne | trunk/xmipp/applications/scripts/protocols/protocol_particle_pick.py:383-385 | One position gives exactly one launch, the picking of its name, when the rank handles it and the name is not empty, and none otherwise |
| ParticlePick.Detect | trunk/xmipp/applications/scripts/protocols/protocol_particle_pick.py:371-385 | At most one launch per broadcast name; when no micrograph name holds a '*', a rank launches exactly the launches of the selected names in order, by position |
| ParticlePick.EmptySelectionLaunchesNothing | trunk/xmipp/applications/scripts/protocols/protocol_particle_pick.py:469-470 | With nothing selected, no rank launches anything |
| ParticlePick.PerformPicking | trunk/xmipp/applications/scripts/protocols/protocol_particle_pick.py:466-474 | An empty name launches nothing; otherwise the picker enters the name's directory exactly when the name has one |
| ParticlePick.ArgumentWords | trunk/xmipp/applications/scripts/protocols/protocol_particle_pick.py:475-483 | The arguments are `-i` and the micrograph, plus, with automatic picking, `-auto ../name`, `-thr N` only for N > 1, and `-autoSelect` or `&` last |
| ParticlePick.CheckPairList | trunk/xmipp/applications/scripts/protocols/protocol_particle_pick.py:458-463 | Aborts exactly for automatic picking on a pair list |
| PickerCanvas.Half | java/src/xmipp/particlepicker/ParticlePickerCanvas.java:163 | Java's `/ 2` truncates toward zero |
| PickerCanvas.Corner | java/src/xmipp/particlepicker/ParticlePickerCanvas.java:163-172 | A window no larger than the image starts within [0, extent - size]; a larger one starts at extent - size; an unclamped start centres the particle |
| PickerCanvas.MoveTo | java/src/xmipp/particlepicker/ParticlePickerCanvas.java:159-179 | The size is kept; the new window replaces the source rectangle (with a repaint) exactly when the current one does not contain it |
| PickerCanvas.ParticleVisibleAfterMove | java/src/xmipp/particlepicker/ParticlePickerCanvas.java:163-178 | A particle inside the image is inside the visible rectangle after moveTo |
| PickerCanvas.MoveToSettles | java/src/xmipp/particlepicker/ParticlePickerCanvas.java:174-178 | Moving to the same particle again changes nothing |
| PickerCanvas.MoveActiveParticle | java/src/xmipp/particlepicker/ParticlePickerCanvas.java:286-291 | With no active particle nothing changes; otherwise only its position changes |
| PickerCanvas.KeyPressed | java/src/xmipp/particlepicker/ParticlePickerCanvas.java:51-74 | UP moves the active particle to y-1, DOWN to y+1, LEFT to x-1, RIGHT to x+1; space sets both check boxes to the toggle and negates it; other keys and no active particle change nothing and do not repaint |
| PickerCanvas.OppositeArrowsCancel | java/src/xmipp/particlepicker/ParticlePickerCanvas.java:59-66 | Left then right, or up then down, restores the canvas |
| PickerCanvas.SpaceAlternates | java/src/xmipp/particlepicker/ParticlePickerCanvas.java:67-71 | Successive space presses set the check boxes to alternating values |

## Left out

- Controller.Settings: when a setting after the first fails to resolve, the contract says only that a bad setting ended the reading, not which one; the first setting's failure is stated exactly.
- Running external programs is left out, covering `launch_job`, `os.system`, `shutil`, directory creation and deletion, `os.chdir`, logging and script backups. These are effects; the model records what would be launched or read.
- `perform_picking` always changes to the parent directory afterwards, even when it never entered one. The model does not track the working directory.
- `perform_picking_pair` and the Tk/Swing interfaces are left out. This includes the widgets, grid layout, zero-padded labels, totals shown in the window, painting and cursors. They are user-interface code.
- The repaint of the particle dialog in `moveActiveParticle` is left out. It is painting.
- MPI `Bcast` and the serial fallback class are left out. The model keeps only the rule that assigns ranks. `nprocs` is the MPI world size, at least 1.
- `arg.getComponentFromVector` is not part of this model. It is modelled from its documentation: whitespace-separated tokens, "NxV" with positive N, and values as strings.
- Several inputs are computed by code outside this model, so they are taken as inputs:
  - the composed file names of `composeFileName`;
  - the CTF group count from `execute_ctf_groups`;
  - the image size from `imgSize`;
  - the FSC curve file.
- Floating-point numerics are left out: Euler rotations, noise, PSF projection and the Fourier filter itself.
- ProjectXR.EffectivelyProject: the `double` angle loop is modelled with exact reals, so rounding that adds or drops the last angle is not modelled; the count is the exact floor((tiltF - tilt0) / tiltStep) + 1.
- ProjectXR.RoutProject: `psf.read` (line 393) and `phantomVol.read` (line 191) read files this model does not hold, so their failures are not modelled.
- ProjectXR.RoutProject requires that the angle loop ends (tiltStep > 0 or tilt0 > tiltF); with tiltStep <= 0 and tilt0 <= tiltF the loop at line 216 never ends (TiltLoopEndsExactly), which a terminating model cannot return.
- ProjectXR.Code: a noise line (lines 146, 157 and 168) holding only blanks fails inside `firstWord`, which those lines call without an error number; `firstWord` is not part of this model, so its default number is not either, and `Code` returns None for that error.
- ProjectXR.TooFewLinesIncomplete: promises error 3007 only when no noise line holding only blanks stopped the read first; that case ends with `firstWord`'s own error instead.
- ProjectXR.Step: `fn_projection_extension = nextToken()` at line 109 has no NULL check, so a state-1 line without a third token would store a null pointer; the model treats the missing token as an absent extension, as intended.
- project_XR offsets are taken as the integers that `XX(roffset)/psf.dxo` yields. The `double` division is not modelled.
- Java `int` and C `int` arithmetic are modelled without 32-bit overflow.
- ProjectXR.ReadParams: `strtok` tokens are modelled as blank-separated words, and `textToInteger`/`textToDouble` as strict decimal parsing. Trailing garbage after a number, which `sscanf`-style parsing would accept, is treated as an error.
- Text.ParseDecimal accepts fixed-point decimals only. Exponents, "inf" and "nan", which Python's `float()` also accepts, are not modelled.
- Stages.InitialMaxFrequency: `float()` also accepts surrounding blanks, exponents, "inf" and "nan"; the model refuses them with the not-a-number error.
- Stages.PlanReconstruction: the thread count is an integer, as NumberOfThreads=1 at line 461 sets it; a count given as text, which would make the `' -thr ' +` concatenation work, is not modelled. A negative count is taken as the code's `int()` comparison takes it.
- Controller.IterationStages: `_ReconstructedVolume[i]` is indexed once, before the reconstruction stage. The code indexes it at line 885 only when reconstruction is on, and always at line 925, so the same IndexError is raised, but when reconstruction is off the stages between the two lines may fail first in the code.
- PickerCanvas.KeyPressed: `tongleSetSelected` is a private static field (ParticlePickerCanvas.java line 31), shared by every canvas; the model keeps it in the canvas it acts on, so two canvases that alternate space presses are not modelled.
- Controller.Run requires ContinueAtIteration ≥ 1. Lower values would index the parameter sequences at negative positions, whose behaviour depends on the unseen `getComponentFromVector`.
- The ART lambda, the symmetry group and the other pass-through settings are left out. They are forwarded to programs and never decide anything.
- The files that are not part of this model are left out: the GPU correlation code, the naive Bayes header, the JNI image wrapper and the metadata tests.
- Three defects in `protocol_projmatch.py` are modelled as intended:
  - the module functions use `self.log` where the logger is meant;
  - `self._NumberOfThreads` at line 878 is never assigned, and the model uses the configured thread count (`self._MyNumberOfThreads`, line 636);
  - a comma is missing between lines 840 and 841.
- Stages.GrepPatterns: the third grep pattern, `\ -1`, is matched as the literal text " -1".

## Findings

| source | as written | input that shows it | evidently intended | confidence | as-written member | corrected member |
|---|---|---|---|---|---|---|
| trunk/xmipp/applications/scripts/protocols/protocol_projmatch.py:760 | `getComponentFromVector(_DoAlign2D, i-1) == 1` compares the setting's text with the integer 1, which is never equal, so re-alignment with CTF correction is never refused | DoAlign2D "1" with DoCtfCorrection on | Compare with "1", as line 1223 does, and stop the run | high (not executed) | Controller.RunIterationAsWritten (exhibit: Controller.Align2DGuardIgnored) | Controller.RunIteration |
| trunk/xmipp/applications/scripts/protocols/protocol_projmatch.py:1611 | `_ConstantToAddToFiltration < 0.5` compares the setting's text with a float; Python 2 orders numbers before strings, so the test is always false and the volume is always low-passed while resolution is on | ConstantToAddToFiltration "0" with DoComputeResolution on | Compare `float(constant)`, as line 1605 converts it, and copy the volume for constants below 0.5 | medium (not executed) | Resolution.FilterAtResolutionAsWritten (exhibit: Resolution.SmallConstantStillFilters) | Resolution.FilterAtResolution |
| trunk/xmipp/applications/scripts/protocols/protocol_projmatch.py:1366 | `' -thr ' + _MyNumberOfThreads` adds the integer thread count to a string (also at lines 1383, 1478 and 1496), a TypeError in Python, so art and fourier reconstructions never launch | the default NumberOfThreads=1 (line 461) with ReconstructionMethod 'fourier' | Convert the count with `str()`, as line 1386 does for the frequency | high (not executed) | Stages.PlanReconstructionAsWritten (exhibit: Stages.DefaultFourierNeverLaunches) | Stages.PlanReconstruction |
