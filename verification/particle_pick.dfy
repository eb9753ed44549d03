/**
 * The particle-picking protocol (protocol_particle_pick.py): reading the
 * micrograph selfile, choosing the rows the picking window lists,
 * counting picked particles, the automatic-picking selection and its
 * round-robin distribution over MPI ranks, and the arguments of the
 * marking program.
 */
module ParticlePick {
  import opened Wrappers
  import opened Text
  import Seq

  /** The files the script can see: path to content. */
  type Files = map<string, string>

  datatype PickError =
    | MissingSelfile(name: string)
    | EmptySelfile(name: string)   // lines[0] of an empty file: IndexError
    | NotSelfile(name: string)
    | NotPairList(name: string)
    | BadRow(index: nat)           // a row that does not unpack into its fields: ValueError
    | PairAutoPicking

  /** Words per row: micrograph and state, or micrograph, tilted and state. */
  function RowWidth(isPairList: bool): nat {
    if isPairList then 3 else 2
  }

  // ---------------------------------------------------------------------
  // The selfile
  // ---------------------------------------------------------------------

  /** ReadSelfile: every line split into words, once the file exists and
      its first line has the width the list kind needs. */
  function ReadSelfile(fs: Files, name: string, isPairList: bool): (r: Result<seq<seq<string>>, PickError>)
    ensures name !in fs ==> r == Err(MissingSelfile(name))
    ensures name in fs && ReadLines(fs[name]) == [] ==> r == Err(EmptySelfile(name))
    ensures name in fs && ReadLines(fs[name]) != [] ==>
      if |Words(ReadLines(fs[name])[0])| == RowWidth(isPairList) then r.Ok?
      else r == Err(if isPairList then NotPairList(name) else NotSelfile(name))
    ensures r.Ok? ==>
      && |r.value| == |ReadLines(fs[name])|
      && forall k :: 0 <= k < |r.value| ==> r.value[k] == Words(ReadLines(fs[name])[k])
  {
    if name !in fs then Err(MissingSelfile(name))
    else
      var lines := ReadLines(fs[name]);
      if lines == [] then Err(EmptySelfile(name))
      else if |Words(lines[0])| != RowWidth(isPairList) then
        Err(if isPairList then NotPairList(name) else NotSelfile(name))
      else Ok(seq(|lines|, k requires 0 <= k < |lines| => Words(lines[k])))
  }

  /** One line of a selfile: its words separated by blanks. */
  function SelfileLine(row: seq<string>): string {
    Join(row, ' ') + "\n"
  }

  /** A selfile as the tools write it, one line per row. */
  function SelfileText(rows: seq<seq<string>>): string {
    Flatten(seq(|rows|, k requires 0 <= k < |rows| => SelfileLine(rows[k])))
  }

  predicate WellFormedRow(row: seq<string>) {
    forall i :: 0 <= i < |row| ==> row[i] != [] && NoSpace(row[i])
  }

  lemma {:induction false} JoinHasNoNewline(ws: seq<string>)
    requires WellFormedRow(ws)
    ensures '\n' !in Join(ws, ' ')
    decreases |ws|
  {
    if |ws| > 1 {
      JoinHasNoNewline(ws[1..]);
      var rest := Join(ws[1..], ' ');
      var s := ws[0] + [' '] + rest;
      assert Join(ws, ' ') == s;
      forall k | 0 <= k < |s| ensures s[k] != '\n' {
        if k < |ws[0]| {
          assert s[k] == ws[0][k];
        } else if k > |ws[0]| {
          assert s[k] == rest[k - |ws[0]| - 1];
        }
      }
    } else if |ws| == 1 {
      assert forall k :: 0 <= k < |ws[0]| ==> !IsSpace(ws[0][k]);
    }
  }

  lemma SelfileLineWords(row: seq<string>)
    requires WellFormedRow(row)
    ensures var l := SelfileLine(row);
      && l != [] && l[|l| - 1] == '\n' && '\n' !in l[..|l| - 1]
      && Words(l) == row
  {
    var j := Join(row, ' ');
    JoinHasNoNewline(row);
    assert SelfileLine(row)[..|SelfileLine(row)| - 1] == j;
    WordsSpaceJoin(j, '\n', []);
    assert j + ['\n'] + [] == SelfileLine(row);
    WordsJoin(row);
  }

  /** Writing rows as a selfile and reading it back gives the rows, when the
      first row has the width the list kind needs. */
  lemma SelfileReadsBack(fs: Files, name: string, rows: seq<seq<string>>, isPairList: bool)
    requires |rows| >= 1 && |rows[0]| == RowWidth(isPairList)
    requires forall k :: 0 <= k < |rows| ==> WellFormedRow(rows[k])
    ensures ReadSelfile(fs[name := SelfileText(rows)], name, isPairList) == Ok(rows)
  {
    var lines := seq(|rows|, k requires 0 <= k < |rows| => SelfileLine(rows[k]));
    forall k | 0 <= k < |lines|
      ensures lines[k] != [] && lines[k][|lines[k]| - 1] == '\n' && '\n' !in lines[k][..|lines[k]| - 1]
      ensures Words(lines[k]) == rows[k]
    {
      SelfileLineWords(rows[k]);
    }
    ReadLinesOfLines(lines);
    assert SelfileText(rows) == Flatten(lines);
    var read := ReadSelfile(fs[name := SelfileText(rows)], name, isPairList);
    assert read.Ok?;
    assert read.value == rows;
  }

  // ---------------------------------------------------------------------
  // The rows the picking window lists
  // ---------------------------------------------------------------------

  /** A listed micrograph, with its tilted partner in a pair list. */
  datatype Entry = Entry(micrograph: string, tilted: Option<string>)

  /** The rename the window applies to every name. */
  function Raw(name: string): string {
    ReplaceAll(name, ".spi", ".raw")
  }

  /** A row is listed unless its state mentions "-1". */
  predicate Active(row: seq<string>)
    requires |row| >= 1
  {
    !Contains(row[|row| - 1], "-1")
  }

  function EntryOf(row: seq<string>, isPairList: bool): Entry
    requires |row| == RowWidth(isPairList)
  {
    if isPairList then Entry(Raw(row[0]), Some(Raw(row[1]))) else Entry(Raw(row[0]), None)
  }

  /** The listing loop of FillMarkGui: every row must unpack into exactly
      its fields; active rows are listed, renamed, in order. */
  function Entries(rows: seq<seq<string>>, isPairList: bool): (r: Result<seq<Entry>, PickError>)
    ensures r.Ok? <==> forall k :: 0 <= k < |rows| ==> |rows[k]| == RowWidth(isPairList)
    ensures r.Err? ==> r.error.BadRow? && r.error.index < |rows| && |rows[r.error.index]| != RowWidth(isPairList)
    ensures r.Err? ==> forall k :: 0 <= k < r.error.index ==> |rows[k]| == RowWidth(isPairList)
    ensures r.Ok? ==> forall e :: e in r.value <==>
      exists k :: 0 <= k < |rows| && |rows[k]| == RowWidth(isPairList) && Active(rows[k]) && e == EntryOf(rows[k], isPairList)
    decreases |rows|
  {
    if rows == [] then Ok([])
    else if |rows[0]| != RowWidth(isPairList) then Err(BadRow(0))
    else
      match Entries(rows[1..], isPairList)
      case Err(e) => Err(BadRow(e.index + 1))
      case Ok(rest) =>
        assert forall k :: 1 <= k < |rows| ==> rows[k] == rows[1..][k - 1];
        Ok((if Active(rows[0]) then [EntryOf(rows[0], isPairList)] else []) + rest)
  }

  /** The listing keeps the order of the rows: listing two blocks of rows
      one after the other lists the first block's entries, then the
      second's. */
  lemma {:induction false} EntriesAppend(a: seq<seq<string>>, b: seq<seq<string>>, isPairList: bool)
    requires Entries(a, isPairList).Ok? && Entries(b, isPairList).Ok?
    ensures Entries(a + b, isPairList) == Ok(Entries(a, isPairList).value + Entries(b, isPairList).value)
    decreases |a|
  {
    if a == [] {
      assert a + b == b;
      assert Entries(a, isPairList).value + Entries(b, isPairList).value == Entries(b, isPairList).value;
    } else {
      var head := if Active(a[0]) then [EntryOf(a[0], isPairList)] else [];
      EntriesCons(a, isPairList);
      EntriesAppend(a[1..], b, isPairList);
      assert (a + b)[0] == a[0] && (a + b)[1..] == a[1..] + b;
      EntriesCons(a + b, isPairList);
      Seq.AppendAssociates(head, Entries(a[1..], isPairList).value, Entries(b, isPairList).value);
    }
  }

  /** The first row's entry, if any, comes before the rest's. */
  lemma EntriesCons(rows: seq<seq<string>>, isPairList: bool)
    requires rows != [] && |rows[0]| == RowWidth(isPairList) && Entries(rows[1..], isPairList).Ok?
    ensures Entries(rows, isPairList)
         == Ok((if Active(rows[0]) then [EntryOf(rows[0], isPairList)] else []) + Entries(rows[1..], isPairList).value)
  {
  }

  /** One row lists its own entry when active and nothing otherwise. */
  lemma EntriesOfRow(row: seq<string>, isPairList: bool)
    requires |row| == RowWidth(isPairList)
    ensures Entries([row], isPairList) == Ok(if Active(row) then [EntryOf(row, isPairList)] else [])
  {
    assert [row][1..] == [];
    var head := if Active(row) then [EntryOf(row, isPairList)] else [];
    assert head + [] == head;
  }

  /** No listed name still carries the ".spi" extension. */
  lemma ListedNamesAreRaw(rows: seq<seq<string>>, isPairList: bool, e: Entry)
    requires Entries(rows, isPairList).Ok? && e in Entries(rows, isPairList).value
    ensures !Contains(e.micrograph, ".spi")
    ensures e.tilted.Some? <==> isPairList
    ensures e.tilted.Some? ==> !Contains(e.tilted.value, ".spi")
  {
    var k :| 0 <= k < |rows| && |rows[k]| == RowWidth(isPairList) && Active(rows[k]) && e == EntryOf(rows[k], isPairList);
    RenameLeavesNoSpi(rows[k][0]);
    if isPairList {
      RenameLeavesNoSpi(rows[k][1]);
    }
  }

  // ---------------------------------------------------------------------
  // Counting picked particles
  // ---------------------------------------------------------------------

  function PosFile(micrograph: string, typeLabel: string): string {
    micrograph + "." + typeLabel + ".pos"
  }

  /** CountPicked: the lines of the micrograph's .pos file for that typeLabel
      after the header, or 0 when there is no such file or no such line. */
  function CountPicked(fs: Files, micrograph: string, typeLabel: string): (n: nat)
    ensures PosFile(micrograph, typeLabel) !in fs ==> n == 0
    ensures PosFile(micrograph, typeLabel) in fs ==> n + 1 >= |ReadLines(fs[PosFile(micrograph, typeLabel)])|
    ensures n > 0 ==> n + 1 == |ReadLines(fs[PosFile(micrograph, typeLabel)])|
  {
    var posfile := PosFile(micrograph, typeLabel);
    if posfile in fs then
      var picked := |ReadLines(fs[posfile])| - 1;
      if picked > 0 then picked else 0
    else 0
  }

  /** A .pos file of a header line and one line per particle counts the
      particles. */
  lemma CountPickedOfPosFile(fs: Files, micrograph: string, typeLabel: string, header: string, particles: seq<string>)
    requires header != [] && header[|header| - 1] == '\n' && '\n' !in header[..|header| - 1]
    requires forall k :: 0 <= k < |particles| ==>
      particles[k] != [] && particles[k][|particles[k]| - 1] == '\n' && '\n' !in particles[k][..|particles[k]| - 1]
    ensures CountPicked(fs[PosFile(micrograph, typeLabel) := Flatten([header] + particles)], micrograph, typeLabel) == |particles|
  {
    var lines := [header] + particles;
    assert forall k :: 1 <= k < |lines| ==> lines[k] == particles[k - 1];
    ReadLinesOfLines(lines);
  }

  // ---------------------------------------------------------------------
  // Automatic picking: selection, distribution, launch
  // ---------------------------------------------------------------------

  /** InvertSelection: each check box's value f becomes 1 - f. */
  function InvertSelection(flags: seq<int>): (r: seq<int>)
    ensures |r| == |flags|
    ensures forall i :: 0 <= i < |flags| ==> r[i] + flags[i] == 1
  {
    seq(|flags|, i requires 0 <= i < |flags| => 1 - flags[i])
  }

  lemma InvertTwice(flags: seq<int>)
    ensures InvertSelection(InvertSelection(flags)) == flags
  {
  }

  /** The micrographs whose check box is set, in order. */
  function SelectedNames(flags: seq<int>, names: seq<string>): (r: seq<string>)
    requires |flags| == |names|
    ensures |r| <= |names|
    ensures forall n :: n in r <==> exists i :: 0 <= i < |names| && flags[i] != 0 && names[i] == n
    decreases |names|
  {
    if names == [] then []
    else
      var rest := SelectedNames(flags[1..], names[1..]);
      assert forall i :: 1 <= i < |names| ==> names[i] == names[1..][i - 1] && flags[i] == flags[1..][i - 1];
      (if flags[0] != 0 then [names[0]] else []) + rest
  }

  /** Selection keeps the micrographs' order: selecting from two blocks
      concatenates the two selections. */
  lemma {:induction false} SelectedNamesAppend(f1: seq<int>, n1: seq<string>, f2: seq<int>, n2: seq<string>)
    requires |f1| == |n1| && |f2| == |n2|
    ensures SelectedNames(f1 + f2, n1 + n2) == SelectedNames(f1, n1) + SelectedNames(f2, n2)
    decreases |n1|
  {
    if n1 == [] {
      assert f1 + f2 == f2 && n1 + n2 == n2;
    } else {
      assert (f1 + f2)[1..] == f1[1..] + f2 && (n1 + n2)[1..] == n1[1..] + n2;
      SelectedNamesAppend(f1[1..], n1[1..], f2, n2);
    }
  }

  /** One check box selects its micrograph exactly when it is set. */
  lemma SelectedNamesOfOne(flag: int, name: string)
    ensures SelectedNames([flag], [name]) == if flag != 0 then [name] else []
  {
    assert [name][1..] == [] && [flag][1..] == [];
  }

  /** For 0/1 check boxes, inverting selects exactly the micrographs that
      were not selected. */
  lemma {:induction false} InvertSelectsComplement(flags: seq<int>, names: seq<string>)
    requires |flags| == |names|
    requires forall i :: 0 <= i < |flags| ==> flags[i] == 0 || flags[i] == 1
    ensures |SelectedNames(InvertSelection(flags), names)| + |SelectedNames(flags, names)| == |names|
    decreases |names|
  {
    if names != [] {
      assert InvertSelection(flags)[1..] == InvertSelection(flags[1..]);
      InvertSelectsComplement(flags[1..], names[1..]);
    }
  }

  /** What rank 0 broadcasts and every rank splits: the selected names
      joined with '*'. */
  function Broadcast(selected: seq<string>): seq<string> {
    SplitChar(Join(selected, '*'), '*')
  }

  /** The broadcast delivers the selection unchanged when no name holds a
      '*', and a single empty name when nothing is selected. */
  lemma BroadcastRoundTrip(selected: seq<string>)
    requires forall i :: 0 <= i < |selected| ==> '*' !in selected[i]
    ensures selected != [] ==> Broadcast(selected) == selected
    ensures selected == [] ==> Broadcast(selected) == [""]
  {
    if selected != [] {
      SplitJoin(selected, '*');
    }
  }

  /** Rank `rank` of `nprocs` handles position i when (i+1) mod nprocs is its rank. */
  predicate Handles(i: nat, nprocs: nat, rank: nat)
    requires nprocs >= 1
  {
    (i + 1) % nprocs == rank
  }

  /** Every position is handled by exactly one rank. */
  lemma ExactlyOneRank(i: nat, nprocs: nat)
    requires nprocs >= 1
    ensures 0 <= (i + 1) % nprocs < nprocs && Handles(i, nprocs, (i + 1) % nprocs)
    ensures forall r: nat :: Handles(i, nprocs, r) ==> r == (i + 1) % nprocs
  {
  }

  datatype PickConfig = PickConfig(automaticPicking: bool, automaticName: string, threads: int)

  /** The argument string of the marking program for one micrograph. */
  function PickingArguments(cfg: PickConfig, micrograph: string, autoSelect: bool): string {
    var base := "-i " + micrograph;
    if !cfg.automaticPicking then base
    else
      var withAuto := base + " -auto ../" + cfg.automaticName;
      var withThreads := if cfg.threads > 1 then withAuto + " -thr " + IntToString(cfg.threads) else withAuto;
      withThreads + (if autoSelect then " -autoSelect" else " &")
  }

  /** One launch of the marking program: whether it first changes into the
      micrograph's directory, and its arguments. */
  datatype Launch = Launch(changesDirectory: bool, arguments: string)

  /** perform_picking: nothing for an empty name; otherwise the launch for
      the name's file part. */
  function PerformPicking(cfg: PickConfig, name: string, autoSelect: bool): (r: Option<Launch>)
    ensures r.None? <==> name == ""
    ensures r.Some? ==> r.value.changesDirectory == ('/' in name)
  {
    if name == "" then None
    else Some(Launch('/' in name, PickingArguments(cfg, Basename(name), autoSelect)))
  }

  /** The launches of one rank when automatic detection is pressed: rank 0
      broadcasts the selected names joined with '*', and every rank splits
      them back. When no name holds a '*' the rank launches the picking of
      exactly the selected micrographs at the positions it handles. */
  function Detect(cfg: PickConfig, flags: seq<int>, names: seq<string>, nprocs: nat, rank: nat): (r: seq<Launch>)
    requires |flags| == |names| && nprocs >= 1
    ensures |r| <= |Broadcast(SelectedNames(flags, names))|
    ensures (forall i :: 0 <= i < |names| ==> '*' !in names[i]) ==>
      r == Launches(cfg, SelectedNames(flags, names), nprocs, rank, 0)
  {
    var selected := SelectedNames(flags, names);
    var micrographs := Broadcast(selected);
    if forall i :: 0 <= i < |names| ==> '*' !in names[i] then
      SelectedKeepNames(flags, names, '*');
      BroadcastRoundTrip(selected);
      assert selected == [] ==> Launches(cfg, micrographs, nprocs, rank, 1) == [];
      Launches(cfg, micrographs, nprocs, rank, 0)
    else
      Launches(cfg, micrographs, nprocs, rank, 0)
  }

  /** A character no name holds is held by no selected name either. */
  lemma SelectedKeepNames(flags: seq<int>, names: seq<string>, c: char)
    requires |flags| == |names|
    requires forall i :: 0 <= i < |names| ==> c !in names[i]
    ensures var selected := SelectedNames(flags, names);
      forall i :: 0 <= i < |selected| ==> c !in selected[i]
  {
    var selected := SelectedNames(flags, names);
    forall i | 0 <= i < |selected| ensures c !in selected[i] {
      assert selected[i] in selected;
    }
  }

  function Launches(cfg: PickConfig, micrographs: seq<string>, nprocs: nat, rank: nat, from: nat): (r: seq<Launch>)
    requires nprocs >= 1 && from <= |micrographs|
    ensures |r| <= |micrographs| - from
    ensures forall k :: from <= k < |micrographs| && Handles(k, nprocs, rank) && micrographs[k] != "" ==>
      PerformPicking(cfg, micrographs[k], true).value in r
    ensures forall l :: l in r ==>
      (exists k :: from <= k < |micrographs| && Handles(k, nprocs, rank) &&
                   micrographs[k] != "" && PerformPicking(cfg, micrographs[k], true) == Some(l))
    decreases |micrographs| - from
  {
    if from == |micrographs| then []
    else
      var here := if Handles(from, nprocs, rank) then PerformPicking(cfg, micrographs[from], true) else None;
      (if here.Some? then [here.value] else []) + Launches(cfg, micrographs, nprocs, rank, from + 1)
  }

  /** The launches from position `from` on are those of positions from ..
      m-1 followed by those from m on: a rank launches in position order. */
  lemma {:induction false} LaunchesSplit(cfg: PickConfig, micrographs: seq<string>, nprocs: nat, rank: nat, from: nat, m: nat)
    requires nprocs >= 1 && from <= m <= |micrographs|
    ensures Launches(cfg, micrographs, nprocs, rank, from) ==
      Launches(cfg, micrographs[..m], nprocs, rank, from) + Launches(cfg, micrographs, nprocs, rank, m)
    decreases m - from
  {
    if from < m {
      LaunchesSplit(cfg, micrographs, nprocs, rank, from + 1, m);
      assert micrographs[..m][from] == micrographs[from];
      var here := if Handles(from, nprocs, rank) then PerformPicking(cfg, micrographs[from], true) else None;
      var head := if here.Some? then [here.value] else [];
      Seq.AppendAssociates(head, Launches(cfg, micrographs[..m], nprocs, rank, from + 1),
                           Launches(cfg, micrographs, nprocs, rank, m));
    }
  }

  /** Position k on its own launches the picking of its micrograph exactly
      when this rank handles it and the name is not empty. */
  lemma LaunchesAtOne(cfg: PickConfig, micrographs: seq<string>, nprocs: nat, rank: nat, k: nat)
    requires nprocs >= 1 && k < |micrographs|
    ensures Launches(cfg, micrographs[..k + 1], nprocs, rank, k) ==
      if Handles(k, nprocs, rank) && micrographs[k] != "" then [PerformPicking(cfg, micrographs[k], true).value] else []
  {
    assert micrographs[..k + 1][k] == micrographs[k];
  }

  lemma {:induction false} NothingSelected(flags: seq<int>, names: seq<string>)
    requires |flags| == |names|
    requires forall i :: 0 <= i < |flags| ==> flags[i] == 0
    ensures SelectedNames(flags, names) == []
    decreases |names|
  {
    if names != [] {
      NothingSelected(flags[1..], names[1..]);
    }
  }

  /** With nothing selected no rank launches anything. */
  lemma EmptySelectionLaunchesNothing(cfg: PickConfig, flags: seq<int>, names: seq<string>, nprocs: nat, rank: nat)
    requires |flags| == |names| && nprocs >= 1
    requires forall i :: 0 <= i < |flags| ==> flags[i] == 0
    ensures Detect(cfg, flags, names, nprocs, rank) == []
  {
    var sel := SelectedNames(flags, names);
    NothingSelected(flags, names);
    BroadcastRoundTrip(sel);
    assert Broadcast(sel) == [""];
  }

  /** print_warning: automatic picking on a list of tilted pairs aborts. */
  function CheckPairList(isPairList: bool, automaticPicking: bool): (r: Result<bool, PickError>)
    ensures r.Err? <==> isPairList && automaticPicking
    ensures r.Err? ==> r.error == PairAutoPicking
  {
    if isPairList && automaticPicking then Err(PairAutoPicking) else Ok(true)
  }

  /** Appending a word after a blank adds exactly that word. */
  lemma WordsAppend(s: string, w: string)
    requires w != [] && NoSpace(w)
    ensures Words(s + " " + w) == Words(s) + [w]
  {
    WordsSpaceJoin(s, ' ', w);
    WordsOfWord(w);
  }

  lemma BaseWords(micrograph: string)
    requires micrograph != [] && NoSpace(micrograph)
    ensures Words("-i " + micrograph) == ["-i", micrograph]
  {
    WordsOfWord("-i");
    WordsAppend("-i", micrograph);
    assert "-i " + micrograph == "-i" + " " + micrograph;
  }

  /** A flag followed by its value, appended with single spaces, adds
      exactly those two words. */
  lemma FlagWords(s: string, flag: string, value: string)
    requires flag != [] && NoSpace(flag) && value != [] && NoSpace(value)
    ensures Words(s + (" " + flag + " ") + value) == Words(s) + [flag, value]
  {
    WordsAppend(s, flag);
    WordsAppend(s + " " + flag, value);
    Seq.AppendRegroups(s, " ", flag, " ", value);
  }

  lemma NoSpaceAfterPrefix(prefix: string, name: string)
    requires NoSpace(prefix) && NoSpace(name)
    ensures NoSpace(prefix + name)
  {
    var w := prefix + name;
    forall k | 0 <= k < |w| ensures !IsSpace(w[k]) {
      if k >= |prefix| {
        assert w[k] == name[k - |prefix|];
      }
    }
  }

  lemma NoSpaceInDigits(s: string)
    requires AllDigits(s)
    ensures NoSpace(s)
  {
    forall k | 0 <= k < |s| ensures !IsSpace(s[k]) {
      assert IsDigit(s[k]);
    }
  }

  lemma AutoWords(base: string, name: string)
    requires NoSpace(name)
    ensures Words(base + " -auto ../" + name) == Words(base) + ["-auto", "../" + name]
  {
    assert NoSpace("-auto") && NoSpace("../");
    NoSpaceAfterPrefix("../", name);
    FlagWords(base, "-auto", "../" + name);
    assert " -auto ../" == (" " + "-auto" + " ") + "../";
    assert base + " -auto ../" + name == base + (" " + "-auto" + " ") + ("../" + name);
  }

  lemma ThreadWords(s: string, threads: int)
    requires threads > 1
    ensures Words(s + " -thr " + IntToString(threads)) == Words(s) + ["-thr", IntToString(threads)]
  {
    var t := IntToString(threads);
    NoSpaceInDigits(NatToString(threads));
    assert NoSpace("-thr");
    FlagWords(s, "-thr", t);
    assert " -thr " == " " + "-thr" + " ";
  }

  lemma LastWord(s: string, autoSelect: bool)
    ensures Words(s + (if autoSelect then " -autoSelect" else " &")) == Words(s) + [if autoSelect then "-autoSelect" else "&"]
  {
    if autoSelect {
      AutoSelectWord(s);
    } else {
      WordsAppend(s, "&");
      assert s + " &" == s + " " + "&";
    }
  }

  lemma AutoSelectWord(s: string)
    ensures Words(s + " -autoSelect") == Words(s) + ["-autoSelect"]
  {
    AutoSelectIsWord();
    WordsAppend(s, "-autoSelect");
    Seq.AppendAssociates(s, " ", "-autoSelect");
  }

  lemma AutoSelectIsWord()
    ensures NoSpace("-autoSelect")
    ensures " -autoSelect" == " " + "-autoSelect"
  {
    assert NoSpace("-auto") && NoSpace("Select");
    NoSpaceAfterPrefix("-auto", "Select");
    assert "-autoSelect" == "-auto" + "Select";
  }

  /** The marking program sees the micrograph after -i and, with automatic
      picking, the model after -auto, a thread count only when above one,
      and either -autoSelect or the background marker last. */
  lemma ArgumentWords(cfg: PickConfig, micrograph: string, autoSelect: bool)
    requires micrograph != [] && NoSpace(micrograph) && NoSpace(cfg.automaticName)
    ensures Words(PickingArguments(cfg, micrograph, autoSelect)) ==
      ["-i", micrograph] +
      (if !cfg.automaticPicking then []
       else ["-auto", "../" + cfg.automaticName]
            + (if cfg.threads > 1 then ["-thr", IntToString(cfg.threads)] else [])
            + [if autoSelect then "-autoSelect" else "&"])
  {
    var base := "-i " + micrograph;
    BaseWords(micrograph);
    if cfg.automaticPicking {
      var withAuto := base + " -auto ../" + cfg.automaticName;
      AutoWords(base, cfg.automaticName);
      var withThreads := if cfg.threads > 1 then withAuto + " -thr " + IntToString(cfg.threads) else withAuto;
      if cfg.threads > 1 {
        ThreadWords(withAuto, cfg.threads);
      }
      LastWord(withThreads, autoSelect);
    }
  }
}
