/**
 * File names of a projection-matching run (protocol_projmatch.py).
 * Every iteration k works in its own directory Iter_k, and the protocol
 * precomputes, for the whole run, four lists of names indexed by iteration
 * number: what iteration k reconstructs, what it filters that into (the
 * next iteration's input), the angle docfiles it reads and writes, and the
 * masked reference it projects.
 */
module RunLayout {
  import opened Wrappers
  import opened Text

  // Fixed names of the protocol (protocol_projmatch.py, lines 492-507).
  const ReferenceVolumeName: string := "reference_volume.vol"
  const LibraryDir: string := "ReferenceLibrary"
  const ProjectLibraryRootName: string := "ReferenceLibrary/ref"
  const ProjMatchDir: string := "ProjMatchClasses"
  const ProjMatchRootName: string := "ProjMatchClasses/proj_match"
  const ForReconstructionSel: string := "reconstruction.sel"
  const MultiAlign2dSel: string := "multi_align2d.sel"
  const DocFileWithOriginalAngles: string := "original_angles.doc"
  const DocFileWithCurrentAngles: string := "current_angles.doc"
  const FilteredReconstruction: string := "filtered_reconstruction"
  const ReconstructedVolume: string := "reconstruction"
  const OutputFsc: string := "resolution.fsc"
  const CtfGroupDirectory: string := "CtfGroups"
  const CtfGroupRootName: string := "ctf"
  const CtfGroupSubsetFileName: string := "ctf_groups_subset_docfiles.sel"

  /** The directory of iteration k, relative to the working directory. */
  function IterDir(k: nat): string {
    "Iter_" + NatToString(k)
  }

  /** A file of iteration k as seen from a sibling iteration directory. */
  function IterName(k: nat, root: string): (r: string)
    ensures |r| > |root|
  {
    "../" + IterDir(k) + "/" + IterDir(k) + "_" + root
  }

  /** The names of iterations lo .. n-1 in order. */
  function IterNames(lo: nat, n: int, root: string): (r: seq<string>)
    ensures |r| == if n <= lo then 0 else n - lo
    ensures forall j :: 0 <= j < |r| ==> r[j] == IterName(lo + j, root)
    decreases n - lo
  {
    if n <= lo then [] else [IterName(lo, root)] + IterNames(lo + 1, n, root)
  }

  /** The list fill_name_vector builds: a placeholder, the user's name when it
      is longer than one character, then the files of iterations 1 .. n-1. */
  function FillNameVector(user: string, n: int, root: string): (r: seq<string>)
    ensures |r| == 1 + (if |user| > 1 then 1 else 0) + (if n <= 1 then 0 else n - 1)
    ensures r[0] == "dummy"
    ensures |user| > 1 ==> r[1] == user
  {
    ["dummy"] + (if |user| > 1 then [user] else []) + IterNames(1, n, root)
  }

  /** Where iteration k's name lands in the list: position k+1 with a user
      name, position k without one. */
  lemma FillNameVectorAt(user: string, n: int, root: string, k: nat)
    requires 1 <= k < n
    ensures FillNameVector(user, n, root)[k + (if |user| > 1 then 1 else 0)] == IterName(k, root)
  {
    var off := if |user| > 1 then 1 else 0;
    var tail := IterNames(1, n, root);
    var r := FillNameVector(user, n, root);
    assert r == ["dummy"] + (if |user| > 1 then [user] else []) + tail;
    assert r[k + off] == tail[k - 1];
  }

  /** Python list indexing with a non-negative index: an IndexError past the end. */
  function At(names: seq<string>, i: nat): (r: Option<string>)
    ensures r.Some? <==> i < |names|
    ensures r.Some? ==> r.value == names[i]
  {
    if i < |names| then Some(names[i]) else None
  }

  /** The four name lists of a run of `iterations` iterations (the protocol
      first adds one to the user's count, so the lists cover 1 .. iterations). */
  datatype Layout = Layout(
    reconstructed: seq<string>,
    filtered: seq<string>,
    docs: seq<string>,
    reference: seq<string>)

  function MakeLayout(userReference: string, iterations: int): (l: Layout)
    ensures |l.docs| >= 2 && l.docs[1] == "../" + DocFileWithOriginalAngles
  {
    var n := iterations + 1;
    Layout(
      FillNameVector("", n, ReconstructedVolume),
      FillNameVector(userReference, n, FilteredReconstruction),
      FillNameVector("../" + DocFileWithOriginalAngles, n + 1, DocFileWithCurrentAngles),
      FillNameVector("", n, ReferenceVolumeName))
  }

  /** Iteration k reconstructs into, and masks into, files of its own directory. */
  lemma OwnOutputs(userReference: string, iterations: int, k: nat)
    requires 1 <= k <= iterations
    ensures var l := MakeLayout(userReference, iterations);
      && At(l.reconstructed, k) == Some(IterName(k, ReconstructedVolume))
      && At(l.reference, k) == Some(IterName(k, ReferenceVolumeName))
  {
    FillNameVectorAt("", iterations + 1, ReconstructedVolume, k);
    FillNameVectorAt("", iterations + 1, ReferenceVolumeName, k);
  }

  /** The hand-off of volumes: iteration 1 masks the user's reference and
      iteration k filters into the name iteration k+1 masks, which is
      iteration k's filtered reconstruction. */
  lemma FilteredHandOff(userReference: string, iterations: int, k: nat)
    requires |userReference| > 1
    requires 1 <= k <= iterations
    ensures var l := MakeLayout(userReference, iterations);
      && At(l.filtered, 1) == Some(userReference)
      && At(l.filtered, k + 1) == Some(IterName(k, FilteredReconstruction))
  {
    FillNameVectorAt(userReference, iterations + 1, FilteredReconstruction, k);
  }

  /** Without a usable reference name (one character or none) the filtered
      list is one shorter: iteration k reads iteration k's own output and the
      last iteration's filter output has no name at all. */
  lemma ShortReferenceShift(userReference: string, iterations: int)
    requires |userReference| <= 1 && iterations >= 1
    ensures var l := MakeLayout(userReference, iterations);
      && At(l.filtered, 1) == Some(IterName(1, FilteredReconstruction))
      && At(l.filtered, iterations + 1) == None
  {
    FillNameVectorAt(userReference, iterations + 1, FilteredReconstruction, 1);
  }

  /** Without a usable reference name iteration k filters into the name
      iteration k+1 masks, which is iteration k+1's own filtered volume. */
  lemma ShortReferenceHandOff(userReference: string, iterations: int, k: nat)
    requires |userReference| <= 1
    requires 1 <= k && At(MakeLayout(userReference, iterations).filtered, k + 1).Some?
    ensures At(MakeLayout(userReference, iterations).filtered, k + 1) == Some(IterName(k + 1, FilteredReconstruction))
  {
    FillNameVectorAt(userReference, iterations + 1, FilteredReconstruction, k + 1);
  }

  /** The hand-off of angles: iteration 1 reads the original angles and
      iteration k writes the docfile iteration k+1 reads. */
  lemma DocHandOff(userReference: string, iterations: int, k: nat)
    requires 1 <= k <= iterations
    ensures var l := MakeLayout(userReference, iterations);
      && At(l.docs, 1) == Some("../" + DocFileWithOriginalAngles)
      && At(l.docs, k + 1) == Some(IterName(k, DocFileWithCurrentAngles))
  {
    FillNameVectorAt("../" + DocFileWithOriginalAngles, iterations + 2, DocFileWithCurrentAngles, k);
  }

  /** A digit string is recovered from the text it starts, up to a '/'. */
  lemma DigitsBeforeSlash(sa: string, sb: string, ra: string, rb: string)
    requires AllDigits(sa) && AllDigits(sb)
    requires sa + "/" + ra == sb + "/" + rb
    ensures sa == sb
  {
    var x := sa + "/" + ra;
    assert x[|sa|] == '/';
    assert (sb + "/" + rb)[|sb|] == '/';
    assert |sa| == |sb|;
    assert sa == x[..|sa|] == sb;
  }

  /** Different iterations never share a file: the digits of the iteration
      number run up to the first '/', so the name determines the number. */
  lemma IterNameInjective(a: nat, b: nat, root: string)
    requires IterName(a, root) == IterName(b, root)
    ensures a == b
  {
    var sa, sb := NatToString(a), NatToString(b);
    var ra, rb := IterDir(a) + "_" + root, IterDir(b) + "_" + root;
    IterNameAfterPrefix(a, root);
    IterNameAfterPrefix(b, root);
    DigitsBeforeSlash(sa, sb, ra, rb);
    NatToStringInjective(a, b);
  }

  /** Past "../Iter_" a name holds the iteration's digits, a '/' and the rest. */
  lemma IterNameAfterPrefix(k: nat, root: string)
    ensures |IterName(k, root)| >= 8
    ensures IterName(k, root)[8..] == NatToString(k) + "/" + (IterDir(k) + "_" + root)
  {
    var s, rest := NatToString(k), IterDir(k) + "_" + root;
    assert IterName(k, root) == "../Iter_" + (s + "/" + rest);
  }
}
