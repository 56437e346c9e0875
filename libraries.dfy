/**
 * `findSteamLibraries`: the candidate Steam library roots are the Steam
 * folder under %ProgramFiles(x86)% (only when that variable is defined and
 * names an accessible directory) followed by one `SteamLibrary` folder per
 * mounted drive, in drive order; each is turned into its
 * `steamapps\common` folder and only accessible directories are kept, in
 * candidate order.
 */
module Libraries {
  import opened Wrappers
  import opened Host
  import opened Folders
  import opened Drives
  import opened Seqs

  /** `path.win32.join(root, 'steamapps', 'common')` */
  function GamesFolder(root: string): string
  {
    Join(Join(root, "steamapps"), "common")
  }

  /** The %ProgramFiles(x86)%\Steam root, present only when usable. */
  function ProgramFilesRoot(fs: FileSystem, programFiles: Option<string>): seq<string>
  {
    if programFiles.Some? && IsPathValidFolder(fs, programFiles.value)
    then [Join(programFiles.value, "Steam")]
    else []
  }

  function DriveRoots(drives: seq<string>): seq<string>
  {
    seq(|drives|, k requires 0 <= k < |drives| => Join(drives[k], "SteamLibrary"))
  }

  lemma DriveRootsExtend(drives: seq<string>, i: nat)
    requires i < |drives|
    ensures DriveRoots(drives[..i + 1]) == DriveRoots(drives[..i]) + [Join(drives[i], "SteamLibrary")]
  {
  }

  /** `roots.map(root => path.win32.join(root, 'steamapps', 'common'))` */
  function GamesFolders(roots: seq<string>): seq<string>
  {
    seq(|roots|, k requires 0 <= k < |roots| => GamesFolder(roots[k]))
  }

  /** The joined candidate list, before the existence filter. */
  function Candidates(fs: FileSystem, programFiles: Option<string>, drives: seq<string>): seq<string>
  {
    GamesFolders(ProgramFilesRoot(fs, programFiles) + DriveRoots(drives))
  }

  function IsValidFolderIn(fs: FileSystem): string -> bool
  {
    p => IsPathValidFolder(fs, p)
  }

  function SteamLibraries(fs: FileSystem, programFiles: Option<string>, drives: seq<string>): seq<string>
  {
    Filter(IsValidFolderIn(fs), Candidates(fs, programFiles, drives))
  }

  /**
   * `driveListing` is the standard output of the drive listing command, or
   * None when that command failed: the rejection is not caught, so the scan
   * fails as a whole.
   */
  method FindSteamLibraries(fs: FileSystem, programFiles: Option<string>, driveListing: Option<string>)
    returns (libraries: Option<seq<string>>)
    ensures libraries.None? <==> driveListing.None?
    ensures driveListing.Some? ==>
              libraries.value == SteamLibraries(fs, programFiles, GetMountedDrives(driveListing.value))
  {
    var possible: seq<string> := [];
    if programFiles.Some? && IsPathValidFolder(fs, programFiles.value) {
      possible := possible + [Join(programFiles.value, "Steam")];
    }

    if driveListing.None? {
      return None;
    }
    var drives := GetMountedDrives(driveListing.value);
    for i := 0 to |drives|
      invariant possible == ProgramFilesRoot(fs, programFiles) + DriveRoots(drives[..i])
    {
      DriveRootsExtend(drives, i);
      possible := possible + [Join(drives[i], "SteamLibrary")];
    }
    assert drives[..|drives|] == drives;

    possible := GamesFolders(possible);
    libraries := Some(Filter(IsValidFolderIn(fs), possible));
  }

  /**
   * The candidates: the Program Files entry first when usable, then one
   * entry per drive in drive order, all in `steamapps\common` form.
   */
  lemma CandidatesLayout(fs: FileSystem, programFiles: Option<string>, drives: seq<string>)
    ensures var c, usable := Candidates(fs, programFiles, drives),
                             programFiles.Some? && IsPathValidFolder(fs, programFiles.value);
      var offset := if usable then 1 else 0;
      && |c| == offset + |drives|
      && (usable ==> c[0] == GamesFolder(Join(programFiles.value, "Steam")))
      && (forall k :: 0 <= k < |drives| ==> c[offset + k] == GamesFolder(Join(drives[k], "SteamLibrary")))
  {
    var pf := ProgramFilesRoot(fs, programFiles);
    var roots := pf + DriveRoots(drives);
    var c := Candidates(fs, programFiles, drives);
    assert c == GamesFolders(roots);
    assert |c| == |pf| + |drives|;
    if pf != [] {
      assert c[0] == GamesFolder(roots[0]) && roots[0] == pf[0];
    }
    forall k | 0 <= k < |drives|
      ensures c[|pf| + k] == GamesFolder(Join(drives[k], "SteamLibrary"))
    {
      assert roots[|pf| + k] == DriveRoots(drives)[k];
    }
  }

  /**
   * The libraries are the valid candidates in candidate order: the k-th
   * library is the candidate at the k-th valid position, and a candidate is
   * kept exactly when it is an accessible directory.
   */
  lemma {:induction false} SteamLibrariesKeepValidCandidatesInOrder(
    fs: FileSystem, programFiles: Option<string>, drives: seq<string>)
    ensures var c := Candidates(fs, programFiles, drives);
      var idx := KeptIndices(IsValidFolderIn(fs), c, 0);
      var libs := SteamLibraries(fs, programFiles, drives);
      && |libs| == |idx|
      && (forall k :: 0 <= k < |libs| ==> idx[k] < |c| && libs[k] == c[idx[k]])
      && (forall k, l :: 0 <= k < l < |idx| ==> idx[k] < idx[l])
      && (forall i :: 0 <= i < |c| ==> (i in idx <==> IsPathValidFolder(fs, c[i])))
  {
    var c := Candidates(fs, programFiles, drives);
    FilterKeepsAcceptedInOrder(IsValidFolderIn(fs), c, 0);
    assert c[0..] == c;
  }

  /** Every library found is an accessible directory among the candidates. */
  lemma {:induction false} SteamLibrariesAreValidCandidates(
    fs: FileSystem, programFiles: Option<string>, drives: seq<string>, p: string)
    ensures p in SteamLibraries(fs, programFiles, drives) <==>
              p in Candidates(fs, programFiles, drives) && IsPathValidFolder(fs, p)
  {
    FilterMembership(IsValidFolderIn(fs), Candidates(fs, programFiles, drives), p);
  }

  /**
   * When the Program Files Steam library exists it comes first, before
   * every drive library.
   */
  lemma {:induction false} ProgramFilesLibraryComesFirst(
    fs: FileSystem, programFiles: Option<string>, drives: seq<string>)
    requires programFiles.Some? && IsPathValidFolder(fs, programFiles.value)
    requires IsPathValidFolder(fs, GamesFolder(Join(programFiles.value, "Steam")))
    ensures SteamLibraries(fs, programFiles, drives) != []
    ensures SteamLibraries(fs, programFiles, drives)[0] == GamesFolder(Join(programFiles.value, "Steam"))
  {
    var c := Candidates(fs, programFiles, drives);
    assert c[0] == GamesFolder(Join(programFiles.value, "Steam"));
    assert c == [c[0]] + c[1..];
  }

  /** Without a usable Program Files folder and without drives, nothing is found. */
  lemma NothingToScanFindsNothing(fs: FileSystem, programFiles: Option<string>)
    requires programFiles.None? || !IsPathValidFolder(fs, programFiles.value)
    ensures SteamLibraries(fs, programFiles, []) == []
  {
  }
}
