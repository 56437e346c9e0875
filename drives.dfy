/**
 * `getMountedDrives`: the standard output of `wmic logicaldisk get name`
 * is cut at every "\r\r\n", the pieces that match /[A-Za-z]:/ are kept and
 * each kept piece is trimmed.
 */
module Drives {
  import opened Strings
  import opened Seqs

  const WmicLineSeparator: string := "\r\r\n"

  predicate IsAsciiLetter(c: char)
  {
    'A' <= c <= 'Z' || 'a' <= c <= 'z'
  }

  /** A letter at `i` immediately followed by a colon. */
  predicate DriveLetterAt(line: string, i: int)
  {
    0 <= i < |line| - 1 && IsAsciiLetter(line[i]) && line[i + 1] == ':'
  }

  /** `/[A-Za-z]:/.test(line)`: the pattern is unanchored. */
  predicate HasDriveLetter(line: string)
  {
    exists i :: 0 <= i < |line| && DriveLetterAt(line, i)
  }

  function GetMountedDrives(stdout: string): seq<string>
  {
    var kept := Filter(HasDriveLetter, Split(stdout, WmicLineSeparator));
    seq(|kept|, k requires 0 <= k < |kept| => Trim(kept[k]))
  }

  lemma LetterIsNotWhitespace(c: char)
    requires IsAsciiLetter(c)
    ensures !IsWhitespace(c)
  {
  }

  /** Trimming cuts only whitespace, so it never removes a letter-colon pair. */
  lemma TrimKeepsDriveLetter(line: string)
    requires HasDriveLetter(line)
    ensures HasDriveLetter(Trim(line))
  {
    var i :| 0 <= i < |line| && DriveLetterAt(line, i);
    var lo := ContentStart(line, 0);
    var hi := ContentEnd(line, lo, |line|);
    LetterIsNotWhitespace(line[i]);
    assert !IsWhitespace(line[i + 1]);
    assert lo <= i && i + 1 < hi;
    assert DriveLetterAt(Trim(line), i - lo);
  }

  /**
   * The drives are, in input order, the trimmed versions of exactly the
   * separator-delimited pieces that contain a letter followed by a colon:
   * the k-th drive is the trimmed piece at the k-th such position.
   */
  lemma {:induction false} MountedDrivesAreKeptPiecesTrimmed(stdout: string)
    ensures var pieces := Split(stdout, WmicLineSeparator);
      var idx := KeptIndices(HasDriveLetter, pieces, 0);
      var drives := GetMountedDrives(stdout);
      && |drives| == |idx|
      && (forall k :: 0 <= k < |drives| ==> idx[k] < |pieces| && drives[k] == Trim(pieces[idx[k]]))
      && (forall k, l :: 0 <= k < l < |idx| ==> idx[k] < idx[l])
      && (forall i :: 0 <= i < |pieces| ==> (i in idx <==> HasDriveLetter(pieces[i])))
  {
    var pieces := Split(stdout, WmicLineSeparator);
    FilterKeepsAcceptedInOrder(HasDriveLetter, pieces, 0);
    assert pieces[0..] == pieces;
  }

  /**
   * Every drive name returned holds a letter-colon pair and neither starts
   * nor ends with whitespace.
   */
  lemma {:induction false} MountedDrivesAreDriveNames(stdout: string)
    ensures var drives := GetMountedDrives(stdout);
      forall k :: 0 <= k < |drives| ==>
        HasDriveLetter(drives[k]) && !IsWhitespace(drives[k][0]) && !IsWhitespace(drives[k][|drives[k]| - 1])
  {
    var kept := Filter(HasDriveLetter, Split(stdout, WmicLineSeparator));
    forall k | 0 <= k < |kept| ensures HasDriveLetter(Trim(kept[k])) {
      TrimKeepsDriveLetter(kept[k]);
    }
  }
}
