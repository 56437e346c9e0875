/**
 * The folder predicates: whether a path is an accessible directory, and
 * whether it is the game or the SDK installation, judged by a literal
 * trailing match on a fixed ending followed by that directory check.
 */
module Folders {
  import opened Strings
  import opened Host

  const GamePathEnding: string := "XCOM 2\\XCom2-WarOfTheChosen"
  const SdkPathEnding: string := "XCOM 2 War of the Chosen SDK"

  /**
   * `pathExists(path, F_OK)`: an access error of any kind resolves the
   * promise with false before the later `resolve(true)`, which is then
   * ignored; nothing is thrown.
   */
  predicate PathExists(fs: FileSystem, path: string)
  {
    path in fs.accessible
  }

  /** `isPathValidFolder`: accessible, and `stat` says it is a directory. */
  predicate IsPathValidFolder(fs: FileSystem, path: string)
  {
    PathExists(fs, path) && path in fs.directories
  }

  predicate IsGameFolder(fs: FileSystem, path: string)
  {
    EndsWith(path, GamePathEnding) && IsPathValidFolder(fs, path)
  }

  predicate IsSdkFolder(fs: FileSystem, path: string)
  {
    EndsWith(path, SdkPathEnding) && IsPathValidFolder(fs, path)
  }

  /** The two installations the extension looks after. */
  datatype Kind = Game | Sdk
  {
    /** Of a pair of per-kind values, game first, the one for this kind. */
    function Select<T>(game: T, sdk: T): T
    {
      match this
      case Game => game
      case Sdk => sdk
    }

    function Ending(): string
    {
      Select(GamePathEnding, SdkPathEnding)
    }
  }

  predicate IsKindFolder(fs: FileSystem, kind: Kind, path: string)
  {
    match kind
    case Game => IsGameFolder(fs, path)
    case Sdk => IsSdkFolder(fs, path)
  }

  /**
   * A path without the kind's ending is never that kind's folder, whatever
   * the filesystem holds; with the ending, it is exactly when it is
   * accessible and a directory.
   */
  lemma KindFolderExactly(fs: FileSystem, kind: Kind, path: string)
    ensures IsKindFolder(fs, kind, path) <==>
              EndsWith(path, kind.Ending()) && path in fs.accessible && path in fs.directories
  {
  }

  lemma WithoutEndingNeverKindFolder(kind: Kind, path: string)
    requires !EndsWith(path, kind.Ending())
    ensures forall fs :: !IsKindFolder(fs, kind, path)
  {
  }

  /**
   * A candidate built by joining a library with the kind's ending always
   * passes the suffix test, so only the directory check decides it.
   */
  lemma JoinedCandidateNeedsOnlyDirectory(fs: FileSystem, kind: Kind, library: string)
    ensures IsKindFolder(fs, kind, Join(library, kind.Ending())) <==>
              IsPathValidFolder(fs, Join(library, kind.Ending()))
  {
    JoinEndsWithSegment(library, kind.Ending());
  }

  /**
   * The suffix test is not aware of path components: an SDK folder whose
   * last component merely ends with the SDK ending is accepted.
   */
  lemma SuffixTestIgnoresComponentBoundary()
    ensures var p := "D:\\Old XCOM 2 War of the Chosen SDK";
      IsSdkFolder(FileSystem({p}, {p}), p)
  {
    var p := "D:\\Old XCOM 2 War of the Chosen SDK";
    assert p[|p| - |SdkPathEnding|..] == SdkPathEnding;
    EndsWithIsTail(p, SdkPathEnding);
  }
}
