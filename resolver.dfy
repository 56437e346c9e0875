/**
 * `checkConfiguredPaths` and `guessPaths`: the configured game and SDK
 * paths are checked, and each one that is not correct is looked for, in
 * library order, as `<library>\<ending>`; the first match is written to the
 * settings and announced, and a warning follows when something was not
 * found.
 */
module Resolver {
  import opened Wrappers
  import opened Host
  import opened Folders
  import opened Drives
  import opened Libraries
  import opened Seqs

  const GamePathSettingPath: string := "highlander.gameroot"
  const SdkPathSettingPath: string := "highlander.sdkroot"

  const AlreadyConfiguredMessage: string := "Xcom 2: both SDK and game paths are already configured correctly"
  const DetectionFailedMessage: string := "Xcom 2: failed to automatically detect paths - please set them manually"

  function SettingKey(kind: Kind): string
  {
    kind.Select(GamePathSettingPath, SdkPathSettingPath)
  }

  function FoundMessage(kind: Kind, path: string): string
  {
    match kind
    case Game => "Xcom 2: game path found (" + path + ")"
    case Sdk => "Xcom 2: SDK path found (" + path + ")"
  }

  /**
   * Both settings hold a string. The source casts what it reads to a
   * string and calls `endsWith` on it, which throws on an absent value.
   */
  predicate HasConfiguredPaths(settings: Settings)
  {
    GamePathSettingPath in settings && SdkPathSettingPath in settings
  }

  datatype Checks = Checks(gamePathCorrect: bool, sdkPathCorrect: bool)
  {
    predicate IsCorrect(kind: Kind)
    {
      kind.Select(gamePathCorrect, sdkPathCorrect)
    }
  }

  function CheckConfiguredPaths(settings: Settings, fs: FileSystem): Checks
    requires HasConfiguredPaths(settings)
  {
    Checks(IsGameFolder(fs, settings[GamePathSettingPath]), IsSdkFolder(fs, settings[SdkPathSettingPath]))
  }

  /** A configured path is judged correct exactly when its folder check passes. */
  lemma CheckedExactlyByFolderTest(settings: Settings, fs: FileSystem, kind: Kind)
    requires HasConfiguredPaths(settings)
    ensures CheckConfiguredPaths(settings, fs).IsCorrect(kind) <==> IsKindFolder(fs, kind, settings[SettingKey(kind)])
  {
  }

  /** What one detection of `kind` at `path` does to the host. */
  function Found(kind: Kind, path: string): seq<Effect>
  {
    [UpdateSetting(SettingKey(kind), path), ShowInformation(FoundMessage(kind, path))]
  }

  /** The library whose `<library>\<ending>` is that kind's folder. */
  predicate Matches(fs: FileSystem, kind: Kind, library: string)
  {
    IsKindFolder(fs, kind, Join(library, kind.Ending()))
  }

  function MatchesIn(fs: FileSystem, kind: Kind): string -> bool
  {
    library => Matches(fs, kind, library)
  }

  /**
   * Reference definition of what detection should find: the smallest
   * library index from `from` on that matches, if any.
   */
  function FirstMatch(fs: FileSystem, kind: Kind, libraries: seq<string>, from: nat): Option<nat>
    requires from <= |libraries|
  {
    FirstIndex(MatchesIn(fs, kind), libraries, from)
  }

  /** The effects of the detection loop, and which kinds it left unfound. */
  datatype ScanResult = ScanResult(effects: seq<Effect>, needGame: bool, needSdk: bool)
  {
    predicate StillNeeds(kind: Kind)
    {
      kind.Select(needGame, needSdk)
    }
  }

  function Prepend(effects: seq<Effect>, r: ScanResult): ScanResult
  {
    ScanResult(effects + r.effects, r.needGame, r.needSdk)
  }

  /**
   * One pass of the detection loop's body over `library`: the game is
   * tried before the SDK, each only while still needed.
   */
  function ScanStep(fs: FileSystem, library: string, needGame: bool, needSdk: bool): ScanResult
  {
    var gamePath, sdkPath := Join(library, GamePathEnding), Join(library, SdkPathEnding);
    var gameFound := needGame && IsGameFolder(fs, gamePath);
    var sdkFound := needSdk && IsSdkFolder(fs, sdkPath);
    ScanResult((if gameFound then Found(Game, gamePath) else [])
               + (if sdkFound then Found(Sdk, sdkPath) else []),
               needGame && !gameFound, needSdk && !sdkFound)
  }

  /**
   * The detection loop from `libraries[i]` on; it stops after the first
   * library at whose end nothing is needed any more.
   */
  function Scan(fs: FileSystem, libraries: seq<string>, i: nat, needGame: bool, needSdk: bool): ScanResult
    requires i <= |libraries|
    decreases |libraries| - i
  {
    if i == |libraries| then ScanResult([], needGame, needSdk)
    else
      var step := ScanStep(fs, libraries[i], needGame, needSdk);
      if !step.needGame && !step.needSdk then step
      else Prepend(step.effects, Scan(fs, libraries, i + 1, step.needGame, step.needSdk))
  }

  lemma ConcatAssociates(a: seq<Effect>, b: seq<Effect>, c: seq<Effect>)
    ensures a + b + c == a + (b + c)
  {
  }

  lemma PrependTwice(a: seq<Effect>, b: seq<Effect>, r: ScanResult)
    ensures Prepend(a, Prepend(b, r)) == Prepend(a + b, r)
  {
    ConcatAssociates(a, b, r.effects);
  }

  /** What the resolver does once it has the libraries. */
  function Resolve(fs: FileSystem, libraries: seq<string>, needGame: bool, needSdk: bool): seq<Effect>
  {
    var r := Scan(fs, libraries, 0, needGame, needSdk);
    r.effects + if r.needGame || r.needSdk then [ShowWarning(DetectionFailedMessage, [])] else []
  }

  /** The outcome of running a command: its effects, and whether it was rejected. */
  datatype Outcome = Outcome(effects: seq<Effect>, rejected: bool)

  /**
   * `guessPaths` run against `settings` and `fs`, with the value of
   * %ProgramFiles(x86)% and the drive listing's output (None: the command
   * failed, and the rejection goes uncaught).
   */
  function GuessOutcome(settings: Settings, fs: FileSystem, programFiles: Option<string>,
                        driveListing: Option<string>): Outcome
    requires HasConfiguredPaths(settings)
  {
    var checks := CheckConfiguredPaths(settings, fs);
    if checks.gamePathCorrect && checks.sdkPathCorrect then
      Outcome([ShowInformation(AlreadyConfiguredMessage)], false)
    else if driveListing.None? then
      Outcome([], true)
    else
      var libraries := SteamLibraries(fs, programFiles, GetMountedDrives(driveListing.value));
      Outcome(Resolve(fs, libraries, !checks.gamePathCorrect, !checks.sdkPathCorrect), false)
  }

  /**
   * With both paths already correct, `guessPaths` only reports so: it writes
   * nothing and its result does not depend on the libraries at all.
   */
  lemma GuessStopsWhenBothCorrect(settings: Settings, fs: FileSystem, programFiles: Option<string>,
                                  driveListing: Option<string>, key: string)
    requires HasConfiguredPaths(settings)
    requires IsGameFolder(fs, settings[GamePathSettingPath]) && IsSdkFolder(fs, settings[SdkPathSettingPath])
    ensures GuessOutcome(settings, fs, programFiles, driveListing)
            == Outcome([ShowInformation(AlreadyConfiguredMessage)], false)
    ensures Written(GuessOutcome(settings, fs, programFiles, driveListing).effects, key) == []
  {
    assert [ShowInformation(AlreadyConfiguredMessage)][1..] == [];
  }

  /**
   * The detection loop of `guessPaths` and the warning after it, over the
   * libraries found, for the kinds still needed.
   */
  method DetectInLibraries(fs: FileSystem, libraries: seq<string>, needGame: bool, needSdk: bool)
    returns (effects: seq<Effect>)
    requires needGame || needSdk
    ensures effects == Resolve(fs, libraries, needGame, needSdk)
  {
    ghost var whole := Scan(fs, libraries, 0, needGame, needSdk);
    var needGame, needSdk := needGame, needSdk;
    effects := [];
    var i := 0;
    while i < |libraries|
      invariant 0 <= i <= |libraries|
      invariant needGame || needSdk
      invariant whole == Prepend(effects, Scan(fs, libraries, i, needGame, needSdk))
    {
      ghost var before, needGameBefore, needSdkBefore := effects, needGame, needSdk;
      ghost var gameEffects: seq<Effect>, sdkEffects: seq<Effect> := [], [];
      if needGame {
        var gamePath := Join(libraries[i], GamePathEnding);
        if IsGameFolder(fs, gamePath) {
          needGame := false;
          gameEffects := Found(Game, gamePath);
          effects := effects + Found(Game, gamePath);
        }
      }
      assert effects == before + gameEffects;

      if needSdk {
        var sdkPath := Join(libraries[i], SdkPathEnding);
        if IsSdkFolder(fs, sdkPath) {
          needSdk := false;
          sdkEffects := Found(Sdk, sdkPath);
          effects := effects + Found(Sdk, sdkPath);
        }
      }
      assert effects == before + gameEffects + sdkEffects;

      ghost var step := ScanStep(fs, libraries[i], needGameBefore, needSdkBefore);
      assert step == ScanResult(gameEffects + sdkEffects, needGame, needSdk);
      ConcatAssociates(before, gameEffects, sdkEffects);

      if !needGame && !needSdk {
        assert whole == ScanResult(effects, needGame, needSdk);
        break;
      }
      PrependTwice(before, step.effects, Scan(fs, libraries, i + 1, needGame, needSdk));
      i := i + 1;
    }
    assert effects + [] == effects;
    assert whole == ScanResult(effects, needGame, needSdk);

    if needGame || needSdk {
      effects := effects + [ShowWarning(DetectionFailedMessage, [])];
    }
  }

  method GuessPaths(settings: Settings, fs: FileSystem, programFiles: Option<string>,
                    driveListing: Option<string>) returns (outcome: Outcome)
    requires HasConfiguredPaths(settings)
    ensures outcome == GuessOutcome(settings, fs, programFiles, driveListing)
  {
    var checks := CheckConfiguredPaths(settings, fs);
    if checks.gamePathCorrect && checks.sdkPathCorrect {
      return Outcome([ShowInformation(AlreadyConfiguredMessage)], false);
    }

    var needGame := !checks.gamePathCorrect;
    var needSdk := !checks.sdkPathCorrect;

    var found := FindSteamLibraries(fs, programFiles, driveListing);
    if found.None? {
      return Outcome([], true);
    }
    var effects := DetectInLibraries(fs, found.value, needGame, needSdk);
    return Outcome(effects, false);
  }

  lemma SettingKeysDiffer()
    ensures SettingKey(Game) != SettingKey(Sdk)
  {
    assert SettingKey(Game)[11] != SettingKey(Sdk)[11];
  }

  /** A detection writes its own kind's key once, with the path found. */
  lemma WrittenByFound(kind: Kind, path: string, key: string)
    ensures Written(Found(kind, path), key) == if key == SettingKey(kind) then [path] else []
  {
    var f := Found(kind, path);
    assert f[1..][1..] == [];
    assert Written(f[1..], key) == [];
  }

  /**
   * One library's pass writes `kind`'s key once, with `<library>\<ending>`,
   * exactly when that kind was needed and matches there, and otherwise not
   * at all; the kind stays needed exactly when it was needed and missed.
   */
  lemma StepWritesOnMatch(fs: FileSystem, library: string, needGame: bool, needSdk: bool, kind: Kind)
    ensures var step := ScanStep(fs, library, needGame, needSdk);
            var hit := kind.Select(needGame, needSdk) && Matches(fs, kind, library);
      && Written(step.effects, SettingKey(kind)) == (if hit then [Join(library, kind.Ending())] else [])
      && step.StillNeeds(kind) == (kind.Select(needGame, needSdk) && !hit)
  {
    SettingKeysDiffer();
    var gamePath, sdkPath := Join(library, GamePathEnding), Join(library, SdkPathEnding);
    var gameEffects := if needGame && IsGameFolder(fs, gamePath) then Found(Game, gamePath) else [];
    var sdkEffects := if needSdk && IsSdkFolder(fs, sdkPath) then Found(Sdk, sdkPath) else [];
    WrittenOfConcat(gameEffects, sdkEffects, SettingKey(kind));
    WrittenByFound(Game, gamePath, SettingKey(kind));
    WrittenByFound(Sdk, sdkPath, SettingKey(kind));
  }

  /**
   * The detection loop writes `kind`'s key at most once: with the first
   * matching library's `<library>\<ending>` when the kind was needed and
   * some library matches, and not at all otherwise. The kind is left
   * unfound exactly when it was needed and no library matches.
   */
  lemma {:induction false} ScanWritesFirstMatch(fs: FileSystem, libraries: seq<string>, i: nat,
                                                needGame: bool, needSdk: bool, kind: Kind)
    requires i <= |libraries|
    ensures var r := Scan(fs, libraries, i, needGame, needSdk);
            var found := FirstMatch(fs, kind, libraries, i);
            var needed := kind.Select(needGame, needSdk);
      && Written(r.effects, SettingKey(kind))
           == (if needed && found.Some? then [Join(libraries[found.value], kind.Ending())] else [])
      && r.StillNeeds(kind) == (needed && found.None?)
    decreases |libraries| - i
  {
    if i < |libraries| {
      var step := ScanStep(fs, libraries[i], needGame, needSdk);
      StepWritesOnMatch(fs, libraries[i], needGame, needSdk, kind);
      if step.needGame || step.needSdk {
        var rest := Scan(fs, libraries, i + 1, step.needGame, step.needSdk);
        ScanWritesFirstMatch(fs, libraries, i + 1, step.needGame, step.needSdk, kind);
        WrittenOfConcat(step.effects, rest.effects, SettingKey(kind));
      }
    }
  }

  /**
   * A settings write followed by the found-it notice for it: the game key
   * with the game notice, or the SDK key with the SDK notice, naming the
   * value written.
   */
  predicate AnnouncesWrite(write: Effect, notice: Effect)
  {
    && write.UpdateSetting?
    && ((write.key == GamePathSettingPath && notice == ShowInformation(FoundMessage(Game, write.value)))
        || (write.key == SdkPathSettingPath && notice == ShowInformation(FoundMessage(Sdk, write.value))))
  }

  /** Effects made only of settings writes, each followed by its notice. */
  predicate AnnouncedWrites(effects: seq<Effect>)
    decreases |effects|
  {
    effects == [] || (|effects| >= 2 && AnnouncesWrite(effects[0], effects[1]) && AnnouncedWrites(effects[2..]))
  }

  lemma FoundIsAnnounced(kind: Kind, path: string)
    ensures AnnouncedWrites(Found(kind, path))
  {
    assert Found(kind, path)[2..] == [];
  }

  lemma {:induction false} AnnouncedWritesConcat(a: seq<Effect>, b: seq<Effect>)
    requires AnnouncedWrites(a) && AnnouncedWrites(b)
    ensures AnnouncedWrites(a + b)
    decreases |a|
  {
    if a == [] {
      assert a + b == b;
    } else {
      AnnouncedWritesConcat(a[2..], b);
      assert (a + b)[2..] == a[2..] + b;
      assert (a + b)[0] == a[0] && (a + b)[1] == a[1];
    }
  }

  /**
   * Announced writes touch no key but the two settings keys and hold no
   * warning.
   */
  lemma {:induction false} AnnouncedWritesTouchOnlySettingKeys(effects: seq<Effect>, key: string)
    requires AnnouncedWrites(effects)
    ensures key != GamePathSettingPath && key != SdkPathSettingPath ==> Written(effects, key) == []
    ensures forall e :: e in effects ==> !e.ShowWarning?
    decreases |effects|
  {
    if effects != [] {
      AnnouncedWritesTouchOnlySettingKeys(effects[2..], key);
      assert effects[1..][1..] == effects[2..];
      assert effects == [effects[0], effects[1]] + effects[2..];
    }
  }

  lemma StepAnnouncesWrites(fs: FileSystem, library: string, needGame: bool, needSdk: bool)
    ensures AnnouncedWrites(ScanStep(fs, library, needGame, needSdk).effects)
  {
    var gamePath, sdkPath := Join(library, GamePathEnding), Join(library, SdkPathEnding);
    FoundIsAnnounced(Game, gamePath);
    FoundIsAnnounced(Sdk, sdkPath);
    var gameEffects := if needGame && IsGameFolder(fs, gamePath) then Found(Game, gamePath) else [];
    var sdkEffects := if needSdk && IsSdkFolder(fs, sdkPath) then Found(Sdk, sdkPath) else [];
    AnnouncedWritesConcat(gameEffects, sdkEffects);
  }

  /**
   * The detection loop only writes the two settings keys, each write
   * followed by the found-it notice naming the path written, and shows no
   * warning.
   */
  lemma {:induction false} ScanOnlyAnnouncesWrites(fs: FileSystem, libraries: seq<string>, i: nat,
                                                   needGame: bool, needSdk: bool)
    requires i <= |libraries|
    ensures AnnouncedWrites(Scan(fs, libraries, i, needGame, needSdk).effects)
    ensures forall e :: e in Scan(fs, libraries, i, needGame, needSdk).effects ==> !e.ShowWarning?
    decreases |libraries| - i
  {
    var r := Scan(fs, libraries, i, needGame, needSdk);
    if i < |libraries| {
      var step := ScanStep(fs, libraries[i], needGame, needSdk);
      StepAnnouncesWrites(fs, libraries[i], needGame, needSdk);
      if step.needGame || step.needSdk {
        ScanOnlyAnnouncesWrites(fs, libraries, i + 1, step.needGame, step.needSdk);
        AnnouncedWritesConcat(step.effects, Scan(fs, libraries, i + 1, step.needGame, step.needSdk).effects);
      }
    }
    AnnouncedWritesTouchOnlySettingKeys(r.effects, GamePathSettingPath);
  }

  /**
   * After the loop, the failure warning is shown exactly when some needed
   * kind matched no library.
   */
  lemma ResolveWarnsExactlyWhenMissing(fs: FileSystem, libraries: seq<string>, needGame: bool, needSdk: bool)
    ensures ShowWarning(DetectionFailedMessage, []) in Resolve(fs, libraries, needGame, needSdk)
            <==> (needGame && FirstMatch(fs, Game, libraries, 0).None?)
                 || (needSdk && FirstMatch(fs, Sdk, libraries, 0).None?)
  {
    ScanWritesFirstMatch(fs, libraries, 0, needGame, needSdk, Game);
    ScanWritesFirstMatch(fs, libraries, 0, needGame, needSdk, Sdk);
    ScanOnlyAnnouncesWrites(fs, libraries, 0, needGame, needSdk);
  }

  /** The warning after the loop writes nothing. */
  lemma ResolveWritesFirstMatch(fs: FileSystem, libraries: seq<string>, needGame: bool, needSdk: bool, kind: Kind)
    ensures var found := FirstMatch(fs, kind, libraries, 0);
      Written(Resolve(fs, libraries, needGame, needSdk), SettingKey(kind))
      == (if kind.Select(needGame, needSdk) && found.Some? then [Join(libraries[found.value], kind.Ending())] else [])
  {
    var r := Scan(fs, libraries, 0, needGame, needSdk);
    ScanWritesFirstMatch(fs, libraries, 0, needGame, needSdk, kind);
    var warning: seq<Effect> := if r.needGame || r.needSdk then [ShowWarning(DetectionFailedMessage, [])] else [];
    WrittenOfConcat(r.effects, warning, SettingKey(kind));
  }

  /** The libraries `guessPaths` scans when the drive listing succeeded. */
  function ScannedLibraries(fs: FileSystem, programFiles: Option<string>, listing: string): seq<string>
  {
    SteamLibraries(fs, programFiles, GetMountedDrives(listing))
  }

  /**
   * `guessPaths` never writes the key of a path that was already correct,
   * and writes each other key at most once: with `<library>\<ending>` for
   * the first scanned library that matches, if there is one.
   */
  lemma GuessWritesFirstMatchOnly(settings: Settings, fs: FileSystem, programFiles: Option<string>,
                                  driveListing: Option<string>, kind: Kind)
    requires HasConfiguredPaths(settings)
    ensures var written := Written(GuessOutcome(settings, fs, programFiles, driveListing).effects, SettingKey(kind));
      if CheckConfiguredPaths(settings, fs).IsCorrect(kind) || driveListing.None? then written == []
      else
        var libraries := ScannedLibraries(fs, programFiles, driveListing.value);
        match FirstMatch(fs, kind, libraries, 0)
        case Some(i) => written == [Join(libraries[i], kind.Ending())]
        case None => written == []
  {
    var checks := CheckConfiguredPaths(settings, fs);
    if !(checks.gamePathCorrect && checks.sdkPathCorrect) && driveListing.Some? {
      var libraries := ScannedLibraries(fs, programFiles, driveListing.value);
      ResolveWritesFirstMatch(fs, libraries, !checks.gamePathCorrect, !checks.sdkPathCorrect, kind);
    }
  }

  /** `guessPaths` writes no setting other than the game and SDK paths. */
  lemma GuessWritesNoOtherKey(settings: Settings, fs: FileSystem, programFiles: Option<string>,
                              driveListing: Option<string>, key: string)
    requires HasConfiguredPaths(settings)
    requires key != GamePathSettingPath && key != SdkPathSettingPath
    ensures Written(GuessOutcome(settings, fs, programFiles, driveListing).effects, key) == []
  {
    var checks := CheckConfiguredPaths(settings, fs);
    if checks.gamePathCorrect && checks.sdkPathCorrect {
      assert [ShowInformation(AlreadyConfiguredMessage)][1..] == [];
    } else if driveListing.Some? {
      var libraries := ScannedLibraries(fs, programFiles, driveListing.value);
      var r := Scan(fs, libraries, 0, !checks.gamePathCorrect, !checks.sdkPathCorrect);
      ScanOnlyAnnouncesWrites(fs, libraries, 0, !checks.gamePathCorrect, !checks.sdkPathCorrect);
      AnnouncedWritesTouchOnlySettingKeys(r.effects, key);
      var warning: seq<Effect> := if r.needGame || r.needSdk then [ShowWarning(DetectionFailedMessage, [])] else [];
      assert warning == [] || warning[1..] == [];
      WrittenOfConcat(r.effects, warning, key);
    }
  }

  /**
   * When something was needed and the drive listing succeeded, the failure
   * warning is shown exactly when a needed kind matched no scanned library;
   * in particular, when no library was found at all.
   */
  lemma GuessWarnsExactlyWhenMissing(settings: Settings, fs: FileSystem, programFiles: Option<string>,
                                     listing: string)
    requires HasConfiguredPaths(settings)
    requires var checks := CheckConfiguredPaths(settings, fs);
      !(checks.gamePathCorrect && checks.sdkPathCorrect)
    ensures var checks := CheckConfiguredPaths(settings, fs);
            var libraries := ScannedLibraries(fs, programFiles, listing);
      ShowWarning(DetectionFailedMessage, []) in GuessOutcome(settings, fs, programFiles, Some(listing)).effects
      <==> (!checks.gamePathCorrect && FirstMatch(fs, Game, libraries, 0).None?)
           || (!checks.sdkPathCorrect && FirstMatch(fs, Sdk, libraries, 0).None?)
    ensures ScannedLibraries(fs, programFiles, listing) == [] ==>
              ShowWarning(DetectionFailedMessage, []) in GuessOutcome(settings, fs, programFiles, Some(listing)).effects
  {
    var checks := CheckConfiguredPaths(settings, fs);
    ResolveWarnsExactlyWhenMissing(fs, ScannedLibraries(fs, programFiles, listing),
                                   !checks.gamePathCorrect, !checks.sdkPathCorrect);
  }

  /**
   * After a run that completed without the failure warning, each key holds
   * a folder of its kind: the one configured before when it was correct,
   * the one detected otherwise.
   */
  lemma GuessLeavesKindCorrect(settings: Settings, fs: FileSystem, programFiles: Option<string>,
                               driveListing: Option<string>, kind: Kind)
    requires HasConfiguredPaths(settings)
    requires var first := GuessOutcome(settings, fs, programFiles, driveListing);
      !first.rejected && ShowWarning(DetectionFailedMessage, []) !in first.effects
    ensures var settings' := Apply(settings, GuessOutcome(settings, fs, programFiles, driveListing).effects);
      SettingKey(kind) in settings' && IsKindFolder(fs, kind, settings'[SettingKey(kind)])
  {
    var effects := GuessOutcome(settings, fs, programFiles, driveListing).effects;
    ApplyReadsLastWrite(settings, effects, SettingKey(kind));
    GuessWritesFirstMatchOnly(settings, fs, programFiles, driveListing, kind);
    if !CheckConfiguredPaths(settings, fs).IsCorrect(kind) {
      GuessWarnsExactlyWhenMissing(settings, fs, programFiles, driveListing.value);
    }
  }

  /**
   * Running `guessPaths` again after a run that completed without the
   * failure warning, on the settings that run left behind, only reports
   * that both paths are already configured, whatever the libraries are.
   */
  lemma GuessIsIdempotent(settings: Settings, fs: FileSystem, programFiles: Option<string>,
                          driveListing: Option<string>, programFiles': Option<string>,
                          driveListing': Option<string>)
    requires HasConfiguredPaths(settings)
    requires var first := GuessOutcome(settings, fs, programFiles, driveListing);
      !first.rejected && ShowWarning(DetectionFailedMessage, []) !in first.effects
    ensures var settings' := Apply(settings, GuessOutcome(settings, fs, programFiles, driveListing).effects);
      && HasConfiguredPaths(settings')
      && GuessOutcome(settings', fs, programFiles', driveListing')
         == Outcome([ShowInformation(AlreadyConfiguredMessage)], false)
  {
    GuessLeavesKindCorrect(settings, fs, programFiles, driveListing, Game);
    GuessLeavesKindCorrect(settings, fs, programFiles, driveListing, Sdk);
  }
}
