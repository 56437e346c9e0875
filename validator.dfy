/**
 * `validatePaths`: when both configured paths are correct it says so;
 * otherwise it warns which of them are incorrect and offers automatic
 * detection, and runs `guessPaths` when the user picks that offer.
 */
module Validator {
  import opened Wrappers
  import opened Strings
  import opened Host
  import opened Folders
  import opened Resolver

  const BothCorrectMessage: string := "Xcom 2: both SDK and game paths are configured correctly"
  const DetectAutomatically: string := "Detect automatically"

  /** The settings that failed their check, game first. */
  function ProblematicSettings(checks: Checks): (problems: seq<string>)
    ensures |problems| == (if checks.gamePathCorrect then 0 else 1) + (if checks.sdkPathCorrect then 0 else 1)
    ensures "game" in problems <==> !checks.gamePathCorrect
    ensures "SDK" in problems <==> !checks.sdkPathCorrect
    ensures !checks.gamePathCorrect ==> problems[0] == "game"
  {
    (if checks.gamePathCorrect then [] else ["game"]) + (if checks.sdkPathCorrect then [] else ["SDK"])
  }

  /** The warning's text for the given problematic settings. */
  function WarningText(problems: seq<string>): string
  {
    "Xcom 2: " + JoinWith(problems, " and ") + " path" + (if |problems| > 1 then "s are" else " is") + " incorrect"
  }

  function IncorrectPathsMessage(checks: Checks): string
  {
    WarningText(ProblematicSettings(checks))
  }

  /** The warning for the game path alone. */
  lemma GameOnlyWarningText()
    ensures IncorrectPathsMessage(Checks(false, true)) == "Xcom 2: game path is incorrect"
  {
    assert ProblematicSettings(Checks(false, true)) == ["game"];
  }

  /** The warning for the SDK path alone. */
  lemma SdkOnlyWarningText()
    ensures IncorrectPathsMessage(Checks(true, false)) == "Xcom 2: SDK path is incorrect"
  {
    assert ProblematicSettings(Checks(true, false)) == ["SDK"];
  }

  /** The warning for both paths: one sentence, in the plural. */
  lemma BothWarningText()
    ensures IncorrectPathsMessage(Checks(false, false)) == "Xcom 2: game and SDK paths are incorrect"
  {
    var problems := ProblematicSettings(Checks(false, false));
    assert problems == ["game", "SDK"];
    assert JoinWith(problems, " and ") == "game and SDK" by {
      assert problems[1..] == ["SDK"];
    }
  }

  /**
   * `validatePaths` against `settings` and `fs`; `selection` is the item the
   * user picks from the warning (None: the warning was dismissed), and the
   * last two parameters are what `guessPaths` would see.
   */
  function ValidateOutcome(settings: Settings, fs: FileSystem, selection: Option<string>,
                           programFiles: Option<string>, driveListing: Option<string>): Outcome
    requires HasConfiguredPaths(settings)
  {
    var checks := CheckConfiguredPaths(settings, fs);
    if checks.gamePathCorrect && checks.sdkPathCorrect then
      Outcome([ShowInformation(BothCorrectMessage)], false)
    else
      var warning := ShowWarning(IncorrectPathsMessage(checks), [DetectAutomatically]);
      if selection == Some(DetectAutomatically) then
        var guess := GuessOutcome(settings, fs, programFiles, driveListing);
        Outcome([warning] + guess.effects, guess.rejected)
      else
        Outcome([warning], false)
  }

  method ValidatePaths(settings: Settings, fs: FileSystem, selection: Option<string>,
                       programFiles: Option<string>, driveListing: Option<string>) returns (outcome: Outcome)
    requires HasConfiguredPaths(settings)
    ensures outcome == ValidateOutcome(settings, fs, selection, programFiles, driveListing)
  {
    var checks := CheckConfiguredPaths(settings, fs);
    if !checks.gamePathCorrect || !checks.sdkPathCorrect {
      var problematicSettings: seq<string> := [];
      if !checks.gamePathCorrect { problematicSettings := problematicSettings + ["game"]; }
      if !checks.sdkPathCorrect { problematicSettings := problematicSettings + ["SDK"]; }

      assert problematicSettings == ProblematicSettings(checks);
      var warning := ShowWarning(WarningText(problematicSettings), [DetectAutomatically]);
      if selection == Some(DetectAutomatically) {
        var guess := GuessPaths(settings, fs, programFiles, driveListing);
        outcome := Outcome([warning] + guess.effects, guess.rejected);
      } else {
        outcome := Outcome([warning], false);
      }
    } else {
      outcome := Outcome([ShowInformation(BothCorrectMessage)], false);
    }
  }

  /**
   * The command opens with the "configured correctly" notice exactly when
   * both paths pass their checks, and otherwise with the warning naming the
   * failed ones and offering detection.
   */
  lemma ValidateOpensWithVerdict(settings: Settings, fs: FileSystem, selection: Option<string>,
                                 programFiles: Option<string>, driveListing: Option<string>)
    requires HasConfiguredPaths(settings)
    ensures var effects := ValidateOutcome(settings, fs, selection, programFiles, driveListing).effects;
            var checks := CheckConfiguredPaths(settings, fs);
      && effects != []
      && (effects[0] == ShowInformation(BothCorrectMessage)
          <==> IsGameFolder(fs, settings[GamePathSettingPath]) && IsSdkFolder(fs, settings[SdkPathSettingPath]))
      && (effects[0] != ShowInformation(BothCorrectMessage) ==>
            effects[0] == ShowWarning(IncorrectPathsMessage(checks), [DetectAutomatically]))
  {
  }

  /**
   * Unless the user picks automatic detection, the command writes no
   * setting and does not fail; when they pick it, what follows the warning
   * is exactly what `guessPaths` does.
   */
  lemma {:induction false} ValidateWritesOnlyThroughDetection(settings: Settings, fs: FileSystem,
                                                              selection: Option<string>, programFiles: Option<string>,
                                                              driveListing: Option<string>, key: string)
    requires HasConfiguredPaths(settings)
    ensures var outcome := ValidateOutcome(settings, fs, selection, programFiles, driveListing);
            var checks := CheckConfiguredPaths(settings, fs);
      if selection == Some(DetectAutomatically) && !(checks.gamePathCorrect && checks.sdkPathCorrect) then
        var guess := GuessOutcome(settings, fs, programFiles, driveListing);
        && outcome.effects[1..] == guess.effects
        && outcome.rejected == guess.rejected
        && Written(outcome.effects, key) == Written(guess.effects, key)
      else
        && Written(outcome.effects, key) == []
        && !outcome.rejected
  {
    var outcome := ValidateOutcome(settings, fs, selection, programFiles, driveListing);
    WrittenOfConcat([outcome.effects[0]], outcome.effects[1..], key);
    assert outcome.effects == [outcome.effects[0]] + outcome.effects[1..];
    assert Written([outcome.effects[0]], key) == [];
  }
}
