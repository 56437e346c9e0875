/**
 * What the extension sees of its host, as plain values: the filesystem as
 * answered by `fs.access` and `fs.stat`, Windows path joining, the
 * extension's settings section, and the effects a command has on the host
 * (settings written, notifications shown), in the order it causes them.
 */
module Host {
  import opened Strings

  /**
   * `accessible`: the paths `fs.access(path, F_OK)` accepts (any access
   * error, permission errors included, means "not accessible");
   * `directories`: the paths `fs.stat(path).isDirectory()` holds for.
   */
  datatype FileSystem = FileSystem(accessible: set<string>, directories: set<string>)

  /**
   * `path.win32.join(base, segment)` for a segment without leading
   * separators or dot components: a backslash goes between the two unless
   * `base` is empty or already ends with one.
   */
  function Join(base: string, segment: string): string
  {
    if base == [] then segment
    else if base[|base| - 1] == '\\' then base + segment
    else base + "\\" + segment
  }

  /** Whatever `base` is, the joined path ends with the joined segment. */
  lemma JoinEndsWithSegment(base: string, segment: string)
    ensures EndsWith(Join(base, segment), segment)
  {
    var p := Join(base, segment);
    assert p[|p| - |segment|..] == segment;
    EndsWithIsTail(p, segment);
  }

  /** The extension's settings section: key to configured string. */
  type Settings = map<string, string>

  datatype Effect =
    | UpdateSetting(key: string, value: string)  // a global settings write
    | ShowInformation(message: string)
    | ShowWarning(message: string, items: seq<string>)  // items: the actions offered

  /** The values written to `key`, in the order they were written. */
  function Written(effects: seq<Effect>, key: string): seq<string>
  {
    if effects == [] then []
    else
      (if effects[0].UpdateSetting? && effects[0].key == key then [effects[0].value] else [])
      + Written(effects[1..], key)
  }

  /** The settings after every write in `effects` has been applied in order. */
  function Apply(settings: Settings, effects: seq<Effect>): Settings
    decreases |effects|
  {
    if effects == [] then settings
    else
      var next := if effects[0].UpdateSetting? then settings[effects[0].key := effects[0].value] else settings;
      Apply(next, effects[1..])
  }

  lemma {:induction false} WrittenOfConcat(a: seq<Effect>, b: seq<Effect>, key: string)
    ensures Written(a + b, key) == Written(a, key) + Written(b, key)
  {
    if a != [] {
      assert (a + b)[1..] == a[1..] + b;
      WrittenOfConcat(a[1..], b, key);
      assert (a + b)[0] == a[0];
    } else {
      assert a + b == b;
    }
  }

  /**
   * Reading a key after the effects gives the last value written to it,
   * or its earlier value when nothing was written to it.
   */
  lemma {:induction false} ApplyReadsLastWrite(settings: Settings, effects: seq<Effect>, key: string)
    requires key in settings
    ensures key in Apply(settings, effects)
    decreases |effects|
    ensures var w := Written(effects, key);
      Apply(settings, effects)[key] == if w == [] then settings[key] else w[|w| - 1]
  {
    if effects != [] {
      var next := if effects[0].UpdateSetting? then settings[effects[0].key := effects[0].value] else settings;
      ApplyReadsLastWrite(next, effects[1..], key);
    }
  }
}
