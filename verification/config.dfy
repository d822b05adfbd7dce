/**
 * The parsed csvsync.ini: named sections of options over a set of defaults,
 * the lookup of the section for a tracked file, and the expansion of a
 * configured file name. Reading and writing the .ini file is not modelled:
 * the parsed sections are an input.
 */
module Config {
  import opened Wrappers
  import PathOps

  /** Name of the parser's defaults section, which iteration yields first. */
  const DEFAULT_SECTION: string := "DEFAULT"

  datatype Section = Section(name: string, options: map<string, string>)

  /** The parser: its defaults and its sections in file order (DEFAULT is never among them). */
  datatype Config = Config(defaults: map<string, string>, sections: seq<Section>)

  /** One file's settings: its section, read through the parser's defaults. */
  datatype FileConfig = FileConfig(defaults: map<string, string>, section: Section)

  /** A lookup of an option or section that is not there. */
  datatype KeyError = KeyError(key: string)

  /** The defaults the parser is built with; configparser stores every value as a string. */
  function BuiltinDefaults(): map<string, string>
  {
    map["token" := "token.pickle", "credentials" := "credentials.json",
        "syncdir" := "csvsync", "quote" := "minimal", "pad_lines" := "True"]
  }

  /** A parser holding only the built-in defaults and the given sections. */
  function WithBuiltinDefaults(sections: seq<Section>): Config
  {
    Config(BuiltinDefaults(), sections)
  }

  /** section[key]: the section's own option, else the default. */
  function OptionOf(defaults: map<string, string>, s: Section, key: string): Option<string>
  {
    if key in s.options then Some(s.options[key])
    else if key in defaults then Some(defaults[key])
    else None
  }

  function Get(fc: FileConfig, key: string): Option<string>
  {
    OptionOf(fc.defaults, fc.section, key)
  }

  /** `key in section`: the option is set in the section or in the defaults. */
  predicate Has(fc: FileConfig, key: string)
  {
    Get(fc, key).Some?
  }

  /** The order `for section in config` visits: DEFAULT first, then the sections. */
  function Entries(cfg: Config): seq<Section>
  {
    [Section(DEFAULT_SECTION, cfg.defaults)] + cfg.sections
  }

  /** A section other than DEFAULT whose name, or whose `filename` option, is the argument. */
  predicate Matches(defaults: map<string, string>, s: Section, filename: string)
  {
    s.name != DEFAULT_SECTION
    && (s.name == filename || OptionOf(defaults, s, "filename") == Some(filename))
  }

  /** Reading `config[section]['filename']` does not raise for this entry (or it is skipped). */
  predicate FilenameReadable(defaults: map<string, string>, s: Section)
  {
    s.name == DEFAULT_SECTION || OptionOf(defaults, s, "filename").Some?
  }

  // ---------------------------------------------------------------------------
  // Config.__getitem__ as written: the loop evaluates `config[section]['filename']`
  // for every non-matching section it passes, so a section without a filename
  // option raises KeyError and hides every later section.

  function GetItemFromAsWritten(defaults: map<string, string>, entries: seq<Section>, filename: string): Option<Section>
    decreases |entries|
  {
    if entries == [] then None
    else if entries[0].name == DEFAULT_SECTION then GetItemFromAsWritten(defaults, entries[1..], filename)
    else if entries[0].name == filename then Some(entries[0])
    else match OptionOf(defaults, entries[0], "filename")
      case None => None
      case Some(f) =>
        if f == filename then Some(entries[0]) else GetItemFromAsWritten(defaults, entries[1..], filename)
  }

  /** None is the KeyError raised out of the lookup. */
  function GetItemAsWritten(cfg: Config, filename: string): Option<FileConfig>
  {
    match GetItemFromAsWritten(cfg.defaults, Entries(cfg), filename)
    case None => None
    case Some(s) => Some(FileConfig(cfg.defaults, s))
  }

  /**
   * As written, the lookup succeeds exactly when some section matches and every
   * section visited before it has a filename option; it then returns the first match.
   */
  lemma {:induction false} GetItemFromAsWrittenSpec(defaults: map<string, string>, entries: seq<Section>, filename: string)
    ensures GetItemFromAsWritten(defaults, entries, filename).Some? <==>
              exists i :: 0 <= i < |entries| && Matches(defaults, entries[i], filename)
                          && forall j :: 0 <= j < i ==> FilenameReadable(defaults, entries[j])
    ensures GetItemFromAsWritten(defaults, entries, filename).Some? ==>
              exists i :: 0 <= i < |entries| && entries[i] == GetItemFromAsWritten(defaults, entries, filename).value
                          && Matches(defaults, entries[i], filename)
                          && forall j :: 0 <= j < i ==> !Matches(defaults, entries[j], filename)
    decreases |entries|
  {
    if entries != [] {
      var tail := entries[1..];
      GetItemFromAsWrittenSpec(defaults, tail, filename);
      assert forall j :: 0 <= j < |tail| ==> tail[j] == entries[j + 1];
      var r := GetItemFromAsWritten(defaults, entries, filename);
      if Matches(defaults, entries[0], filename) {
        assert r == Some(entries[0]);
      } else if FilenameReadable(defaults, entries[0]) {
        assert r == GetItemFromAsWritten(defaults, tail, filename);
        if r.Some? {
          var i :| 0 <= i < |tail| && tail[i] == r.value && Matches(defaults, tail[i], filename)
                   && forall j :: 0 <= j < i ==> !Matches(defaults, tail[j], filename);
          assert entries[i + 1] == r.value;
          assert forall j :: 0 <= j < i + 1 ==> !Matches(defaults, entries[j], filename);
          var k :| 0 <= k < |tail| && Matches(defaults, tail[k], filename)
                   && forall j :: 0 <= j < k ==> FilenameReadable(defaults, tail[j]);
          assert forall j :: 0 <= j < k + 1 ==> FilenameReadable(defaults, entries[j]);
        } else {
          forall i | 0 <= i < |entries| && Matches(defaults, entries[i], filename)
            ensures exists j :: 0 <= j < i && !FilenameReadable(defaults, entries[j])
          {
            assert i > 0 && Matches(defaults, tail[i - 1], filename);
            var j :| 0 <= j < i - 1 && !FilenameReadable(defaults, tail[j]);
            assert !FilenameReadable(defaults, entries[j + 1]);
          }
        }
      } else {
        assert r.None?;
        forall i | 0 <= i < |entries| && Matches(defaults, entries[i], filename)
          ensures exists j :: 0 <= j < i && !FilenameReadable(defaults, entries[j])
        {
          assert !FilenameReadable(defaults, entries[0]);
        }
      }
    }
  }

  // ---------------------------------------------------------------------------
  // Config.__getitem__ as intended: a section without a filename option simply
  // does not match by filename. This is the lookup the rest of the model uses.

  function GetItemFrom(defaults: map<string, string>, entries: seq<Section>, filename: string): Option<Section>
    decreases |entries|
  {
    if entries == [] then None
    else if Matches(defaults, entries[0], filename) then Some(entries[0])
    else GetItemFrom(defaults, entries[1..], filename)
  }

  /** Config[filename]; None is the KeyError raised when no section matches. */
  function GetItem(cfg: Config, filename: string): Option<FileConfig>
  {
    match GetItemFrom(cfg.defaults, Entries(cfg), filename)
    case None => None
    case Some(s) => Some(FileConfig(cfg.defaults, s))
  }

  /**
   * The lookup succeeds exactly when some section matches; it never yields
   * DEFAULT and returns the first match in file order.
   */
  lemma {:induction false} GetItemFromSpec(defaults: map<string, string>, entries: seq<Section>, filename: string)
    ensures GetItemFrom(defaults, entries, filename).Some? <==>
              exists i :: 0 <= i < |entries| && Matches(defaults, entries[i], filename)
    ensures GetItemFrom(defaults, entries, filename).Some? ==>
              GetItemFrom(defaults, entries, filename).value.name != DEFAULT_SECTION
              && exists i :: 0 <= i < |entries| && entries[i] == GetItemFrom(defaults, entries, filename).value
                             && Matches(defaults, entries[i], filename)
                             && forall j :: 0 <= j < i ==> !Matches(defaults, entries[j], filename)
    decreases |entries|
  {
    if entries != [] && !Matches(defaults, entries[0], filename) {
      var tail := entries[1..];
      GetItemFromSpec(defaults, tail, filename);
      assert forall j :: 0 <= j < |tail| ==> tail[j] == entries[j + 1];
      if GetItemFrom(defaults, tail, filename).Some? {
        var i :| 0 <= i < |tail| && tail[i] == GetItemFrom(defaults, tail, filename).value
                 && Matches(defaults, tail[i], filename)
                 && forall j :: 0 <= j < i ==> !Matches(defaults, tail[j], filename);
        assert entries[i + 1] == GetItemFrom(defaults, entries, filename).value;
      } else {
        forall i | 0 <= i < |entries| ensures !Matches(defaults, entries[i], filename) {
          if i > 0 { assert entries[i] == tail[i - 1]; }
        }
      }
    }
  }

  /** The lookup on a whole parser: first matching section, DEFAULT excluded, KeyError when none matches. */
  lemma GetItemSpec(cfg: Config, filename: string)
    ensures GetItem(cfg, filename).Some? <==>
              exists i :: 0 <= i < |cfg.sections| && Matches(cfg.defaults, cfg.sections[i], filename)
    ensures GetItem(cfg, filename).Some? ==>
              GetItem(cfg, filename).value.defaults == cfg.defaults
              && exists i :: 0 <= i < |cfg.sections| && cfg.sections[i] == GetItem(cfg, filename).value.section
                             && Matches(cfg.defaults, cfg.sections[i], filename)
                             && forall j :: 0 <= j < i ==> !Matches(cfg.defaults, cfg.sections[j], filename)
  {
    var e := Entries(cfg);
    GetItemFromSpec(cfg.defaults, e, filename);
    assert forall i :: 0 <= i < |cfg.sections| ==> e[i + 1] == cfg.sections[i];
    assert !Matches(cfg.defaults, e[0], filename);
    if GetItem(cfg, filename).Some? {
      var i :| 0 <= i < |e| && e[i] == GetItem(cfg, filename).value.section
               && Matches(cfg.defaults, e[i], filename)
               && forall j :: 0 <= j < i ==> !Matches(cfg.defaults, e[j], filename);
      assert cfg.sections[i - 1] == e[i];
    }
  }

  /**
   * The input that separates the two lookups: a section without a filename
   * option ahead of the one that names the file.
   */
  lemma LookupHiddenBySectionWithoutFilename()
    ensures var cfg := WithBuiltinDefaults([Section("notes", map[]), Section("people", map["filename" := "people.csv"])]);
            GetItemAsWritten(cfg, "people.csv").None?
            && GetItem(cfg, "people.csv") == Some(FileConfig(cfg.defaults, cfg.sections[1]))
  {
    var cfg := WithBuiltinDefaults([Section("notes", map[]), Section("people", map["filename" := "people.csv"])]);
    var e := Entries(cfg);
    assert e[1..][1..] == [cfg.sections[1]];
    assert e[1..] == cfg.sections;
  }

  /**
   * FileConfig.expand_config_filename without the final expanduser: a name with
   * no directory part is placed in the sync directory; any other name is kept.
   */
  function ExpandConfigFilename(fc: FileConfig, key: string): (r: Result<string, KeyError>)
    ensures Get(fc, key).None? ==> r == Failure(KeyError(key))
    ensures Get(fc, key).Some? && PathOps.HasDirPart(Get(fc, key).value) ==> r == Success(Get(fc, key).value)
    ensures Get(fc, key).Some? && !PathOps.HasDirPart(Get(fc, key).value) ==>
              if Get(fc, "syncdir").None? then r == Failure(KeyError("syncdir"))
              else
                var sd := Get(fc, "syncdir").value;
                r == Success((if sd == "" || sd[|sd| - 1] == '/' then sd else sd + "/") + Get(fc, key).value)
                && PathOps.BaseName(r.value) == Get(fc, key).value
  {
    match Get(fc, key)
    case None => Failure(KeyError(key))
    case Some(filename) =>
      if !PathOps.HasDirPart(filename) then
        match Get(fc, "syncdir")
        case None => Failure(KeyError("syncdir"))
        case Some(subdir) =>
          var dir := if subdir == "" || subdir[|subdir| - 1] == '/' then subdir else subdir + "/";
          assert PathOps.Join(subdir, filename) == dir + filename;
          PathOps.BaseNameAfterDir(dir, filename);
          Success(PathOps.Join(subdir, filename))
      else Success(filename)
  }

  /** With no syncdir of its own, a bare file name lands in the default `csvsync` directory. */
  lemma ExpandUsesDefaultSyncDir(name: string, file: string)
    requires '/' !in file
    ensures ExpandConfigFilename(FileConfig(BuiltinDefaults(), Section(name, map["credentials" := file])), "credentials")
            == Success("csvsync/" + file)
  {
    var syncdir := "csvsync";
    assert syncdir[|syncdir| - 1] == 'c';
    assert |file| > 0 ==> file[0] != '/';
    assert PathOps.Join(syncdir, file) == syncdir + "/" + file;
    assert syncdir + "/" + file == "csvsync/" + file;
  }

  // ---------------------------------------------------------------------------
  // The pad_lines option. configparser hands back the string; state.py passes
  // it on unconverted, and Python's truth test accepts every non-empty string.

  /** The flag as written: the truth value of the option's string. */
  function PadLinesAsWritten(value: string): bool
  {
    value != ""
  }

  /** ASCII lower-casing, as str.lower() does for the option words below. */
  function Lower(s: string): (r: string)
    ensures |r| == |s|
    ensures forall i :: 0 <= i < |r| ==> !('A' <= r[i] <= 'Z')
    ensures forall i :: 0 <= i < |s| && !('A' <= s[i] <= 'Z') ==> r[i] == s[i]
  {
    if s == [] then []
    else
      var c := s[0];
      [if 'A' <= c <= 'Z' then (c as int + 32) as char else c] + Lower(s[1..])
  }

  /** configparser's boolean reading of an option (getboolean); None is its ValueError. */
  function PadLinesFlag(value: string): Option<bool>
  {
    var v := Lower(value);
    if v in {"1", "yes", "true", "on"} then Some(true)
    else if v in {"0", "no", "false", "off"} then Some(false)
    else None
  }

  /** The input that separates the two readings: `pad_lines = False` still pads as written. */
  lemma PadLinesFalseStillPads()
    ensures PadLinesAsWritten("False") && PadLinesFlag("False") == Some(false)
    ensures PadLinesFlag(BuiltinDefaults()["pad_lines"]) == Some(true)
  {
    assert Lower("False") == "false";
    assert Lower("True") == "true";
  }
}
