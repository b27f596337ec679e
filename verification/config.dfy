/** `config.py`: built-in defaults, the optional settings file, environment
    overrides, and the values derived from the result at import time. */
module Config {
  import opened Optional
  import opened Seqs
  import opened PyText
  import opened WinPath

  /** An option lives under its section name (case-sensitive) and its option
      name folded to lower case, as `configparser`'s `optionxform` does. */
  type Key = (string, string)
  type Settings = map<Key, string>

  function LowerChar(c: char): char {
    if 'A' <= c <= 'Z' then (c as int + 32) as char else c
  }

  function Lower(s: string): (r: string)
    ensures |r| == |s|
    ensures forall i :: 0 <= i < |s| ==> r[i] == LowerChar(s[i])
  {
    if |s| == 0 then [] else [LowerChar(s[0])] + Lower(s[1..])
  }

  function KeyOf(section: string, option: string): Key {
    (section, Lower(option))
  }

  /** The keys `config.set(section, OPTION, ...)` and `config.get(section,
      OPTION)` use for the program's upper-case option names, already folded. */
  const ApiUrlKey: Key := ("API", "api_url")
  const ApiKeyKey: Key := ("API", "api_key")
  const HearthstonePathKey: Key := ("Paths", "hearthstone_path")
  const LogPathKey: Key := ("Paths", "log_path")
  const MonitorIntervalKey: Key := ("Settings", "monitor_interval")

  const DefaultApiUrl := "https://example.com/api/hearthstone"

  /** `DEFAULT_CONFIG`. */
  const Defaults: Settings := map[
    ApiUrlKey := DefaultApiUrl,
    ApiKeyKey := "",
    HearthstonePathKey := "",
    LogPathKey := "",
    MonitorIntervalKey := "5"]

  /** One `option = value` line of the settings file, under its section. */
  datatype FileEntry = FileEntry(section: string, option: string, value: string)

  function EntryKey(e: FileEntry): Key {
    KeyOf(e.section, e.option)
  }

  /** Setting the entries one after the other. */
  function ApplyEntries(c: Settings, es: seq<FileEntry>): (r: Settings)
    ensures c.Keys <= r.Keys
    decreases |es|
  {
    if |es| == 0 then c
    else ApplyEntries(c[EntryKey(es[0]) := es[0].value], es[1..])
  }

  function Lookup(c: Settings, k: Key): Option<string> {
    if k in c then Some(c[k]) else None
  }

  /** The value the entries give `k`: that of the last entry for it. */
  function FileValue(es: seq<FileEntry>, k: Key): Option<string> {
    match LastWhere(es, (e: FileEntry) => EntryKey(e) == k)
    case Some(e) => Some(e.value)
    case None => None
  }

  /** After the entries are set, a key holds the last value they give it, and
      keeps its earlier value when they do not mention it. */
  lemma {:induction false} ApplyEntriesLast(c: Settings, es: seq<FileEntry>, k: Key)
    ensures Lookup(ApplyEntries(c, es), k) == if FileValue(es, k).Some? then FileValue(es, k) else Lookup(c, k)
    decreases |es|
  {
    if |es| > 0 {
      ApplyEntriesLast(c[EntryKey(es[0]) := es[0].value], es[1..], k);
      LastWhereCons(es, (e: FileEntry) => EntryKey(e) == k);
    }
  }

  /** No two entries share a key. */
  predicate DistinctKeys(es: seq<FileEntry>) {
    forall i, j :: 0 <= i < j < |es| ==> EntryKey(es[i]) != EntryKey(es[j])
  }

  /** When no key repeats, the value for a key is that of its only entry. */
  lemma OnlyEntryValue(es: seq<FileEntry>, i: int)
    requires DistinctKeys(es) && 0 <= i < |es|
    ensures FileValue(es, EntryKey(es[i])) == Some(es[i].value)
  {
    var keep := (e: FileEntry) => EntryKey(e) == EntryKey(es[i]);
    assert keep(es[i]);
    var r := LastWhere(es, keep);
    var j :| 0 <= j < |es| && es[j] == r.value;
    assert j == i;
  }

  /** A `[name]` section of the settings file with its `option = value`
      lines, in file order. */
  datatype Section = Section(name: string, options: seq<(string, string)>)

  function OptionEntries(section: string, opts: seq<(string, string)>): (es: seq<FileEntry>)
    ensures |es| == |opts|
    ensures forall i :: 0 <= i < |opts| ==> es[i] == FileEntry(section, opts[i].0, opts[i].1)
  {
    seq(|opts|, i requires 0 <= i < |opts| => FileEntry(section, opts[i].0, opts[i].1))
  }

  /** Every option line of the file, in order. */
  function AllEntries(ss: seq<Section>): seq<FileEntry>
    decreases |ss|
  {
    if |ss| == 0 then [] else OptionEntries(ss[0].name, ss[0].options) + AllEntries(ss[1..])
  }

  /** No option of a section is among `seen` or named twice, after folding. */
  predicate FreshOptions(opts: seq<(string, string)>, seen: set<string>) {
    && (forall i :: 0 <= i < |opts| ==> Lower(opts[i].0) !in seen)
    && (forall i, j :: 0 <= i < j < |opts| ==> Lower(opts[i].0) != Lower(opts[j].0))
  }

  /** No section header is among `seen` or appears twice, and every section
      names each option once: what `configparser`'s strict mode accepts. */
  predicate FreshSections(ss: seq<Section>, seen: set<string>) {
    && (forall i :: 0 <= i < |ss| ==> ss[i].name !in seen)
    && (forall i, j :: 0 <= i < j < |ss| ==> ss[i].name != ss[j].name)
    && (forall i :: 0 <= i < |ss| ==> FreshOptions(ss[i].options, {}))
  }

  /** What `config.read` took in before it stopped, and whether it raised. */
  datatype FileRead = FileRead(entries: seq<FileEntry>, raised: bool)

  /** The lines of one section in strict mode: an option already read in this
      section (`seen`, folded) raises `DuplicateOptionError`. */
  function ReadOptions(section: string, opts: seq<(string, string)>, seen: set<string>): FileRead
    decreases |opts|
  {
    if |opts| == 0 then FileRead([], false)
    else if Lower(opts[0].0) in seen then FileRead([], true)
    else
      var rest := ReadOptions(section, opts[1..], seen + {Lower(opts[0].0)});
      FileRead([FileEntry(section, opts[0].0, opts[0].1)] + rest.entries, rest.raised)
  }

  /** The sections in strict mode: a header already read in this file (`seen`)
      raises `DuplicateSectionError`. The sections the defaults created do not
      count, since strict mode only tracks what this read added. */
  function ReadSections(ss: seq<Section>, seen: set<string>): FileRead
    decreases |ss|
  {
    if |ss| == 0 then FileRead([], false)
    else if ss[0].name in seen then FileRead([], true)
    else
      var head := ReadOptions(ss[0].name, ss[0].options, {});
      if head.raised then head
      else
        var rest := ReadSections(ss[1..], seen + {ss[0].name});
        FileRead(head.entries + rest.entries, rest.raised)
  }

  /** A section's options are fresh exactly when the first is and the rest,
      with the first now seen, are. */
  lemma FreshOptionsCons(opts: seq<(string, string)>, seen: set<string>)
    requires |opts| > 0
    ensures FreshOptions(opts, seen) <==>
      Lower(opts[0].0) !in seen && FreshOptions(opts[1..], seen + {Lower(opts[0].0)})
  {
    var k := Lower(opts[0].0);
    var tail := opts[1..];
    if k !in seen && FreshOptions(tail, seen + {k}) {
      forall i | 0 <= i < |opts| ensures Lower(opts[i].0) !in seen {
        if i > 0 { assert opts[i] == tail[i - 1]; }
      }
      forall i, j | 0 <= i < j < |opts| ensures Lower(opts[i].0) != Lower(opts[j].0) {
        assert opts[j] == tail[j - 1];
        if i > 0 { assert opts[i] == tail[i - 1]; }
      }
    }
    if FreshOptions(opts, seen) {
      forall i | 0 <= i < |tail| ensures Lower(tail[i].0) !in seen + {k} {
        assert tail[i] == opts[i + 1];
      }
    }
  }

  /** A section is read as a prefix of its lines whose options are fresh, and
      the read raises exactly when the section's options are not all fresh. */
  lemma {:induction false} ReadOptionsPrefix(section: string, opts: seq<(string, string)>, seen: set<string>)
    ensures var r := ReadOptions(section, opts, seen); var n := |r.entries|;
      && n <= |opts|
      && r.entries == OptionEntries(section, opts[..n])
      && FreshOptions(opts[..n], seen)
      && (r.raised <==> n < |opts|)
      && (r.raised <==> !FreshOptions(opts, seen))
    decreases |opts|
  {
    var r := ReadOptions(section, opts, seen);
    var n := |r.entries|;
    if |opts| > 0 {
      FreshOptionsCons(opts, seen);
      var k := Lower(opts[0].0);
      if k !in seen {
        var tail := opts[1..];
        ReadOptionsPrefix(section, tail, seen + {k});
        var m := |ReadOptions(section, tail, seen + {k}).entries|;
        assert opts[..n][1..] == tail[..m];
        FreshOptionsCons(opts[..n], seen);
        assert OptionEntries(section, opts[..n]) == [FileEntry(section, opts[0].0, opts[0].1)] + OptionEntries(section, tail[..m]);
      }
    }
  }

  /** When a section's read raises, it stopped at an option that repeats one
      in `seen` or one read before it. */
  lemma {:induction false} ReadOptionsStop(section: string, opts: seq<(string, string)>, seen: set<string>)
    ensures var n := |ReadOptions(section, opts, seen).entries|;
      n < |opts| ==>
        Lower(opts[n].0) in seen || exists i :: 0 <= i < n && Lower(opts[i].0) == Lower(opts[n].0)
    decreases |opts|
  {
    var n := |ReadOptions(section, opts, seen).entries|;
    if |opts| > 0 && Lower(opts[0].0) !in seen {
      var k := Lower(opts[0].0);
      var tail := opts[1..];
      ReadOptionsStop(section, tail, seen + {k});
      var m := |ReadOptions(section, tail, seen + {k}).entries|;
      if n < |opts| && Lower(opts[n].0) !in seen {
        assert opts[n] == tail[m];
        if Lower(opts[n].0) == k {
          assert Lower(opts[0].0) == Lower(opts[n].0);
        } else {
          var i :| 0 <= i < m && Lower(tail[i].0) == Lower(tail[m].0);
          assert Lower(opts[i + 1].0) == Lower(opts[n].0);
        }
      }
    }
  }

  /** A file is strict exactly when its first section is fresh and the rest,
      with that header now seen, is strict. */
  lemma FreshSectionsCons(ss: seq<Section>, seen: set<string>)
    requires |ss| > 0
    ensures FreshSections(ss, seen) <==>
      ss[0].name !in seen && FreshOptions(ss[0].options, {}) && FreshSections(ss[1..], seen + {ss[0].name})
  {
    var tail := ss[1..];
    if ss[0].name !in seen && FreshOptions(ss[0].options, {}) && FreshSections(tail, seen + {ss[0].name}) {
      forall i | 0 <= i < |ss| ensures ss[i].name !in seen && FreshOptions(ss[i].options, {}) {
        if i > 0 { assert ss[i] == tail[i - 1]; }
      }
      forall i, j | 0 <= i < j < |ss| ensures ss[i].name != ss[j].name {
        assert ss[j] == tail[j - 1];
        if i > 0 { assert ss[i] == tail[i - 1]; }
      }
    }
    if FreshSections(ss, seen) {
      forall i | 0 <= i < |tail| ensures tail[i].name !in seen + {ss[0].name} {
        assert tail[i] == ss[i + 1];
      }
      forall i | 0 <= i < |tail| ensures FreshOptions(tail[i].options, {}) {
        assert tail[i] == ss[i + 1];
      }
    }
  }

  /** One section read on its own: it stops at its first repeated option and
      raises exactly then, keeping a prefix of its entries with distinct keys. */
  lemma ReadSectionOptions(name: string, opts: seq<(string, string)>)
    ensures var h := ReadOptions(name, opts, {});
      && (h.raised <==> !FreshOptions(opts, {}))
      && h.entries <= OptionEntries(name, opts)
      && (!h.raised ==> h.entries == OptionEntries(name, opts))
      && (forall i :: 0 <= i < |h.entries| ==> h.entries[i].section == name)
      && DistinctKeys(h.entries)
  {
    var h := ReadOptions(name, opts, {});
    ReadOptionsPrefix(name, opts, {});
    var n := |h.entries|;
    assert OptionEntries(name, opts)[..n] == h.entries;
    forall i, j | 0 <= i < j < n ensures EntryKey(h.entries[i]) != EntryKey(h.entries[j]) {
      assert opts[..n][i] == opts[i] && opts[..n][j] == opts[j];
    }
    if !h.raised {
      assert opts[..n] == opts;
    }
  }

  lemma PrefixAppend(a: seq<FileEntry>, b: seq<FileEntry>, c: seq<FileEntry>)
    requires b <= c
    ensures a + b <= a + c
  {
    assert (a + c)[..|a + b|] == a + c[..|b|];
  }

  /** Entries of a fresh section followed by entries of later sections never
      share a key, and none lies in an already seen section. */
  lemma AppendSections(h: seq<FileEntry>, t: seq<FileEntry>, name: string, seen: set<string>)
    requires name !in seen
    requires DistinctKeys(h) && forall i :: 0 <= i < |h| ==> h[i].section == name
    requires DistinctKeys(t) && forall i :: 0 <= i < |t| ==> t[i].section !in seen + {name}
    ensures DistinctKeys(h + t)
    ensures forall i :: 0 <= i < |h + t| ==> (h + t)[i].section !in seen
  {
    var r := h + t;
    forall i | 0 <= i < |r| ensures r[i].section !in seen {
      if i >= |h| { assert r[i] == t[i - |h|]; }
    }
    forall i, j | 0 <= i < j < |r| ensures EntryKey(r[i]) != EntryKey(r[j]) {
      if j >= |h| {
        assert r[j] == t[j - |h|];
        if i >= |h| { assert r[i] == t[i - |h|]; }
        else { assert r[i].section == name != r[j].section; }
      }
    }
  }

  /** Reading stops at the first repeated section header or option and raises
      exactly then; what it took in is a prefix of the file's entries, all of
      them when it did not raise, and never sets a key twice. */
  lemma {:induction false} ReadSectionsMeaning(ss: seq<Section>, seen: set<string>)
    ensures var r := ReadSections(ss, seen);
      && (r.raised <==> !FreshSections(ss, seen))
      && r.entries <= AllEntries(ss)
      && (!r.raised ==> r.entries == AllEntries(ss))
      && (forall i :: 0 <= i < |r.entries| ==> r.entries[i].section !in seen)
      && DistinctKeys(r.entries)
    decreases |ss|
  {
    if |ss| > 0 {
      FreshSectionsCons(ss, seen);
      var s := ss[0];
      if s.name !in seen {
        var head := ReadOptions(s.name, s.options, {});
        var all := OptionEntries(s.name, s.options);
        ReadSectionOptions(s.name, s.options);
        assert AllEntries(ss) == all + AllEntries(ss[1..]);
        if !head.raised {
          var rest := ReadSections(ss[1..], seen + {s.name});
          ReadSectionsMeaning(ss[1..], seen + {s.name});
          assert ReadSections(ss, seen).entries == all + rest.entries;
          PrefixAppend(all, rest.entries, AllEntries(ss[1..]));
          AppendSections(all, rest.entries, s.name, seen);
        } else {
          PrefixAppend([], head.entries, all);
          assert all <= AllEntries(ss);
        }
      }
    }
  }

  /** The settings file: missing; present, as its sections; or present but
      raising for another reason (a line before any section header, a
      malformed line, an undecodable byte) after the sections given were
      taken in. */
  datatype ConfigFile = Absent | Present(sections: seq<Section>) | Broken(sections: seq<Section>)

  /** `config.read` on the file. */
  function ReadFile(f: ConfigFile): (r: FileRead)
    ensures r.raised <==> f.Broken? || (f.Present? && !FreshSections(f.sections, {}))
    ensures f.Absent? ==> r.entries == []
    ensures !f.Absent? ==> r.entries <= AllEntries(f.sections)
    ensures DistinctKeys(r.entries)
  {
    match f
    case Absent => FileRead([], false)
    case Present(ss) =>
      ReadSectionsMeaning(ss, {});
      ReadSections(ss, {})
    case Broken(ss) =>
      ReadSectionsMeaning(ss, {});
      FileRead(ReadSections(ss, {}).entries, true)
  }

  /** Environment variables as Windows' `os.environ` holds them: the names
      folded to upper case, so that `os.getenv` of the program's upper-case
      names is a plain lookup. */
  type Env = map<string, string>

  function UpperChar(c: char): char {
    if 'a' <= c <= 'z' then (c as int - 32) as char else c
  }

  function Upper(s: string): (r: string)
    ensures |r| == |s|
    ensures forall i :: 0 <= i < |s| ==> r[i] == UpperChar(s[i])
  {
    if |s| == 0 then [] else [UpperChar(s[0])] + Upper(s[1..])
  }

  /** The `.env` file as python-dotenv parses it: names in file order with
      their values (a line without `=` has none). */
  type Dotenv = seq<(string, Option<string>)>

  /** A `.env` pair that would set variable `n` if nothing stopped it. */
  predicate SetsName(p: (string, Option<string>), n: string) {
    Upper(p.0) == n && p.1.Some?
  }

  /** `load_dotenv()`: a pair whose name `os.environ` already holds (it
      compares upper-cased) is skipped; otherwise a pair with a value is set
      under the upper-cased name. */
  function EffectiveEnv(env: Env, dotenv: Dotenv): Env
    decreases |dotenv|
  {
    if |dotenv| == 0 then env
    else
      var n := Upper(dotenv[0].0);
      var next := if n in env || dotenv[0].1.None? then env else env[n := dotenv[0].1.value];
      EffectiveEnv(next, dotenv[1..])
  }

  /** `load_dotenv()` does not override: a variable already present keeps its
      value; a missing one is set exactly when some `.env` pair names it in
      any case and has a value, and the first such pair wins. */
  lemma {:induction false} EffectiveEnvMeaning(env: Env, dotenv: Dotenv, n: string)
    ensures var r := EffectiveEnv(env, dotenv);
      && (n in env ==> n in r && r[n] == env[n])
      && (n !in env ==> (n in r <==> exists i :: 0 <= i < |dotenv| && SetsName(dotenv[i], n)))
      && (forall i ::
            (0 <= i < |dotenv| && n !in env && SetsName(dotenv[i], n)
             && forall j :: 0 <= j < i ==> !SetsName(dotenv[j], n)) ==> r[n] == dotenv[i].1.value)
    decreases |dotenv|
  {
    if |dotenv| > 0 {
      var m := Upper(dotenv[0].0);
      var next := if m in env || dotenv[0].1.None? then env else env[m := dotenv[0].1.value];
      var tail := dotenv[1..];
      EffectiveEnvMeaning(next, tail, n);
      var r := EffectiveEnv(env, dotenv);
      assert r == EffectiveEnv(next, tail);
      if n !in env {
        if SetsName(dotenv[0], n) {
          assert next == env[n := dotenv[0].1.value];
        } else {
          assert n !in next;
          if n in r {
            var i :| 0 <= i < |tail| && SetsName(tail[i], n);
            assert SetsName(dotenv[i + 1], n);
          }
          if exists i :: 0 <= i < |dotenv| && SetsName(dotenv[i], n) {
            var i :| 0 <= i < |dotenv| && SetsName(dotenv[i], n);
            assert i > 0 && SetsName(tail[i - 1], n);
          }
          forall i | 0 <= i < |dotenv| && SetsName(dotenv[i], n) && (forall j :: 0 <= j < i ==> !SetsName(dotenv[j], n))
            ensures r[n] == dotenv[i].1.value
          {
            assert i > 0 && tail[i - 1] == dotenv[i];
            forall j | 0 <= j < i - 1 ensures !SetsName(tail[j], n) {
              assert tail[j] == dotenv[j + 1];
            }
          }
        }
      }
    }
  }

  /** `if os.getenv(name): config.set(..., os.getenv(name))`. */
  function Override(c: Settings, env: Env, name: string, k: Key): Settings {
    if name in env && env[name] != "" then c[k := env[name]] else c
  }

  /** The variable that overrides a key, for the three keys that have one. */
  function EnvName(k: Key): Option<string> {
    if k == ApiUrlKey then Some("API_URL")
    else if k == ApiKeyKey then Some("API_KEY")
    else if k == HearthstonePathKey then Some("HEARTHSTONE_PATH")
    else None
  }

  /** The overriding variable's value, when it is set and not empty. */
  function EnvValue(env: Env, k: Key): Option<string> {
    match EnvName(k)
    case Some(n) => if n in env && env[n] != "" then Some(env[n]) else None
    case None => None
  }

  /** `load_config()`: the settings, and whether it tried to write the file
      back (it does so when reading raised). */
  datatype Loaded = Loaded(settings: Settings, savedBack: bool)

  function LoadConfig(file: ConfigFile, env: Env): (r: Loaded)
    ensures r.savedBack <==> file.Broken? || (file.Present? && !FreshSections(file.sections, {}))
    ensures Defaults.Keys <= r.settings.Keys
  {
    var read := ReadFile(file);
    var c0 := ApplyEntries(Defaults, read.entries);
    var c1 := Override(c0, env, "API_URL", ApiUrlKey);
    var c2 := Override(c1, env, "API_KEY", ApiKeyKey);
    var c3 := Override(c2, env, "HEARTHSTONE_PATH", HearthstonePathKey);
    Loaded(c3, read.raised)
  }

  /** The precedence `load_config` implements, key by key: a non-empty
      environment variable beats the file, the file beats the default, and a
      key nobody sets keeps its default. */
  lemma LoadConfigPrecedence(file: ConfigFile, env: Env, k: Key)
    ensures Lookup(LoadConfig(file, env).settings, k) ==
      if EnvValue(env, k).Some? then EnvValue(env, k)
      else if FileValue(ReadFile(file).entries, k).Some? then FileValue(ReadFile(file).entries, k)
      else Lookup(Defaults, k)
  {
    ApplyEntriesLast(Defaults, ReadFile(file).entries, k);
  }

  /** A section naming an option twice (in any case) keeps the first value:
      the read raises at the second line, and the file is written back. */
  lemma RepeatedOptionKeepsFirst(name: string, o1: string, v1: string, o2: string, v2: string, env: Env)
    requires Lower(o1) == Lower(o2)
    ensures var file := Present([Section(name, [(o1, v1), (o2, v2)])]);
      && LoadConfig(file, env).savedBack
      && ReadFile(file).entries == [FileEntry(name, o1, v1)]
      && Lookup(LoadConfig(file, env).settings, KeyOf(name, o1)) ==
           if EnvValue(env, KeyOf(name, o1)).Some? then EnvValue(env, KeyOf(name, o1)) else Some(v1)
  {
    var opts := [(o1, v1), (o2, v2)];
    var file := Present([Section(name, opts)]);
    assert ReadOptions(name, opts[1..], {Lower(o1)}) == FileRead([], true);
    assert ReadOptions(name, opts, {}) == FileRead([FileEntry(name, o1, v1)], true);
    OnlyEntryValue(ReadFile(file).entries, 0);
    LoadConfigPrecedence(file, env, KeyOf(name, o1));
  }

  /** `os.path.expanduser("~\\AppData\\Local\\Blizzard\\Hearthstone\\Logs")`:
      `home` is the profile directory ntpath finds, if any; without one the
      path is returned unexpanded. */
  const LocalLogsTail := "\\AppData\\Local\\Blizzard\\Hearthstone\\Logs"

  function DefaultLogPath(home: Option<string>): string {
    match home
    case Some(h) => h + LocalLogsTail
    case None => "~" + LocalLogsTail
  }

  /** `LOG_PATH`: the configured value, else the `Logs` folder of the
      Hearthstone path, else the per-user default. */
  function ResolveLogPath(configured: string, hearthstonePath: string, home: Option<string>): (r: Path)
    ensures r != ""
    ensures configured != "" ==> r == configured
    ensures configured == "" && hearthstonePath != "" ==>
      |r| >= |hearthstonePath| + 4 && r[..|hearthstonePath|] == hearthstonePath && r[|r| - 4..] == "Logs"
    ensures configured == "" && hearthstonePath == "" ==> |r| >= |LocalLogsTail| && r[|r| - |LocalLogsTail|..] == LocalLogsTail
  {
    if configured == "" && hearthstonePath != "" then
      JoinEndsWith(hearthstonePath, "Logs");
      Join(hearthstonePath, "Logs")
    else if configured == "" then DefaultLogPath(home)
    else configured
  }

  /** The module-level values `config.py` exports. */
  datatype Resolved = Resolved(apiUrl: string, apiKey: string, hearthstonePath: string, logPath: Path, monitorInterval: int)

  /** Importing `config`: `None` when `int(MONITOR_INTERVAL)` raises. */
  function Resolve(file: ConfigFile, env: Env, home: Option<string>): (r: Option<Resolved>)
    ensures var s := LoadConfig(file, env).settings;
      && (r.Some? <==> ParseInt(s[MonitorIntervalKey]).Some?)
      && (r.Some? ==>
        && r.value.apiUrl == s[ApiUrlKey] && r.value.apiKey == s[ApiKeyKey]
        && r.value.hearthstonePath == s[HearthstonePathKey]
        && r.value.logPath == ResolveLogPath(s[LogPathKey], s[HearthstonePathKey], home)
        && Some(r.value.monitorInterval) == ParseInt(s[MonitorIntervalKey]))
  {
    var s := LoadConfig(file, env).settings;
    match ParseInt(s[MonitorIntervalKey])
    case None => None
    case Some(n) =>
      var hs := s[HearthstonePathKey];
      Some(Resolved(s[ApiUrlKey], s[ApiKeyKey], hs, ResolveLogPath(s[LogPathKey], hs, home), n))
  }

  /** With no settings file and no environment, the API URL is the built-in
      one, the interval is five seconds and the logs live under the profile. */
  lemma DefaultsResolve(home: Option<string>)
    ensures var r := Resolve(Absent, map[], home);
      && r.Some? && r.value.apiUrl == DefaultApiUrl && r.value.apiKey == ""
      && r.value.monitorInterval == 5 && r.value.logPath == DefaultLogPath(home)
  {
    var s := LoadConfig(Absent, map[]).settings;
    assert s == Defaults;
    assert NatText(5) == "5";
    NatTextRoundTrip(5);
  }

  /** Whatever the file says, a non-empty `API_URL` in the process environment
      is the URL used, even if `.env` names another. */
  lemma ProcessEnvWins(file: ConfigFile, process: Env, dotenv: Dotenv, home: Option<string>)
    requires "API_URL" in process && process["API_URL"] != ""
    requires Resolve(file, EffectiveEnv(process, dotenv), home).Some?
    ensures Resolve(file, EffectiveEnv(process, dotenv), home).value.apiUrl == process["API_URL"]
  {
    EffectiveEnvMeaning(process, dotenv, "API_URL");
    LoadConfigPrecedence(file, EffectiveEnv(process, dotenv), ApiUrlKey);
  }

  /** Without `API_URL` in the process environment, the first `.env` line that
      names it in any case (`api_url=...` included) and has a non-empty value
      gives the URL used. */
  lemma DotenvNameFolded(file: ConfigFile, process: Env, dotenv: Dotenv, i: int, home: Option<string>)
    requires "API_URL" !in process
    requires 0 <= i < |dotenv| && SetsName(dotenv[i], "API_URL") && dotenv[i].1.value != ""
    requires forall j :: 0 <= j < i ==> !SetsName(dotenv[j], "API_URL")
    requires Resolve(file, EffectiveEnv(process, dotenv), home).Some?
    ensures Resolve(file, EffectiveEnv(process, dotenv), home).value.apiUrl == dotenv[i].1.value
  {
    EffectiveEnvMeaning(process, dotenv, "API_URL");
    LoadConfigPrecedence(file, EffectiveEnv(process, dotenv), ApiUrlKey);
  }
}
