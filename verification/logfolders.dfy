/** Locating the newest Hearthstone log folder: `HSLogWatcher.find_latest_log_file`. */
module LogFolders {
  import opened Optional
  import opened PyText
  import opened Timestamp
  import opened WinPath
  import opened Notices

  /** One item of `os.listdir(logs_dir)`, with the answer `os.path.isdir` gives for it. */
  datatype Entry = Entry(name: string, isDir: bool)

  /** The part of the filesystem the watcher looks at: plain files, and
      directories with their listings. */
  datatype FileSystem = FileSystem(files: set<Path>, dirs: map<Path, seq<Entry>>)

  /** `os.path.exists`. */
  predicate Exists(fs: FileSystem, p: Path) {
    p in fs.files || p in fs.dirs
  }

  const LogsDirName := "Logs"
  const LogFileName := "Power.log"
  const FolderPrefix := "Hearthstone_"
  /** The folder-name regular expression; each 'd' stands for one `\d`. */
  const NamePattern := "Hearthstone_dddd_dd_dd_dd_dd_dd"

  /** The range of a C `int`, which CPython's `datetime` requires of its arguments. */
  const CIntMin := -0x8000_0000
  const CIntMax := 0x7FFF_FFFF

  /** `re.match`: the pattern must match at the start of the name; anything may follow. */
  predicate MatchesPattern(name: string) {
    |name| >= |NamePattern| &&
    forall i :: 0 <= i < |NamePattern| ==>
      if NamePattern[i] == 'd' then IsDigit(name[i]) else name[i] == NamePattern[i]
  }

  /** `folder.replace('Hearthstone_', '').split('_')`. */
  function Fields(name: string): seq<string> {
    Split(RemoveAll(name, FolderPrefix), '_')
  }

  /** `int()` of every field; `None` when any of them raises `ValueError`. */
  function ParseAll(parts: seq<string>): (r: Option<seq<int>>)
    ensures r.Some? ==> |r.value| == |parts|
    ensures r.Some? ==> forall i :: 0 <= i < |parts| ==> ParseInt(parts[i]) == Some(r.value[i])
    ensures r.None? ==> exists i :: 0 <= i < |parts| && ParseInt(parts[i]).None?
    decreases |parts|
  {
    if |parts| == 0 then Some([])
    else
      match (ParseInt(parts[0]), ParseAll(parts[1..]))
      case (Some(x), Some(xs)) => Some([x] + xs)
      case (None, _) => None
      case (_, None) => None
  }

  /** What the loop body does with one listing entry. */
  datatype Verdict =
    | Qualifies(stamp: DateTime)   // appended to `log_folders`
    | Skipped                      // not a directory, no match, wrong field count, or `ValueError`
    | Overflows                    // a field too large for a C int: `datetime` raises `OverflowError`

  /** Every value fits a C `int`. */
  predicate InCInt(v: seq<int>) {
    forall i :: 0 <= i < |v| ==> CIntMin <= v[i] <= CIntMax
  }

  /** `datetime(*parts)` for six values. */
  function StampFrom(v: seq<int>): DateTime
    requires |v| == 6
  {
    DateTime(v[0], v[1], v[2], v[3], v[4], v[5])
  }

  /** A directory whose name matches the pattern and splits into six fields
      that all pass `int()`. */
  predicate ParsedDir(e: Entry) {
    e.isDir && MatchesPattern(e.name) && |Fields(e.name)| == 6 && ParseAll(Fields(e.name)).Some?
  }

  /** The `int()` values of such a directory's six fields. */
  function FieldValues(e: Entry): (v: seq<int>)
    requires ParsedDir(e)
    ensures |v| == 6
  {
    ParseAll(Fields(e.name)).value
  }

  /** An entry that makes `datetime` raise `OverflowError`. */
  predicate OverflowingEntry(e: Entry) {
    ParsedDir(e) && !InCInt(FieldValues(e))
  }

  /** The checks of the loop body, in the order the code makes them. Only a
      parsed directory can qualify or overflow; it overflows exactly when a
      value leaves the C int range, and otherwise qualifies exactly when the
      values form a real datetime, which is then its stamp. */
  function Classify(e: Entry): (v: Verdict)
    ensures v.Qualifies? || v.Overflows? ==> ParsedDir(e)
    ensures ParsedDir(e) ==> (v.Overflows? <==> !InCInt(FieldValues(e)))
    ensures ParsedDir(e) ==> (v.Qualifies? <==> InCInt(FieldValues(e)) && Valid(StampFrom(FieldValues(e))))
    ensures v.Qualifies? ==> v.stamp == StampFrom(FieldValues(e)) && Valid(v.stamp)
  {
    if !(e.isDir && MatchesPattern(e.name)) then Skipped
    else
      var parts := Fields(e.name);
      if |parts| != 6 then Skipped
      else
        match ParseAll(parts)
        case None => Skipped
        case Some(v) =>
          if !InCInt(v) then Overflows
          else if Valid(StampFrom(v)) then Qualifies(StampFrom(v))
          else Skipped
  }

  /** A listing entry together with what the loop body decided about it. */
  datatype Scanned = Scanned(entry: Entry, verdict: Verdict)

  function Scan(listing: seq<Entry>): (sc: seq<Scanned>)
    ensures |sc| == |listing|
    ensures forall i :: 0 <= i < |listing| ==> sc[i] == Scanned(listing[i], Classify(listing[i]))
    decreases |listing|
  {
    if |listing| == 0 then [] else [Scanned(listing[0], Classify(listing[0]))] + Scan(listing[1..])
  }

  predicate AnyQualifies(sc: seq<Scanned>) {
    exists i :: 0 <= i < |sc| && sc[i].verdict.Qualifies?
  }

  /** A qualifying folder, as the `(folder_path, folder_date)` pair of `log_folders`. */
  datatype Candidate = Candidate(path: Path, stamp: DateTime)

  function CandidateOf(logs: Path, s: Scanned): Candidate
    requires s.verdict.Qualifies?
  {
    Candidate(Join(logs, s.entry.name), s.verdict.stamp)
  }

  /** `log_folders` after the loop: the qualifying folders in listing order. */
  function Candidates(logs: Path, sc: seq<Scanned>): (c: seq<Candidate>)
    ensures |c| <= |sc|
    ensures |c| == 0 <==> !AnyQualifies(sc)
    decreases |sc|
  {
    if |sc| == 0 then []
    else
      var rest := Candidates(logs, sc[1..]);
      assert AnyQualifies(sc) <==> sc[0].verdict.Qualifies? || AnyQualifies(sc[1..]) by {
        if AnyQualifies(sc[1..]) {
          var i :| 0 <= i < |sc[1..]| && sc[1..][i].verdict.Qualifies?;
          assert sc[i + 1].verdict.Qualifies?;
        }
        if AnyQualifies(sc) && !sc[0].verdict.Qualifies? {
          var i :| 0 <= i < |sc| && sc[i].verdict.Qualifies?;
          assert sc[1..][i - 1].verdict.Qualifies?;
        }
      }
      if sc[0].verdict.Qualifies? then [CandidateOf(logs, sc[0])] + rest else rest
  }

  /** Places `x` before the first element it is not older than, so that among
      equal datetimes the earlier-listed one stays first. */
  function Insert(x: Candidate, s: seq<Candidate>): (r: seq<Candidate>)
    ensures |r| == |s| + 1
    ensures multiset(r) == multiset(s) + multiset{x}
    decreases |s|
  {
    if |s| == 0 then [x]
    else if !Before(x.stamp, s[0].stamp) then [x] + s
    else
      assert s == [s[0]] + s[1..];
      [s[0]] + Insert(x, s[1..])
  }

  /** `log_folders.sort(key=lambda x: x[1], reverse=True)`: newest first, and
      (Python's sort being stable also in reverse) ties in listing order. */
  function SortNewestFirst(c: seq<Candidate>): (s: seq<Candidate>)
    ensures |s| == |c|
    ensures multiset(s) == multiset(c)
    decreases |c|
  {
    if |c| == 0 then []
    else
      assert c == [c[0]] + c[1..];
      Insert(c[0], SortNewestFirst(c[1..]))
  }

  /** Entry `i` is a qualifying folder with the greatest datetime, and no
      earlier entry has that datetime. */
  predicate IsNewestFolder(sc: seq<Scanned>, i: int) {
    && 0 <= i < |sc|
    && sc[i].verdict.Qualifies?
    && (forall j :: 0 <= j < |sc| && sc[j].verdict.Qualifies? ==>
          !Before(sc[i].verdict.stamp, sc[j].verdict.stamp))
    && (forall j :: 0 <= j < i && sc[j].verdict.Qualifies? ==>
          Before(sc[j].verdict.stamp, sc[i].verdict.stamp))
  }

  /** The head of the sorted candidates is the newest folder, the first one
      listed among equals. */
  lemma {:induction false} SortedHeadIsNewest(logs: Path, sc: seq<Scanned>)
    requires AnyQualifies(sc)
    ensures exists i :: (IsNewestFolder(sc, i) &&
      SortNewestFirst(Candidates(logs, sc))[0] == CandidateOf(logs, sc[i]))
    decreases |sc|
  {
    var rest := sc[1..];
    if !sc[0].verdict.Qualifies? {
      var i :| 0 <= i < |sc| && sc[i].verdict.Qualifies?;
      assert rest[i - 1].verdict.Qualifies?;
      SortedHeadIsNewest(logs, rest);
      var k :| IsNewestFolder(rest, k) &&
        SortNewestFirst(Candidates(logs, rest))[0] == CandidateOf(logs, rest[k]);
      NewestAfterSkipped(sc, k);
    } else {
      var cx := CandidateOf(logs, sc[0]);
      assert Candidates(logs, sc) == [cx] + Candidates(logs, rest);
      assert SortNewestFirst(Candidates(logs, sc)) == Insert(cx, SortNewestFirst(Candidates(logs, rest)));
      if !AnyQualifies(rest) {
        NewestAlone(sc);
      } else {
        SortedHeadIsNewest(logs, rest);
        var k :| IsNewestFolder(rest, k) &&
          SortNewestFirst(Candidates(logs, rest))[0] == CandidateOf(logs, rest[k]);
        if !Before(sc[0].verdict.stamp, rest[k].verdict.stamp) {
          NewestFirstWins(sc, k);
        } else {
          NewestLaterWins(sc, k);
        }
      }
    }
  }

  lemma NewestAfterSkipped(sc: seq<Scanned>, k: int)
    requires |sc| > 0 && !sc[0].verdict.Qualifies? && IsNewestFolder(sc[1..], k)
    ensures IsNewestFolder(sc, k + 1)
  {
    assert forall j :: 1 <= j < |sc| ==> sc[j] == sc[1..][j - 1];
  }

  lemma NewestAlone(sc: seq<Scanned>)
    requires |sc| > 0 && sc[0].verdict.Qualifies? && !AnyQualifies(sc[1..])
    ensures IsNewestFolder(sc, 0)
  {
    forall j | 1 <= j < |sc|
      ensures !sc[j].verdict.Qualifies?
    {
      assert sc[j] == sc[1..][j - 1];
    }
  }

  lemma NewestFirstWins(sc: seq<Scanned>, k: int)
    requires |sc| > 0 && sc[0].verdict.Qualifies? && IsNewestFolder(sc[1..], k)
    requires !Before(sc[0].verdict.stamp, sc[1..][k].verdict.stamp)
    ensures IsNewestFolder(sc, 0)
  {
    var d := sc[0].verdict.stamp;
    var e := sc[1..][k].verdict.stamp;
    forall j | 1 <= j < |sc| && sc[j].verdict.Qualifies?
      ensures !Before(d, sc[j].verdict.stamp)
    {
      var f := sc[j].verdict.stamp;
      assert sc[j] == sc[1..][j - 1];
      assert !Before(e, f);
      BeforeStrictTotal(d, e, f);
      BeforeStrictTotal(e, f, d);
      BeforeStrictTotal(d, f, e);
    }
    BeforeStrictTotal(d, d, d);
  }

  lemma NewestLaterWins(sc: seq<Scanned>, k: int)
    requires |sc| > 0 && sc[0].verdict.Qualifies? && IsNewestFolder(sc[1..], k)
    requires Before(sc[0].verdict.stamp, sc[1..][k].verdict.stamp)
    ensures IsNewestFolder(sc, k + 1)
  {
    BeforeStrictTotal(sc[0].verdict.stamp, sc[1..][k].verdict.stamp, sc[0].verdict.stamp);
    assert forall j :: 1 <= j < |sc| ==> sc[j] == sc[1..][j - 1];
  }

  /** Where `find_latest_log_file` ended up. */
  datatype FindOutcome =
    | Found(path: Path)   // the newest folder joined with "Power.log"
    | NotFound            // returned None
    | FindRaised          // an exception left the function

  datatype FindResult = FindResult(outcome: FindOutcome, notices: seq<Notice>)

  function LogsDir(install: Path): Path {
    Join(install, LogsDirName)
  }

  /** The steps before the loop: `os.path.join(install, "Logs")`, which raises
      on a `None` install path; the existence test, which returns `None` with
      the "missing" message; and `os.listdir`, which raises on anything but a
      directory. `Listed` carries the listing the loop goes over. */
  datatype Listing = Listed(logs: Path, entries: seq<Entry>) | Ended(result: FindResult)

  function ListLogs(install: Option<Path>, fs: FileSystem, hasCallback: bool): Listing {
    match install
    case None => Ended(FindResult(FindRaised, []))
    case Some(dir) =>
      var logs := LogsDir(dir);
      if !Exists(fs, logs) then Ended(FindResult(NotFound, Say(hasCallback, LogsDirMissing(dir))))
      else if logs !in fs.dirs then Ended(FindResult(FindRaised, []))
      else Listed(logs, fs.dirs[logs])
  }

  /** The steps after the loop: `None` with the "no folders" message when
      nothing was collected, else the newest folder's `Power.log`. */
  function Pick(c: seq<Candidate>, hasCallback: bool): FindResult {
    if |c| == 0 then FindResult(NotFound, Say(hasCallback, NoLogFolders))
    else FindResult(Found(Join(SortNewestFirst(c)[0].path, LogFileName)), [])
  }

  /** The folder selection with the `OverflowError` case treated like the
      `ValueError` case the code evidently meant it to be: such a folder is
      skipped instead of aborting the scan. */
  function FindLatestLogFile(install: Option<Path>, fs: FileSystem, hasCallback: bool): (r: FindResult)
    // os.path.join(None, "Logs") raises TypeError
    ensures install.None? ==> r.outcome == FindRaised
    ensures r.outcome == FindRaised ==> r.notices == []
    ensures install.Some? && !Exists(fs, LogsDir(install.value)) ==>
      r.outcome == NotFound && r.notices == Say(hasCallback, LogsDirMissing(install.value))
    // os.listdir of something that exists but is not a directory raises
    ensures install.Some? ==>
      (r.outcome == FindRaised <==> Exists(fs, LogsDir(install.value)) && LogsDir(install.value) !in fs.dirs)
    ensures install.Some? && LogsDir(install.value) in fs.dirs ==>
      var sc := Scan(fs.dirs[LogsDir(install.value)]);
      && (r.outcome.NotFound? <==> !AnyQualifies(sc))
      && (r.outcome.NotFound? ==> r.notices == Say(hasCallback, NoLogFolders))
      && (r.outcome.Found? ==> r.notices == [] && exists i :: (IsNewestFolder(sc, i) &&
            r.outcome.path == Join(Join(LogsDir(install.value), sc[i].entry.name), LogFileName)))
  {
    match ListLogs(install, fs, hasCallback)
    case Ended(r) => r
    case Listed(logs, entries) =>
      var sc := Scan(entries);
      if AnyQualifies(sc) then
        SortedHeadIsNewest(logs, sc);
        Pick(Candidates(logs, sc), hasCallback)
      else Pick(Candidates(logs, sc), hasCallback)
  }

  /** The loop of `find_latest_log_file` as written: a qualifying folder is
      collected, any other entry passed over, and the first overflowing one
      ends the search with its `OverflowError` (`None` here). */
  function CollectAsWritten(logs: Path, entries: seq<Entry>): Option<seq<Candidate>>
    decreases |entries|
  {
    if |entries| == 0 then Some([])
    else
      match Classify(entries[0])
      case Overflows => None
      case Skipped => CollectAsWritten(logs, entries[1..])
      case Qualifies(d) =>
        match CollectAsWritten(logs, entries[1..])
        case None => None
        case Some(c) => Some([Candidate(Join(logs, entries[0].name), d)] + c)
  }

  /** The loop as written raises exactly when an overflowing entry is
      listed; otherwise it collects what the corrected loop collects. */
  lemma {:induction false} CollectAsWrittenScan(logs: Path, entries: seq<Entry>)
    ensures CollectAsWritten(logs, entries).None? <==> exists i :: 0 <= i < |entries| && OverflowingEntry(entries[i])
    ensures CollectAsWritten(logs, entries).Some? ==> CollectAsWritten(logs, entries).value == Candidates(logs, Scan(entries))
    decreases |entries|
  {
    if |entries| > 0 {
      var rest := entries[1..];
      CollectAsWrittenScan(logs, rest);
      var sc := Scan(entries);
      assert sc[1..] == Scan(rest);
      assert forall i :: 1 <= i < |entries| ==> entries[i] == rest[i - 1];
      assert (exists i :: 0 <= i < |entries| && OverflowingEntry(entries[i])) <==>
        OverflowingEntry(entries[0]) || exists i :: 0 <= i < |rest| && OverflowingEntry(rest[i]) by {
        if exists i :: 0 <= i < |entries| && OverflowingEntry(entries[i]) {
          var i :| 0 <= i < |entries| && OverflowingEntry(entries[i]);
          if i > 0 {
            assert OverflowingEntry(rest[i - 1]);
          }
        }
        if exists i :: 0 <= i < |rest| && OverflowingEntry(rest[i]) {
          var i :| 0 <= i < |rest| && OverflowingEntry(rest[i]);
          assert OverflowingEntry(entries[i + 1]);
        }
      }
    }
  }

  /** `find_latest_log_file` as written: CPython's `datetime` raises
      `OverflowError` for a value beyond the C int range, `except ValueError`
      does not catch it, and the whole search raises. It raises exactly when
      the corrected search does or a listed entry overflows, and otherwise
      agrees with the corrected search. */
  function FindLatestLogFileAsWritten(install: Option<Path>, fs: FileSystem, hasCallback: bool): (r: FindResult)
    ensures install.Some? && LogsDir(install.value) in fs.dirs ==>
      var entries := fs.dirs[LogsDir(install.value)];
      (r.outcome == FindRaised <==> exists i :: 0 <= i < |entries| && OverflowingEntry(entries[i]))
    ensures !(install.Some? && LogsDir(install.value) in fs.dirs) ==> r == FindLatestLogFile(install, fs, hasCallback)
    ensures r.outcome != FindRaised ==> r == FindLatestLogFile(install, fs, hasCallback)
    ensures FindLatestLogFile(install, fs, hasCallback).outcome == FindRaised ==> r.outcome == FindRaised
    ensures r.outcome == FindRaised ==> r.notices == []
  {
    match ListLogs(install, fs, hasCallback)
    case Ended(r) => r
    case Listed(logs, entries) =>
      CollectAsWrittenScan(logs, entries);
      match CollectAsWritten(logs, entries)
      case None => FindResult(FindRaised, [])
      case Some(c) => Pick(c, hasCallback)
  }

  /** Six digit-only fields with the widths Hearthstone uses (the last one may
      run on: the pattern is anchored only at the start). */
  predicate StampFields(parts: seq<string>) {
    && |parts| == 6
    && (forall k :: 0 <= k < 6 ==> AllDigits(parts[k]))
    && |parts[0]| == 4 && |parts[1]| == 2 && |parts[2]| == 2 && |parts[3]| == 2 && |parts[4]| == 2
    && |parts[5]| >= 2
  }

  /** "Hearthstone_" followed by the fields joined with '_'. */
  function StampedName(parts: seq<string>): string
    requires |parts| == 6
  {
    FolderPrefix + JoinWith(parts, '_')
  }

  function StampOf(parts: seq<string>): DateTime
    requires StampFields(parts)
  {
    DateTime(DigitsValue(parts[0]), DigitsValue(parts[1]), DigitsValue(parts[2]),
             DigitsValue(parts[3]), DigitsValue(parts[4]), DigitsValue(parts[5]))
  }

  lemma StampedNameLayout(parts: seq<string>)
    requires StampFields(parts)
    ensures StampedName(parts) ==
      FolderPrefix + parts[0] + "_" + parts[1] + "_" + parts[2] + "_" + parts[3] + "_" + parts[4] + "_" + parts[5]
  {
    assert JoinWith(parts[5..], '_') == parts[5];
    assert JoinWith(parts[4..], '_') == parts[4] + "_" + parts[5];
    assert JoinWith(parts[3..], '_') == parts[3] + "_" + parts[4] + "_" + parts[5];
    assert JoinWith(parts[2..], '_') == parts[2] + "_" + parts[3] + "_" + parts[4] + "_" + parts[5];
    assert JoinWith(parts[1..], '_') == parts[1] + "_" + parts[2] + "_" + parts[3] + "_" + parts[4] + "_" + parts[5];
  }

  /** A well-formed name matches the pattern and splits back into its fields. */
  lemma StampedNameFields(parts: seq<string>)
    requires StampFields(parts)
    ensures MatchesPattern(StampedName(parts))
    ensures Fields(StampedName(parts)) == parts
  {
    var name := StampedName(parts);
    var tail := JoinWith(parts, '_');
    StampedNameLayout(parts);
    forall k | 0 <= k < 6
      ensures '_' !in parts[k] && 'H' !in parts[k]
    {
      assert AllDigits(parts[k]);
    }
    JoinSplit(parts, '_');
    assert name[..|FolderPrefix|] == FolderPrefix && name[|FolderPrefix|..] == tail;
    assert RemoveAll(name, FolderPrefix) == RemoveAll(tail, FolderPrefix);
    assert 'H' !in tail by {
      assert tail == parts[0] + "_" + parts[1] + "_" + parts[2] + "_" + parts[3] + "_" + parts[4] + "_" + parts[5];
    }
    RemoveAllAbsent(tail, FolderPrefix);
    MatchesLayout(parts);
  }

  lemma MatchesLayout(parts: seq<string>)
    requires StampFields(parts)
    requires StampedName(parts) ==
      FolderPrefix + parts[0] + "_" + parts[1] + "_" + parts[2] + "_" + parts[3] + "_" + parts[4] + "_" + parts[5]
    ensures MatchesPattern(StampedName(parts))
  {
    var name := StampedName(parts);
    var head := FolderPrefix + parts[0] + "_" + parts[1] + "_" + parts[2];
    var tail := "_" + parts[3] + "_" + parts[4] + "_" + parts[5];
    assert name == head + tail;
    HeadLayout(parts, head);
    TailLayout(parts, tail);
  }

  /** "Hearthstone_dddd_dd_dd": the first 22 characters of a stamped name. */
  lemma HeadLayout(parts: seq<string>, head: string)
    requires StampFields(parts)
    requires head == FolderPrefix + parts[0] + "_" + parts[1] + "_" + parts[2]
    ensures |head| == 22
    ensures forall i :: 0 <= i < 22 ==>
      if NamePattern[i] == 'd' then IsDigit(head[i]) else head[i] == NamePattern[i]
  {
    forall i | 0 <= i < 22
      ensures if NamePattern[i] == 'd' then IsDigit(head[i]) else head[i] == NamePattern[i]
    {
      if i < 12 {
      } else if i < 16 {
        assert head[i] == parts[0][i - 12];
      } else if i == 16 {
      } else if i < 19 {
        assert head[i] == parts[1][i - 17];
      } else if i == 19 {
      } else {
        assert head[i] == parts[2][i - 20];
      }
    }
  }

  /** "_dd_dd_dd…": the rest of a stamped name, from character 22 on. */
  lemma TailLayout(parts: seq<string>, tail: string)
    requires StampFields(parts)
    requires tail == "_" + parts[3] + "_" + parts[4] + "_" + parts[5]
    ensures |tail| >= 9
    ensures forall i :: 22 <= i < |NamePattern| ==>
      if NamePattern[i] == 'd' then IsDigit(tail[i - 22]) else tail[i - 22] == NamePattern[i]
  {
    forall i | 22 <= i < |NamePattern|
      ensures if NamePattern[i] == 'd' then IsDigit(tail[i - 22]) else tail[i - 22] == NamePattern[i]
    {
      if i == 22 {
      } else if i < 25 {
        assert tail[i - 22] == parts[3][i - 23];
      } else if i == 25 {
      } else if i < 28 {
        assert tail[i - 22] == parts[4][i - 26];
      } else if i == 28 {
      } else {
        assert tail[i - 22] == parts[5][i - 29];
      }
    }
  }

  /** How a well-formed folder name is judged: by its datetime's validity,
      or as an overflow when the last field exceeds a C int. */
  lemma ClassifyStamped(parts: seq<string>)
    requires StampFields(parts)
    ensures Classify(Entry(StampedName(parts), true)) ==
      if DigitsValue(parts[5]) > CIntMax then Overflows
      else if Valid(StampOf(parts)) then Qualifies(StampOf(parts))
      else Skipped
  {
    StampedNameFields(parts);
    StampedNameParses(parts);
    ClassifyParsed(Entry(StampedName(parts), true), StampValues(parts));
  }

  function StampValues(parts: seq<string>): (v: seq<int>)
    requires StampFields(parts)
    ensures |v| == 6
  {
    [DigitsValue(parts[0]), DigitsValue(parts[1]), DigitsValue(parts[2]),
     DigitsValue(parts[3]), DigitsValue(parts[4]), DigitsValue(parts[5])]
  }

  lemma StampedNameParses(parts: seq<string>)
    requires StampFields(parts)
    ensures ParseAll(parts) == Some(StampValues(parts))
    ensures forall k :: 0 <= k < 5 ==> 0 <= StampValues(parts)[k] < 10000
  {
    ParseAllDigits(parts);
    StampDigitValues(parts);
    StampFieldsBounded(parts);
  }

  /** The decimal values of digit-only fields, field by field. */
  function DigitValues(parts: seq<string>): (v: seq<nat>)
    requires forall k :: 0 <= k < |parts| ==> AllDigits(parts[k])
    ensures |v| == |parts|
    ensures forall k :: 0 <= k < |parts| ==> v[k] == DigitsValue(parts[k])
    decreases |parts|
  {
    if |parts| == 0 then [] else [DigitsValue(parts[0])] + DigitValues(parts[1..])
  }

  lemma StampDigitValues(parts: seq<string>)
    requires StampFields(parts)
    ensures DigitValues(parts) == StampValues(parts)
  {
  }

  /** The five fixed-width fields are below 10000. */
  lemma StampFieldsBounded(parts: seq<string>)
    requires StampFields(parts)
    ensures forall k :: 0 <= k < 5 ==> DigitsValue(parts[k]) < 10000
  {
    assert Pow10(2) == 100 && Pow10(4) == 10000;
    DigitsValueBound(parts[0]);
    DigitsValueBound(parts[1]);
    DigitsValueBound(parts[2]);
    DigitsValueBound(parts[3]);
    DigitsValueBound(parts[4]);
  }

  /** Fields made of digits all parse, each to its decimal value. */
  lemma {:induction false} ParseAllDigits(parts: seq<string>)
    requires forall k :: 0 <= k < |parts| ==> |parts[k]| > 0 && AllDigits(parts[k])
    ensures ParseAll(parts) == Some(DigitValues(parts))
    decreases |parts|
  {
    if |parts| > 0 {
      ParseDigits(parts[0]);
      assert forall k :: 1 <= k < |parts| ==> parts[1..][k - 1] == parts[k];
      ParseAllDigits(parts[1..]);
    }
  }

  /** One unfolding of `Classify` for a directory whose name matches and
      whose six fields all parse. */
  lemma ClassifyParsed(e: Entry, v: seq<int>)
    requires e.isDir && MatchesPattern(e.name) && |Fields(e.name)| == 6
    requires ParseAll(Fields(e.name)) == Some(v)
    requires forall k :: 0 <= k < 5 ==> 0 <= v[k] < 10000
    requires v[5] >= 0
    ensures Classify(e) ==
      if v[5] > CIntMax then Overflows
      else if Valid(DateTime(v[0], v[1], v[2], v[3], v[4], v[5])) then Qualifies(DateTime(v[0], v[1], v[2], v[3], v[4], v[5]))
      else Skipped
  {
    assert ParsedDir(e) && FieldValues(e) == v;
    assert InCInt(v) <==> v[5] <= CIntMax;
  }

  predicate InStampRange(d: DateTime) {
    && 0 <= d.year < 10000 && 0 <= d.month < 100 && 0 <= d.day < 100
    && 0 <= d.hour < 100 && 0 <= d.minute < 100 && 0 <= d.second < 100
  }

  /** The fields of the log folder of a session started at `d`, zero-padded. */
  function FolderParts(d: DateTime): seq<string>
    requires InStampRange(d)
  {
    [Pad(d.year, 4), Pad(d.month, 2), Pad(d.day, 2), Pad(d.hour, 2), Pad(d.minute, 2), Pad(d.second, 2)]
  }

  /** The name Hearthstone gives the log folder of a session started at `d`. */
  function FolderName(d: DateTime): string
    requires InStampRange(d)
  {
    StampedName(FolderParts(d))
  }

  lemma FolderPartsStamp(d: DateTime)
    requires InStampRange(d)
    ensures StampFields(FolderParts(d)) && StampOf(FolderParts(d)) == d
  {
    var p := FolderParts(d);
    StampFieldsOf(p[0], p[1], p[2], p[3], p[4], p[5]);
    assert Pow10(2) == 100 && Pow10(4) == 10000;
    PadValue(d.year, 4);
    PadValue(d.month, 2);
    PadValue(d.day, 2);
    PadValue(d.hour, 2);
    PadValue(d.minute, 2);
    PadValue(d.second, 2);
  }

  /** Round trip: a folder named for `d` qualifies with datetime `d` exactly
      when `d` is a real date and time; an impossible date is skipped. */
  lemma FolderNameRoundTrip(d: DateTime)
    requires InStampRange(d)
    ensures Classify(Entry(FolderName(d), true)) == if Valid(d) then Qualifies(d) else Skipped
  {
    FolderPartsStamp(d);
    ClassifyStamped(FolderParts(d));
  }

  /** Of two qualifying entries, only the later one is the newest. */
  lemma LaterOfTwoIsNewest(sc: seq<Scanned>, d1: DateTime, d2: DateTime, swap: bool)
    requires |sc| == 2 && Before(d1, d2)
    requires sc[if swap then 1 else 0].verdict == Qualifies(d1)
    requires sc[if swap then 0 else 1].verdict == Qualifies(d2)
    ensures forall i :: IsNewestFolder(sc, i) ==> i == if swap then 0 else 1
  {
    BeforeStrictTotal(d1, d2, d1);
  }

  /** Two sessions in the Logs directory: the Power.log of the later one is
      selected, whichever order the listing gives them in. */
  lemma {:induction false} NewerSessionSelected(install: Path, fs: FileSystem, d1: DateTime, d2: DateTime, swap: bool)
    requires Valid(d1) && Valid(d2) && Before(d1, d2)
    requires LogsDir(install) in fs.dirs
    requires fs.dirs[LogsDir(install)] ==
      if swap then [Entry(FolderName(d2), true), Entry(FolderName(d1), true)]
      else [Entry(FolderName(d1), true), Entry(FolderName(d2), true)]
    ensures FindLatestLogFile(Some(install), fs, true).outcome
      == Found(Join(Join(LogsDir(install), FolderName(d2)), LogFileName))
  {
    var listing := fs.dirs[LogsDir(install)];
    FolderNameRoundTrip(d1);
    FolderNameRoundTrip(d2);
    var sc := Scan(listing);
    var later := if swap then 0 else 1;
    assert sc[1 - later].verdict == Qualifies(d1);
    assert sc[later].verdict == Qualifies(d2);
    assert sc[later].entry.name == FolderName(d2);
    LaterOfTwoIsNewest(sc, d1, d2, swap);
  }

  lemma StampFieldsOf(p0: string, p1: string, p2: string, p3: string, p4: string, p5: string)
    requires |p0| == 4 && |p1| == 2 && |p2| == 2 && |p3| == 2 && |p4| == 2 && |p5| >= 2
    requires AllDigits(p0) && AllDigits(p1) && AllDigits(p2) && AllDigits(p3) && AllDigits(p4) && AllDigits(p5)
    ensures StampFields([p0, p1, p2, p3, p4, p5])
  {
  }

  /** Fields of a folder name whose seconds run on past the C int range:
      "2024", "01", "01", "00", "00", "002147483648". */
  const OverflowParts := [Pad(2024, 4), Pad(1, 2), Pad(1, 2), Pad(0, 2), Pad(0, 2), Pad(0x8000_0000, 12)]

  lemma OverflowPartsOverflow()
    ensures StampFields(OverflowParts) && DigitsValue(OverflowParts[5]) > CIntMax
  {
    StampFieldsOf(Pad(2024, 4), Pad(1, 2), Pad(1, 2), Pad(0, 2), Pad(0, 2), Pad(0x8000_0000, 12));
    assert Pow10(12) == 1_000_000_000_000;
    PadValue(0x8000_0000, 12);
  }

  /** Finding: next to a valid session folder, a well-formed folder name
      whose seconds field exceeds the C int range (`OverflowParts`, i.e.
      "Hearthstone_2024_01_01_00_00_002147483648", is one) makes the scan as
      written raise, so no log is found; the corrected selection returns the
      valid session. */
  lemma {:induction false} OverflowingFolderAbortsScan(install: Path, fs: FileSystem, d: DateTime, parts: seq<string>, hasCallback: bool)
    requires Valid(d)
    requires StampFields(parts) && DigitsValue(parts[5]) > CIntMax
    requires LogsDir(install) in fs.dirs
    requires fs.dirs[LogsDir(install)] == [Entry(FolderName(d), true), Entry(StampedName(parts), true)]
    ensures FindLatestLogFileAsWritten(Some(install), fs, hasCallback).outcome == FindRaised
    ensures FindLatestLogFile(Some(install), fs, hasCallback).outcome
      == Found(Join(Join(LogsDir(install), FolderName(d)), LogFileName))
  {
    FolderNameRoundTrip(d);
    ClassifyStamped(parts);
    var sc := Scan(fs.dirs[LogsDir(install)]);
    assert sc[0].verdict == Qualifies(d) && sc[1].verdict == Overflows;
    assert sc[0].entry.name == FolderName(d);
    SessionBesideOverflow(sc, d);
  }

  lemma SessionBesideOverflow(sc: seq<Scanned>, d: DateTime)
    requires |sc| == 2 && sc[0].verdict == Qualifies(d) && sc[1].verdict == Overflows
    ensures forall i :: IsNewestFolder(sc, i) ==> i == 0
  {
  }

  /** The corrected selection never raises once the Logs directory can be listed. */
  lemma CorrectedScanNeverRaises(install: Path, fs: FileSystem, hasCallback: bool)
    requires LogsDir(install) in fs.dirs
    ensures FindLatestLogFile(Some(install), fs, hasCallback).outcome != FindRaised
  {
  }
}
