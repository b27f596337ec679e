/** `HSLogWatcher`: the watcher's state and its transitions, each a pure
    function from the old state (and what the outside world answers) to the
    new state, the messages sent to the callback, and what it returns. */
module Watcher {
  import opened Optional
  import opened PyText
  import opened WinPath
  import opened Notices
  import opened Timestamp
  import opened LogFolders
  import opened Cards
  import opened ApiSender

  /** The watcher's fields. `parser` is `None` once the watcher is stopped,
      else the games its `LogParser` holds; `afterId` is the Tk timer id
      (Tk ids are non-empty strings, so a set id is always truthy). */
  datatype Watcher = Watcher(
    installPath: Option<Path>,
    logPath: Option<Path>,
    lastLogPath: Option<Path>,
    isMounted: bool,
    parser: Option<seq<ParsedGame>>,
    hasCallback: bool,
    hasRoot: bool,
    afterId: Option<nat>,
    sender: Sender)

  /** What every reachable state satisfies: the two paths move together,
      a timer exists only with a root window, and a mounted watcher has a parser. */
  predicate Inv(w: Watcher) {
    && w.logPath == w.lastLogPath
    && (w.afterId.Some? ==> w.hasRoot)
    && (w.isMounted ==> w.parser.Some?)
  }

  /** `HSLogWatcher(callback_func)`. */
  function NewWatcher(hasCallback: bool, sender: Sender): (w: Watcher)
    ensures Inv(w)
    ensures w.logPath.None? && w.installPath.None? && !w.isMounted && w.parser == Some([])
    ensures w.hasCallback == hasCallback && !w.hasRoot && w.afterId.None?
  {
    Watcher(None, None, None, false, Some([]), hasCallback, false, None, sender)
  }

  /** `set_install_path(path)`. */
  function SetInstallPath(w: Watcher, p: Option<Path>): (r: Watcher)
    ensures r.installPath == p && r.(installPath := w.installPath) == w
    ensures Inv(w) ==> Inv(r)
  {
    w.(installPath := p)
  }

  /** `set_root(root)`. */
  function SetRoot(w: Watcher): (r: Watcher)
    ensures r.hasRoot && r.(hasRoot := w.hasRoot) == w
    ensures Inv(w) ==> Inv(r)
  {
    w.(hasRoot := true)
  }

  /** A new state and the messages sent while reaching it. */
  datatype Stepped = Stepped(w: Watcher, notices: seq<Notice>)

  /** `set_log_path(path)`: a different path is recorded as both the current
      and the last path, announced, and gets a fresh parser. */
  function SetLogPath(w: Watcher, p: Option<Path>): (r: Stepped)
    ensures r.w.logPath == p && (Inv(w) ==> r.w.lastLogPath == p)
    ensures p == w.logPath ==> r == Stepped(w, [])
    ensures p != w.logPath ==>
      (r.w.parser == Some([]) && r.w.lastLogPath == p && r.notices == Say(w.hasCallback, LogPathSet(OptText(p))))
    ensures r.w.(logPath := w.logPath, lastLogPath := w.lastLogPath, parser := w.parser) == w
    ensures Inv(w) ==> Inv(r.w)
  {
    if p == w.logPath then Stepped(w, [])
    else Stepped(w.(logPath := p, lastLogPath := p, parser := Some([])),
                 Say(w.hasCallback, LogPathSet(OptText(p))))
  }

  /** What `mount_log_file` returns: `False`, `True`, nothing (`None`), or raises. */
  datatype MountReturn = MountFalse | MountTrue | MountNone | MountRaised

  datatype Mounted = Mounted(w: Watcher, notices: seq<Notice>, ret: MountReturn)

  /** `not self.log_path or not os.path.exists(self.log_path)`. */
  predicate Stale(fs: FileSystem, p: Option<Path>) {
    p.None? || p.value == "" || !Exists(fs, p.value)
  }

  /** The part of `mount_log_file()` after the search found `p` and
      `os.path.exists(p)` held: a stale current path is replaced and
      announced through an unguarded callback, which raises when there is
      none; otherwise a path other than the last one is adopted and
      announced, and the same path leaves everything as it was. */
  function Remount(w: Watcher, fs: FileSystem, p: Path): (r: Mounted)
    requires Exists(fs, p)
    ensures Inv(w) ==> r.w.logPath == Some(p) && Inv(r.w)
    ensures r.w.(logPath := w.logPath, lastLogPath := w.lastLogPath, parser := w.parser) == w
    ensures r.ret != MountFalse
    ensures r.ret == MountRaised <==> Stale(fs, w.logPath) && !w.hasCallback
    ensures r.ret == MountTrue <==>
      (Stale(fs, w.logPath) && w.hasCallback) || (!Stale(fs, w.logPath) && w.lastLogPath == Some(p))
    ensures r.ret == MountNone <==> !Stale(fs, w.logPath) && w.lastLogPath != Some(p)
    ensures r.ret == MountNone && Inv(w) ==> r.w.parser == Some([])
    ensures r.ret == MountNone && w.hasCallback ==> LatestLogFound(p) in r.notices
    ensures r.ret == MountTrue && !Stale(fs, w.logPath) ==> r == Mounted(w, [], MountTrue)
    ensures Stale(fs, w.logPath) && w.hasCallback ==> NewLogPath(p) in r.notices
  {
    if Stale(fs, w.logPath) then
      var s := SetLogPath(w, Some(p));
      if w.hasCallback then Mounted(s.w, s.notices + [NewLogPath(p)], MountTrue)
      else Mounted(s.w, s.notices, MountRaised)
    else if Some(p) != w.lastLogPath then
      var s := SetLogPath(w, Some(p));
      Mounted(s.w, Say(w.hasCallback, LatestLogFound(p)) + s.notices, MountNone)
    else Mounted(w, [], MountTrue)
  }

  /** Which folder search the watcher runs: `find_latest_log_file` as
      written, or corrected to skip a folder whose datetime overflows. */
  datatype Search = AsWritten | Corrected

  function Find(search: Search, w: Watcher, fs: FileSystem): (r: FindResult)
    ensures r.outcome.Found? || r.outcome == FindRaised ==> r.notices == []
  {
    match search
    case AsWritten => FindLatestLogFileAsWritten(w.installPath, fs, w.hasCallback)
    case Corrected => FindLatestLogFile(w.installPath, fs, w.hasCallback)
  }

  /** `mount_log_file()`: points the watcher at the newest `Power.log`.
      A `None` from the search makes `os.path.exists(None)` raise; a found
      path that does not exist makes it return `False`. */
  function Mount(w: Watcher, fs: FileSystem, search: Search): (r: Mounted)
    ensures var f := Find(search, w, fs);
      && (!f.outcome.Found? ==> r == Mounted(w, f.notices, MountRaised))
      && (f.outcome.Found? && !Exists(fs, f.outcome.path) ==> r == Mounted(w, f.notices, MountFalse))
      && (f.outcome.Found? && Exists(fs, f.outcome.path) ==>
            var m := Remount(w, fs, f.outcome.path);
            r == Mounted(m.w, f.notices + m.notices, m.ret))
    ensures Inv(w) ==> Inv(r.w)
    ensures r.w.(logPath := w.logPath, lastLogPath := w.lastLogPath, parser := w.parser) == w
  {
    var f := Find(search, w, fs);
    match f.outcome
    case FindRaised => Mounted(w, f.notices, MountRaised)
    case NotFound => Mounted(w, f.notices, MountRaised)
    case Found(p) =>
      if !Exists(fs, p) then Mounted(w, f.notices, MountFalse)
      else
        var m := Remount(w, fs, p);
        Mounted(m.w, f.notices + m.notices, m.ret)
  }

  /** What reading the log file did: read it all, or raised after taking in
      the games listed. */
  datatype ReadOutcome = ReadOk(games: seq<ParsedGame>) | ReadFailed(partial: seq<ParsedGame>)

  /** `open(self.log_path)` succeeds only on an existing plain file. */
  predicate Opens(fs: FileSystem, p: Option<Path>) {
    p.Some? && p.value in fs.files
  }

  /** `parse_log_file()`: a fresh parser reads the whole file; any failure
      leaves the watcher unmounted and says it is waiting for a game. */
  function Parse(w: Watcher, fs: FileSystem, read: ReadOutcome): (r: Stepped)
    ensures r.w.isMounted <==> Opens(fs, w.logPath) && read.ReadOk?
    ensures r.w.isMounted ==> r.w.parser == Some(read.games) && r.notices == []
    ensures !r.w.isMounted ==> r.notices == Say(w.hasCallback, WaitingForGame)
    ensures !r.w.isMounted && !Opens(fs, w.logPath) ==> r.w.parser == Some([])
    ensures !r.w.isMounted && Opens(fs, w.logPath) ==> r.w.parser == Some(read.partial)
    ensures r.w.(isMounted := w.isMounted, parser := w.parser) == w
    ensures Inv(w) ==> Inv(r.w)
  {
    if Opens(fs, w.logPath) && read.ReadOk? then
      Stepped(w.(parser := Some(read.games), isMounted := true), [])
    else
      var games := if Opens(fs, w.logPath) then read.partial else [];
      Stepped(w.(parser := Some(games), isMounted := false), Say(w.hasCallback, WaitingForGame))
  }

  /** A card list, with the error message its extraction sends when it fails. */
  function Reported(x: Extraction, hasCallback: bool, error: Notice): (r: (seq<CardRecord>, seq<Notice>))
    ensures x.Extracted? ==> r == (x.records, [])
    ensures x.ExtractionFailed? ==> r == ([], Say(hasCallback, error))
  {
    if x.Extracted? then (x.records, []) else ([], Say(hasCallback, error))
  }

  /** The snapshot of one game: both players' cards, with the messages for
      a side that is missing. */
  function CollectCards(s: Sides, hasCallback: bool): (r: (Snapshot, seq<Notice>))
    ensures r.0.myCards == (if s.me.Some? then CardsIn(s.me.value.entities) else [])
    ensures r.0.enemyCards == (if s.enemy.Some? then CardsIn(s.enemy.value.entities) else [])
    ensures r.1 == Say(hasCallback && s.me.None?, AllCardsError) + Say(hasCallback && s.enemy.None?, AllCardsError)
  {
    var mine := Reported(AllPlayerCards(s.me), hasCallback, AllCardsError);
    var theirs := Reported(AllPlayerCards(s.enemy), hasCallback, AllCardsError);
    (Snapshot(mine.0, theirs.0), mine.1 + theirs.1)
  }

  /** One run of `schedular()`: the new state, the messages, the data sent
      to the API (at most one request), and whether re-arming the timer raised. */
  datatype Cycle = Cycle(w: Watcher, notices: seq<Notice>, requests: seq<Request>, raised: bool)

  /** The part of `schedular()` inside its `try`. */
  function CycleBody(w: Watcher, fs: FileSystem, read: ReadOutcome, search: Search): (r: (Watcher, seq<Notice>, seq<Request>))
    ensures |r.2| <= 1
    ensures Inv(w) ==> Inv(r.0)
    ensures r.0.hasRoot == w.hasRoot && r.0.afterId == w.afterId && r.0.hasCallback == w.hasCallback
  {
    AfterMount(w, fs, read, Mount(w, fs, search))
  }

  /** What the `try` does once `mount_log_file()` has given `m`. */
  function AfterMount(w: Watcher, fs: FileSystem, read: ReadOutcome, m: Mounted): (r: (Watcher, seq<Notice>, seq<Request>))
    ensures |r.2| <= 1
    ensures Inv(m.w) ==> Inv(r.0)
    ensures r.0.hasRoot == m.w.hasRoot && r.0.afterId == m.w.afterId && r.0.hasCallback == m.w.hasCallback
  {
    if m.ret == MountRaised then (m.w, m.notices + Say(w.hasCallback, TransientError), [])
    else
      var p := Parse(m.w, fs, read);
      if w.hasCallback && p.w.isMounted then
        match LastGamePlayers(read.games)
        case None => (p.w, m.notices + p.notices + [TransientError], [])
        case Some(sides) =>
          var c := CollectCards(sides, true);
          (p.w, m.notices + p.notices + c.1, [LogDataRequest(w.sender, SnapshotJson(c.0))])
      else (p.w, m.notices + p.notices, [])
  }

  /** `schedular()`: the body, then `self.root.after(5000, ...)`, which is
      outside the `try` and raises when no root window was set. `timer` is
      the id Tk hands back. */
  function Schedular(w: Watcher, fs: FileSystem, read: ReadOutcome, timer: nat, search: Search): (r: Cycle)
    ensures r.raised <==> !w.hasRoot
    ensures !r.raised ==> r.w.afterId == Some(timer)
    ensures Inv(w) ==> Inv(r.w)
    ensures |r.requests| <= 1
    ensures |r.requests| == 1 <==>
      && Mount(w, fs, search).ret != MountRaised
      && w.hasCallback
      && Opens(fs, Mount(w, fs, search).w.logPath) && read.ReadOk?
      && LastGamePlayers(read.games).Some?
    ensures |r.requests| == 1 ==>
      var s := LastGamePlayers(read.games).value;
      r.requests[0] == LogDataRequest(w.sender, SnapshotJson(CollectCards(s, true).0))
  {
    var b := CycleBody(w, fs, read, search);
    if w.hasRoot then Cycle(b.0.(afterId := Some(timer)), b.1, b.2, false)
    else Cycle(b.0, b.1, b.2, true)
  }

  /** `stop_log_watcher()`. Clearing the path through `set_log_path` gives
      the watcher a fresh parser again unless the path was already unset. */
  function Stop(w: Watcher): (r: Stepped)
    ensures r.w.logPath.None? && !r.w.isMounted
    ensures r.w.parser == if w.logPath.None? then None else Some([])
    ensures Inv(w) ==> r.w.afterId.None? && r.w.lastLogPath.None? && Inv(r.w)
    ensures r.notices == Say(w.hasCallback, WatcherStopped) + Say(w.hasCallback && w.logPath.Some?, LogPathSet("None"))
    ensures r.w.installPath == w.installPath && r.w.hasCallback == w.hasCallback && r.w.hasRoot == w.hasRoot
  {
    var w1 := w.(parser := None, isMounted := false);
    var s := SetLogPath(w1, None);
    var w2 := if s.w.hasRoot && s.w.afterId.Some? then s.w.(afterId := None) else s.w;
    Stepped(w2, Say(w.hasCallback, WatcherStopped) + s.notices)
  }

  /** What can happen to a watcher: the GUI's setters (including
      `set_api_key` on the watcher's own sender), a timer tick, a stop. */
  datatype Event =
    | InstallPathSet(path: Option<Path>)
    | RootSet
    | ApiKeySet(key: string)
    | Tick(fs: FileSystem, read: ReadOutcome, timer: nat)
    | Stopped

  function Apply(w: Watcher, e: Event, search: Search): Watcher {
    match e
    case InstallPathSet(p) => SetInstallPath(w, p)
    case RootSet => SetRoot(w)
    case ApiKeySet(key) => w.(sender := SetApiKey(w.sender, key))
    case Tick(fs, read, timer) => Schedular(w, fs, read, timer, search).w
    case Stopped => Stop(w).w
  }

  function Run(w: Watcher, es: seq<Event>, search: Search): Watcher
    decreases |es|
  {
    if |es| == 0 then w else Run(Apply(w, es[0], search), es[1..], search)
  }

  /** Every state reachable from a new watcher satisfies the invariant; in
      particular `log_path` and `last_log_path` never differ. */
  lemma {:induction false} RunKeepsInv(w: Watcher, es: seq<Event>, search: Search)
    requires Inv(w)
    ensures Inv(Run(w, es, search))
    decreases |es|
  {
    if |es| > 0 {
      RunKeepsInv(Apply(w, es[0], search), es[1..], search);
    }
  }

  lemma ReachableInv(hasCallback: bool, sender: Sender, es: seq<Event>, search: Search)
    ensures Inv(Run(NewWatcher(hasCallback, sender), es, search))
  {
    RunKeepsInv(NewWatcher(hasCallback, sender), es, search);
  }

  /** Once a mount has found an existing newest log, mounting again against
      the same folders changes nothing and says nothing. */
  lemma MountSettles(w: Watcher, fs: FileSystem, search: Search)
    requires Inv(w)
    requires var f := Find(search, w, fs);
      f.outcome.Found? && Exists(fs, f.outcome.path)
    ensures var m := Mount(w, fs, search); Mount(m.w, fs, search) == Mounted(m.w, [], MountTrue)
  {
    var f := Find(search, w, fs);
    var m := Mount(w, fs, search);
    FoundAdopted(w, fs, search);
    FindFrame(search, w, m.w, fs);
    SettledMount(m.w, fs, search);
  }

  /** A watcher already on the log its search finds mounts silently. */
  lemma SettledMount(v: Watcher, fs: FileSystem, search: Search)
    requires Inv(v)
    requires var f := Find(search, v, fs);
      f.outcome.Found? && Exists(fs, f.outcome.path) && v.logPath == Some(f.outcome.path)
    ensures Mount(v, fs, search) == Mounted(v, [], MountTrue)
  {
    assert !Stale(fs, v.logPath);
  }

  /** Without a callback, the first cycle that finds a log adopts it and then
      raises on the unguarded announcement, so nothing is parsed; the next
      mount accepts the path quietly. */
  lemma SilentFirstCycle(w: Watcher, fs: FileSystem, read: ReadOutcome, timer: nat, search: Search)
    requires Inv(w) && !w.hasCallback && Stale(fs, w.logPath)
    requires var f := Find(search, w, fs);
      f.outcome.Found? && Exists(fs, f.outcome.path)
    ensures var p := Find(search, w, fs).outcome.path;
      var c := Schedular(w, fs, read, timer, search);
      && Mount(w, fs, search).ret == MountRaised
      && c.w.logPath == Some(p) && c.w.isMounted == w.isMounted
      && c.notices == [] && c.requests == []
      && Mount(c.w, fs, search) == Mounted(c.w, [], MountTrue)
  {
    var m := Mount(w, fs, search);
    QuietAdoptRaises(w, fs, search);
    assert AfterMount(w, fs, read, m) == (m.w, [], []);
    var c := Schedular(w, fs, read, timer, search);
    assert c.w.installPath == w.installPath && c.w.hasCallback == w.hasCallback && Inv(c.w);
    FindFrame(search, w, c.w, fs);
    SettledMount(c.w, fs, search);
  }

  /** Without a callback, a mount that finds a new existing log adopts it
      and raises, saying nothing. */
  lemma QuietAdoptRaises(w: Watcher, fs: FileSystem, search: Search)
    requires Inv(w) && !w.hasCallback && Stale(fs, w.logPath)
    requires var f := Find(search, w, fs);
      f.outcome.Found? && Exists(fs, f.outcome.path)
    ensures var m := Mount(w, fs, search);
      && m.ret == MountRaised && m.notices == []
      && m.w.logPath == Some(Find(search, w, fs).outcome.path)
  {
  }

  /** The search reads only the install path and whether there is a callback. */
  lemma FindFrame(search: Search, w: Watcher, v: Watcher, fs: FileSystem)
    requires w.installPath == v.installPath && w.hasCallback == v.hasCallback
    ensures Find(search, w, fs) == Find(search, v, fs)
  {
  }

  /** A full cycle in the normal case: the newest log is a readable file whose
      last game has two players, so the snapshot holds the friendly
      player's cards and the opponent's, and only the mount's messages are sent. */
  lemma SnapshotCycle(w: Watcher, fs: FileSystem, rest: seq<ParsedGame>, a: Player, b: Player, g: ExportedGame, timer: nat, search: Search)
    requires Inv(w) && w.hasCallback && w.hasRoot
    requires var f := Find(search, w, fs);
      f.outcome.Found? && f.outcome.path in fs.files
    requires a.playerId != b.playerId && g.players == [a, b]
    ensures var games := rest + [ParsedGame(Some(a.playerId), Some(g), false)];
      var c := Schedular(w, fs, ReadOk(games), timer, search);
      && c.requests == [LogDataRequest(w.sender, SnapshotJson(Snapshot(CardsIn(a.entities), CardsIn(b.entities))))]
      && c.notices == Mount(w, fs, search).notices
      && c.w.isMounted && c.w.parser == Some(games) && c.w.afterId == Some(timer) && !c.raised
  {
    var games := rest + [ParsedGame(Some(a.playerId), Some(g), false)];
    TwoPlayers(a, b, a.playerId, g, rest);
    var m := Mount(w, fs, search);
    assert m.ret != MountRaised;
    assert Opens(fs, m.w.logPath);
  }

  /** Stopping twice: the second stop only drops the parser the first one
      recreated, and says nothing but that the watcher stopped. */
  lemma StopTwice(w: Watcher)
    ensures var s := Stop(w);
      Stop(s.w) == Stepped(s.w.(parser := None), Say(w.hasCallback, WatcherStopped))
  {
  }

  /** The two searches lead to the same cycle unless the search as written
      raises. */
  lemma SearchesAgree(w: Watcher, fs: FileSystem, read: ReadOutcome, timer: nat)
    requires Find(AsWritten, w, fs).outcome != FindRaised
    ensures Schedular(w, fs, read, timer, AsWritten) == Schedular(w, fs, read, timer, Corrected)
  {
    MountsAgree(w, fs);
    assert CycleBody(w, fs, read, AsWritten) == CycleBody(w, fs, read, Corrected);
  }

  lemma MountsAgree(w: Watcher, fs: FileSystem)
    requires Find(AsWritten, w, fs).outcome != FindRaised
    ensures Mount(w, fs, AsWritten) == Mount(w, fs, Corrected)
  {
    assert Find(AsWritten, w, fs) == Find(Corrected, w, fs);
  }

  /** The finding seen from the watcher: with a valid session folder and a
      well-formed folder whose seconds field overflows a C int, every cycle
      of the program as written ends in the scheduler's catch-all. The path
      stays as it was, nothing is parsed and nothing is posted. The
      corrected search adopts the session's log instead. */
  lemma OverflowStallsWatcher(w: Watcher, fs: FileSystem, install: Path, d: DateTime, parts: seq<string>,
                              read: ReadOutcome, timer: nat)
    requires Inv(w) && w.installPath == Some(install)
    requires Valid(d) && StampFields(parts) && DigitsValue(parts[5]) > CIntMax
    requires LogsDir(install) in fs.dirs
    requires fs.dirs[LogsDir(install)] == [Entry(FolderName(d), true), Entry(StampedName(parts), true)]
    requires Join(Join(LogsDir(install), FolderName(d)), LogFileName) in fs.files
    ensures var c := Schedular(w, fs, read, timer, AsWritten);
      && c.requests == []
      && c.w.logPath == w.logPath && c.w.isMounted == w.isMounted && c.w.parser == w.parser
      && c.notices == Say(w.hasCallback, TransientError)
    ensures Mount(w, fs, Corrected).w.logPath == Some(Join(Join(LogsDir(install), FolderName(d)), LogFileName))
  {
    OverflowingFolderAbortsScan(install, fs, d, parts, w.hasCallback);
    RaisingSearchStalls(w, fs, read, timer, AsWritten);
    FoundAdopted(w, fs, Corrected);
  }

  /** A mount whose search finds an existing log points the watcher at it. */
  lemma FoundAdopted(w: Watcher, fs: FileSystem, search: Search)
    requires Inv(w)
    requires var f := Find(search, w, fs); f.outcome.Found? && Exists(fs, f.outcome.path)
    ensures Mount(w, fs, search).w.logPath == Some(Find(search, w, fs).outcome.path)
  {
  }

  /** A cycle whose search raises changes nothing but the timer, posts
      nothing, and sends only the "transient error" message. */
  lemma RaisingSearchStalls(w: Watcher, fs: FileSystem, read: ReadOutcome, timer: nat, search: Search)
    requires Find(search, w, fs).outcome == FindRaised
    ensures var c := Schedular(w, fs, read, timer, search);
      && c.requests == [] && c.w.(afterId := w.afterId) == w
      && c.notices == Say(w.hasCallback, TransientError)
  {
    var m := Mount(w, fs, search);
    assert m == Mounted(w, [], MountRaised);
    assert m.ret == MountRaised;
    assert AfterMount(w, fs, read, m).0 == w;
    assert AfterMount(w, fs, read, m).1 == [] + Say(w.hasCallback, TransientError);
    assert AfterMount(w, fs, read, m).2 == [];
  }
}
