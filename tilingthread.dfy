/**
 * The tiling thread: the output mode chosen from the output path, and the
 * `run` / `stop` / `confirmContinue` / `confirmStop` protocol that renders
 * the tile list in order, asks for confirmation above 10000 tiles, stops
 * after the tile during which `stop` was requested, finalizes the writer and
 * emits one terminal signal, unless finalizing raises (an NGM archive with
 * no tile in it).
 *
 * The thread runs concurrently with the dialog; here the two points where
 * they meet are inputs of `Run`: the user's answer at the confirmation gate,
 * and the schedule of `stop` calls (`stops[i]`: `stop` was called while tile
 * `i` was being rendered). Rendering a tile is recorded as the writer call it
 * ends with; the writers themselves are modelled in `Writers`.
 */
module TilingThread {
  import opened Wrappers
  import opened Strings
  import opened Tiles

  /** The writer kinds, selected from the output path. */
  datatype Mode = Dir | Zip | Ngm | MbTiles

  /**
   * `__init__`'s mode selection: a directory is always written as a
   * directory tree, otherwise the lower-cased suffix picks the writer; any
   * other suffix leaves the mode unset.
   */
  function ModeOf(isDir: bool, suffix: string): (m: Option<Mode>)
    ensures m == Some(Dir) <==> isDir
    ensures m == Some(Zip) <==> !isDir && Lower(suffix) == "zip"
    ensures m == Some(Ngm) <==> !isDir && Lower(suffix) == "ngrc"
    ensures m == Some(MbTiles) <==> !isDir && Lower(suffix) == "mbtiles"
    ensures m.None? <==> !isDir && Lower(suffix) !in {"zip", "ngrc", "mbtiles"}
  {
    if isDir then Some(Dir)
    else if Lower(suffix) == "zip" then Some(Zip)
    else if Lower(suffix) == "ngrc" then Some(Ngm)
    else if Lower(suffix) == "mbtiles" then Some(MbTiles)
    else None
  }

  /** The TMS flag the thread keeps: the MBTiles format always numbers rows the TMS way. */
  function TmsConventionOf(isDir: bool, suffix: string, tmsConvention: bool): (tms: bool)
    ensures tms <==> tmsConvention || ModeOf(isDir, suffix) == Some(MbTiles)
  {
    if ModeOf(isDir, suffix) == Some(MbTiles) then true else tmsConvention
  }

  /**
   * The root directory name: the given one, or for an empty one
   * `tileset_<seconds>`, the integral part of the clock reading.
   */
  function RootDirOf(rootDir: string, clockSeconds: nat): (r: string)
    ensures rootDir != [] ==> r == rootDir
    ensures rootDir == [] ==> |r| > 8 && r[..8] == "tileset_" && AllDigits(r[8..]) && DigitsValue(r[8..]) == clockSeconds
  {
    if rootDir != [] then rootDir
    else
      var r := "tileset_" + NatToString(clockSeconds);
      assert r[8..] == NatToString(clockSeconds);
      DigitsRoundTrip(clockSeconds);
      r
  }

  const WarningThresholdTilesCount: int := 10000

  datatype RangeLabel = Searching | Rendering

  /** The thread's signals, in the order they are emitted. */
  datatype Signal =
    | RangeChanged(text: RangeLabel, maximum: int)
    | UpdateProgress
    | ProcessFinished
    | ProcessInterrupted
    | Threshold(count: int)

  /** What the thread does outside its signals: writer calls and side files. */
  datatype Action =
    | OpenWriter(mode: Mode)
    | WriteMapurlFile
    | WriteLeafletViewer
    | WriteJsonFile
    | WriteOverviewFile
    | WriteTile(tile: Tile)
    | FinalizeWriter

  /** The user's answer at the confirmation gate: `confirmContinue` or `confirmStop`. */
  datatype GateAnswer = Continue | Stop

  /**
   * How `run` ends: it returns, raises, or blocks for ever on the confirmation mutex.
   * It raises on the unset `mode`, on `del` of a tile list that is already
   * `None`, on `len(None)`, and in the NGM writer's `finalize` when no level
   * was recorded (`max` of no keys).
   */
  datatype Crash = ModeUnset | DeleteOfNone | LengthOfNone | NoLevels
  datatype RunOutcome = Returned | Raised(crash: Crash) | Deadlocked

  /** The settings `run` reads but never changes. */
  datatype Config = Config(mode: Option<Mode>, mapUrl: bool, viewer: bool, jsonFile: bool, overview: bool)

  /** The thread's fields that `run` changes. */
  datatype ThreadState = ThreadState(
    stopMe: int,
    interrupted: bool,
    tiles: Option<seq<Tile>>,
    confirmLocked: bool,
    signals: seq<Signal>,
    actions: seq<Action>)

  /** Creating the writer and the side files `run` writes before rendering. */
  function Setup(cfg: Config): (r: seq<Action>)
    requires cfg.mode.Some?
    ensures |r| >= 1 && r[0] == OpenWriter(cfg.mode.value)
    ensures FinalizeWriter !in r && forall t: Tile :: WriteTile(t) !in r
  {
    [OpenWriter(cfg.mode.value)]
    + (if cfg.mode.value == Dir && cfg.mapUrl then [WriteMapurlFile] else [])
    + (if cfg.mode.value == Dir && cfg.viewer then [WriteLeafletViewer] else [])
    + (if cfg.jsonFile then [WriteJsonFile] else [])
    + (if cfg.overview then [WriteOverviewFile] else [])
  }

  predicate StopAt(stops: seq<bool>, i: nat) {
    i < |stops| && stops[i]
  }

  /** The position of the first tile among the first `n` during which `stop` was called, or `n`. */
  function FirstStop(stops: seq<bool>, n: nat, i: nat): (f: nat)
    requires i <= n
    ensures i <= f <= n
    ensures f < n ==> StopAt(stops, f)
    decreases n - i
  {
    if i == n then n else if StopAt(stops, i) then i else FirstStop(stops, n, i + 1)
  }

  /** The number of tiles the loop renders: up to and including the first one during which `stop` came. */
  function RenderedCount(stops: seq<bool>, n: nat): (k: nat)
    ensures k <= n && (n > 0 ==> k >= 1)
  {
    var f := FirstStop(stops, n, 0);
    if f < n then f + 1 else n
  }

  /** The writer calls for the first `k` tiles. */
  function WriteTiles(tiles: seq<Tile>, k: nat): (r: seq<Action>)
    requires k <= |tiles|
    ensures |r| == k
  {
    if k == 0 then [] else WriteTiles(tiles, k - 1) + [WriteTile(tiles[k - 1])]
  }

  function Progress(k: nat): (r: seq<Signal>)
    ensures |r| == k
  {
    if k == 0 then [] else Progress(k - 1) + [UpdateProgress]
  }

  /** The gate above the threshold: the mutex is taken, the threshold emitted, and the answer applied. */
  function Gate(st: ThreadState, answer: GateAnswer): ThreadState {
    var st := st.(confirmLocked := true, signals := st.signals + [Threshold(WarningThresholdTilesCount)]);
    if answer == Continue then st.(confirmLocked := false)
    else st.(interrupted := true, confirmLocked := false)
  }

  /** The loop, once the gate has let the run through. */
  function RenderAll(st: ThreadState, stops: seq<bool>): ThreadState
    requires st.tiles.Some?
  {
    var ts := st.tiles.value;
    var stopped := FirstStop(stops, |ts|, 0) < |ts|;
    st.(stopMe := if stopped then 1 else 0,
        interrupted := stopped,
        actions := st.actions + WriteTiles(ts, RenderedCount(stops, |ts|)),
        signals := st.signals + Progress(RenderedCount(stops, |ts|)))
  }

  /**
   * Whether the writer's `finalize` raises after `written` tiles: the NGM
   * writer takes the largest and smallest recorded level, and with no tile
   * written there is none.
   */
  predicate FinalizeRaises(mode: Mode, written: nat) {
    mode == Ngm && written == 0
  }

  /** After the loop: `finalize`, then the terminal signal unless `finalize` raised. */
  function Finish(mode: Mode, st: ThreadState, written: nat): (RunOutcome, ThreadState) {
    var st := st.(actions := st.actions + [FinalizeWriter]);
    if FinalizeRaises(mode, written) then (Raised(NoLevels), st)
    else (Returned, st.(signals := st.signals + [if st.interrupted then ProcessInterrupted else ProcessFinished]))
  }

  /**
   * `run` once the writer of `mode` and the side files exist: the
   * interruption check, the tile count, the gate, the loop and `finalize`.
   */
  function AfterSetup(mode: Mode, st: ThreadState, answer: GateAnswer, stops: seq<bool>): (RunOutcome, ThreadState) {
    if st.interrupted && st.tiles.None? then (Raised(DeleteOfNone), st)
    else if st.interrupted then (Raised(LengthOfNone), st.(tiles := None, signals := st.signals + [ProcessInterrupted]))
    else if st.tiles.None? then (Raised(LengthOfNone), st)
    else
      var st := st.(signals := st.signals + [RangeChanged(Rendering, |st.tiles.value|)]);
      if st.confirmLocked then (Deadlocked, st)
      else
        var st := (if |st.tiles.value| > WarningThresholdTilesCount then Gate(st, answer) else st).(confirmLocked := true);
        if st.interrupted then (Returned, st.(signals := st.signals + [ProcessInterrupted]))
        else Finish(mode, RenderAll(st, stops), RenderedCount(stops, |st.tiles.value|))
  }

  /** `run` from a given state of the thread's fields. */
  function RunSpec(cfg: Config, st: ThreadState, answer: GateAnswer, stops: seq<bool>): (RunOutcome, ThreadState) {
    var st := st.(stopMe := 0);
    if cfg.mode.None? then (Raised(ModeUnset), st)
    else AfterSetup(cfg.mode.value, st.(actions := st.actions + Setup(cfg), signals := st.signals + [RangeChanged(Searching, 0)]), answer, stops)
  }

  class TilingThread {
    const mode: Option<Mode>
    const tmsConvention: bool
    const rootDir: string
    const mapUrl: bool
    const viewer: bool
    const jsonFile: bool
    const overview: bool
    var stopMe: int
    var interrupted: bool
    var tiles: Option<seq<Tile>>
    var confirmLocked: bool
    var signals: seq<Signal>
    var actions: seq<Action>

    function Cfg(): Config {
      Config(mode, mapUrl, viewer, jsonFile, overview)
    }

    function State(): ThreadState
      reads this
    {
      ThreadState(stopMe, interrupted, tiles, confirmLocked, signals, actions)
    }

    /** `__init__`, reduced to the fields above; `clockSeconds` is the clock's reading. */
    constructor (tiles: seq<Tile>, isDir: bool, suffix: string, rootDir: string, clockSeconds: nat,
                 tmsConvention: bool, jsonFile: bool, overview: bool, mapUrl: bool, viewer: bool)
      ensures Cfg() == Config(ModeOf(isDir, suffix), mapUrl, viewer, jsonFile, overview)
      ensures State() == ThreadState(0, false, Some(tiles), false, [], [])
      ensures this.tmsConvention == TmsConventionOf(isDir, suffix, tmsConvention)
      ensures this.rootDir == RootDirOf(rootDir, clockSeconds)
    {
      this.stopMe := 0;
      this.interrupted := false;
      this.tiles := Some(tiles);
      this.rootDir := RootDirOf(rootDir, clockSeconds);
      this.jsonFile, this.overview, this.mapUrl, this.viewer := jsonFile, overview, mapUrl, viewer;
      var m := ModeOf(isDir, suffix);
      this.mode := m;
      this.tmsConvention := if m == Some(MbTiles) then true else tmsConvention;
      this.confirmLocked := false;
      this.signals, this.actions := [], [];
    }

    method Stop()
      modifies this
      ensures State() == old(State()).(stopMe := 1)
    {
      stopMe := 1;
    }

    method ConfirmContinue()
      modifies this
      ensures State() == old(State()).(confirmLocked := false)
    {
      confirmLocked := false;
    }

    method ConfirmStop()
      modifies this
      ensures State() == old(State()).(interrupted := true, confirmLocked := false)
    {
      interrupted := true;
      confirmLocked := false;
    }

    /**
     * The loop `for t in self.tiles`: render, report progress, and stop once
     * `stop` has been called; `rendered` is the number of tiles rendered.
     */
    method RenderLoop(ts: seq<Tile>, stops: seq<bool>) returns (rendered: nat)
      requires tiles == Some(ts) && stopMe == 0 && !interrupted
      modifies this
      ensures State() == RenderAll(old(State()), stops)
      ensures rendered == RenderedCount(stops, |ts|)
    {
      var i := 0;
      while i < |ts|
        invariant 0 <= i <= |ts|
        invariant FirstStop(stops, |ts|, 0) == FirstStop(stops, |ts|, i)
        invariant State() == old(State()).(actions := old(actions) + WriteTiles(ts, i), signals := old(signals) + Progress(i))
      {
        actions := actions + [WriteTile(ts[i])];
        signals := signals + [UpdateProgress];
        if StopAt(stops, i) {
          Stop();
        }
        var s := stopMe;
        if s == 1 {
          interrupted := true;
          i := i + 1;
          break;
        }
        i := i + 1;
      }
      rendered := i;
    }

    /** `run`: clear `stopMe`, create the writer and the side files, then go on as `RunAfterSetup`. */
    method Run(answer: GateAnswer, stops: seq<bool>) returns (outcome: RunOutcome)
      modifies this
      ensures (outcome, State()) == RunSpec(Cfg(), old(State()), answer, stops)
    {
      stopMe := 0;
      if mode.None? {
        return Raised(ModeUnset);
      }
      var setup := SetupActions();
      actions := actions + setup;
      signals := signals + [RangeChanged(Searching, 0)];
      outcome := RunAfterSetup(answer, stops);
    }

    /** The writer, then the side files the configuration asks for, in the order `run` creates them. */
    method SetupActions() returns (setup: seq<Action>)
      requires mode.Some?
      ensures setup == Setup(Cfg())
    {
      setup := [OpenWriter(mode.value)];
      if mode.value == Dir {
        if mapUrl { setup := setup + [WriteMapurlFile]; }
        if viewer { setup := setup + [WriteLeafletViewer]; }
      }
      if jsonFile { setup := setup + [WriteJsonFile]; }
      if overview { setup := setup + [WriteOverviewFile]; }
    }

    /** The rest of `run`: the tile count, the confirmation gate, the loop and `finalize`. */
    method RunAfterSetup(answer: GateAnswer, stops: seq<bool>) returns (outcome: RunOutcome)
      requires stopMe == 0 && mode.Some?
      modifies this
      ensures (outcome, State()) == AfterSetup(mode.value, old(State()), answer, stops)
    {
      if interrupted {
        if tiles.None? {
          return Raised(DeleteOfNone);
        }
        tiles := None;
        signals := signals + [ProcessInterrupted];
      }
      if tiles.None? {
        return Raised(LengthOfNone);
      }
      var ts := tiles.value;
      signals := signals + [RangeChanged(Rendering, |ts|)];
      if confirmLocked {
        return Deadlocked;
      }
      if |ts| > WarningThresholdTilesCount {
        confirmLocked := true;
        signals := signals + [Threshold(WarningThresholdTilesCount)];
        if answer == Continue {
          ConfirmContinue();
        } else {
          ConfirmStop();
        }
      }
      confirmLocked := true;
      if interrupted {
        signals := signals + [ProcessInterrupted];
        return Returned;
      }
      var rendered := RenderLoop(ts, stops);
      actions := actions + [FinalizeWriter];
      if FinalizeRaises(mode.value, rendered) {
        return Raised(NoLevels);
      }
      if !interrupted {
        signals := signals + [ProcessFinished];
      } else {
        signals := signals + [ProcessInterrupted];
      }
      return Returned;
    }
  }

  // ----- What a run does -----

  /** How often `x` occurs in `s`. */
  function Count<T(==)>(s: seq<T>, x: T): nat {
    multiset(s)[x]
  }

  lemma CountAppend<T>(s: seq<T>, t: seq<T>, x: T)
    ensures Count(s + t, x) == Count(s, x) + Count(t, x)
  {
    assert multiset(s + t) == multiset(s) + multiset(t);
  }

  /** The terminal signals, `processFinished` and `processInterrupted`, in `s`. */
  function Terminals(s: seq<Signal>): nat {
    Count(s, ProcessFinished) + Count(s, ProcessInterrupted)
  }

  /** `Progress(k)` is `k` progress signals and nothing else. */
  lemma {:induction false} ProgressIsUpdates(k: nat)
    ensures multiset(Progress(k)) == multiset{}[UpdateProgress := k]
  {
    if k > 0 {
      ProgressIsUpdates(k - 1);
    }
  }

  /** `WriteTiles(ts, k)` hands the writer tile `j` in position `j`. */
  lemma {:induction false} WriteTilesInOrder(ts: seq<Tile>, k: nat)
    requires k <= |ts|
    ensures forall j :: 0 <= j < k ==> WriteTiles(ts, k)[j] == WriteTile(ts[j])
  {
    if k > 0 {
      WriteTilesInOrder(ts, k - 1);
    }
  }

  lemma WriteTilesOnly(ts: seq<Tile>, k: nat)
    requires k <= |ts|
    ensures FinalizeWriter !in WriteTiles(ts, k)
  {
    WriteTilesInOrder(ts, k);
  }

  /** `stop` stops the loop right after the tile during which it was called: all tiles before it are rendered, none after. */
  lemma RenderedUpToStop(stops: seq<bool>, n: nat, i: nat)
    requires i < n && StopAt(stops, i) && forall j :: 0 <= j < i ==> !StopAt(stops, j)
    ensures RenderedCount(stops, n) == i + 1
  {
    FirstStopIs(stops, n, 0, i);
  }

  lemma {:induction false} FirstStopIs(stops: seq<bool>, n: nat, k: nat, i: nat)
    requires k <= i < n && StopAt(stops, i) && forall j :: k <= j < i ==> !StopAt(stops, j)
    ensures FirstStop(stops, n, k) == i
    decreases i - k
  {
    if k < i {
      FirstStopIs(stops, n, k + 1, i);
    }
  }

  /** The signals of the loop path: `k` progress signals, then one terminal signal. */
  lemma FinishingSignals(s: seq<Signal>, k: nat, term: Signal)
    requires term == ProcessFinished || term == ProcessInterrupted
    ensures var r := s + Progress(k) + [term];
      Count(r, UpdateProgress) == Count(s, UpdateProgress) + k
      && Terminals(r) == Terminals(s) + 1
      && r[|r| - 1] == term
      && (Threshold(WarningThresholdTilesCount) in r <==> Threshold(WarningThresholdTilesCount) in s)
  {
    ProgressIsUpdates(k);
    var r := s + Progress(k) + [term];
    var th := Threshold(WarningThresholdTilesCount);
    CountAppend(s, Progress(k), UpdateProgress);
    CountAppend(s + Progress(k), [term], UpdateProgress);
    CountAppend(s, Progress(k), ProcessFinished);
    CountAppend(s + Progress(k), [term], ProcessFinished);
    CountAppend(s, Progress(k), ProcessInterrupted);
    CountAppend(s + Progress(k), [term], ProcessInterrupted);
    CountAppend(s, Progress(k), th);
    CountAppend(s + Progress(k), [term], th);
    assert Count(r, th) == Count(s, th);
  }

  /** Whether the user stopped the run at the confirmation gate. */
  predicate StoppedAtGate(st: ThreadState, answer: GateAnswer)
    requires st.tiles.Some?
  {
    |st.tiles.value| > WarningThresholdTilesCount && answer == Stop
  }

  /** The signals the gate adds before the loop. */
  function GateSignals(n: nat): seq<Signal> {
    [RangeChanged(Rendering, n)] + if n > WarningThresholdTilesCount then [Threshold(WarningThresholdTilesCount)] else []
  }

  /** The terminal signal of the loop path. */
  function Terminal(stops: seq<bool>, n: nat): Signal {
    if FirstStop(stops, n, 0) < n then ProcessInterrupted else ProcessFinished
  }

  /** Stopped at the gate, the run renders nothing and ends interrupted. */
  lemma GateStopped(mode: Mode, st: ThreadState, answer: GateAnswer, stops: seq<bool>)
    requires AfterSetup(mode, st, answer, stops).0 == Returned
    requires st.tiles.Some? && StoppedAtGate(st, answer)
    ensures var st' := AfterSetup(mode, st, answer, stops).1;
      st'.interrupted && st'.actions == st.actions
      && st'.signals == st.signals + [RangeChanged(Rendering, |st.tiles.value|), Threshold(WarningThresholdTilesCount), ProcessInterrupted]
  {
  }

  /** The signal after the loop: none when `finalize` raises (an empty NGM archive), else the terminal one. */
  function Ending(mode: Mode, stops: seq<bool>, n: nat): seq<Signal> {
    if mode == Ngm && n == 0 then [] else [Terminal(stops, n)]
  }

  /**
   * Let through by the gate, the run renders up to the first `stop` and
   * finalizes the writer; it returns, except that `finalize` raises for an
   * NGM archive without tiles.
   */
  lemma GatePassed(mode: Mode, st: ThreadState, answer: GateAnswer, stops: seq<bool>)
    requires st.tiles.Some? && !st.interrupted && !st.confirmLocked && !StoppedAtGate(st, answer)
    ensures var (outcome, st') := AfterSetup(mode, st, answer, stops);
      var n := |st.tiles.value|;
      outcome == (if mode == Ngm && n == 0 then Raised(NoLevels) else Returned)
      && (st'.interrupted <==> FirstStop(stops, n, 0) < n)
      && st'.actions == st.actions + WriteTiles(st.tiles.value, RenderedCount(stops, n)) + [FinalizeWriter]
      && st'.signals == st.signals + GateSignals(n) + Progress(RenderedCount(stops, n)) + Ending(mode, stops, n)
  {
    var n := |st.tiles.value|;
    var st1 := st.(signals := st.signals + [RangeChanged(Rendering, n)]);
    var st2 := st.(confirmLocked := true, signals := st.signals + GateSignals(n));
    assert (if n > WarningThresholdTilesCount then Gate(st1, answer) else st1).(confirmLocked := true) == st2;
    assert AfterSetup(mode, st, answer, stops) == Finish(mode, RenderAll(st2, stops), RenderedCount(stops, n));
  }

  /** `run` is its setup followed by `AfterSetup`. */
  function SetUp(cfg: Config, st: ThreadState): ThreadState
    requires cfg.mode.Some?
  {
    st.(stopMe := 0, actions := st.actions + Setup(cfg), signals := st.signals + [RangeChanged(Searching, 0)])
  }

  lemma RunIsSetupThenRest(cfg: Config, st: ThreadState, answer: GateAnswer, stops: seq<bool>)
    requires cfg.mode.Some?
    ensures RunSpec(cfg, st, answer, stops) == AfterSetup(cfg.mode.value, SetUp(cfg, st), answer, stops)
  {
  }

  /** The state from which `run` gets past the tile count to the gate. */
  predicate Ready(cfg: Config, st: ThreadState) {
    cfg.mode.Some? && !st.interrupted && st.tiles.Some? && !st.confirmLocked
  }

  /**
   * How `run` ends: with an `AttributeError` when no mode was chosen; with a
   * `TypeError` on `del` when an interrupted thread's tile list is already
   * `None`, or on `len(None)` when the list was just set to `None` or was
   * missing; blocked for ever when the confirmation mutex is still held;
   * with a `ValueError` from an NGM archive with no tile; and otherwise by
   * returning.
   */
  lemma RunOutcomes(cfg: Config, st: ThreadState, answer: GateAnswer, stops: seq<bool>)
    ensures var outcome := RunSpec(cfg, st, answer, stops).0;
      (outcome == Raised(ModeUnset) <==> cfg.mode.None?)
      && (outcome == Raised(DeleteOfNone) <==> cfg.mode.Some? && st.interrupted && st.tiles.None?)
      && (outcome == Raised(LengthOfNone) <==>
            cfg.mode.Some? && ((st.interrupted && st.tiles.Some?) || (!st.interrupted && st.tiles.None?)))
      && (outcome == Deadlocked <==> cfg.mode.Some? && !st.interrupted && st.tiles.Some? && st.confirmLocked)
      && (outcome == Raised(NoLevels) <==> Ready(cfg, st) && cfg.mode.value == Ngm && st.tiles.value == [])
      && (outcome == Returned <==> Ready(cfg, st) && !(cfg.mode.value == Ngm && st.tiles.value == []))
  {
    if cfg.mode.Some? {
      RunIsSetupThenRest(cfg, st, answer, stops);
      if Ready(cfg, st) && !StoppedAtGate(st, answer) {
        GatePassed(cfg.mode.value, SetUp(cfg, st), answer, stops);
      }
    }
  }

  /**
   * Stopped at the gate, a run hands the writer no tile and never
   * finalizes it; its one terminal signal is `processInterrupted`.
   */
  lemma RunStoppedAtGate(cfg: Config, st: ThreadState, stops: seq<bool>)
    requires Ready(cfg, st) && |st.tiles.value| > WarningThresholdTilesCount
    ensures var st' := RunSpec(cfg, st, Stop, stops).1;
      st'.interrupted
      && st'.actions == st.actions + Setup(cfg)
      && Count(st'.actions, FinalizeWriter) == Count(st.actions, FinalizeWriter)
      && Count(st'.signals, UpdateProgress) == Count(st.signals, UpdateProgress)
      && Terminals(st'.signals) == Terminals(st.signals) + 1
      && st'.signals[|st'.signals| - 1] == ProcessInterrupted
  {
    var n := |st.tiles.value|;
    StoppedRunShape(cfg, st, stops);
    StoppedSignalCounts(st.signals, n);
    SetupCounts(st.actions, cfg);
  }

  /** The state a run stopped at the gate leaves behind. */
  lemma StoppedRunShape(cfg: Config, st: ThreadState, stops: seq<bool>)
    requires Ready(cfg, st) && |st.tiles.value| > WarningThresholdTilesCount
    ensures var st' := RunSpec(cfg, st, Stop, stops).1;
      st'.interrupted && st'.actions == st.actions + Setup(cfg)
      && st'.signals == st.signals + StoppedSignals(|st.tiles.value|)
  {
    RunIsSetupThenRest(cfg, st, Stop, stops);
    GateStopped(cfg.mode.value, SetUp(cfg, st), Stop, stops);
  }

  /** What a run stopped at the gate emits. */
  function StoppedSignals(n: nat): seq<Signal> {
    [RangeChanged(Searching, 0), RangeChanged(Rendering, n), Threshold(WarningThresholdTilesCount), ProcessInterrupted]
  }

  lemma StoppedSignalCounts(s: seq<Signal>, n: nat)
    ensures var r := s + StoppedSignals(n);
      Count(r, UpdateProgress) == Count(s, UpdateProgress)
      && Terminals(r) == Terminals(s) + 1
      && r[|r| - 1] == ProcessInterrupted
  {
    var tail := StoppedSignals(n);
    CountAppend(s, tail, UpdateProgress);
    CountAppend(s, tail, ProcessFinished);
    CountAppend(s, tail, ProcessInterrupted);
  }

  /** Setting up opens the writer but never finalizes it. */
  lemma SetupCounts(actions: seq<Action>, cfg: Config)
    requires cfg.mode.Some?
    ensures Count(actions + Setup(cfg), FinalizeWriter) == Count(actions, FinalizeWriter)
  {
    CountAppend(actions, Setup(cfg), FinalizeWriter);
  }

  /**
   * The signals of a run the gate lets through: one `updateProgress` per
   * tile rendered, then exactly one terminal signal, `processInterrupted`
   * exactly when a `stop` came during the loop; an NGM run with no tile
   * emits no terminal signal at all, because `finalize` raises first.
   */
  lemma RunPassedGateSignals(cfg: Config, st: ThreadState, answer: GateAnswer, stops: seq<bool>)
    requires Ready(cfg, st) && !StoppedAtGate(st, answer)
    ensures var st', n := RunSpec(cfg, st, answer, stops).1, |st.tiles.value|;
      (st'.interrupted <==> FirstStop(stops, n, 0) < n)
      && Count(st'.signals, UpdateProgress) == Count(st.signals, UpdateProgress) + RenderedCount(stops, n)
      && (cfg.mode.value == Ngm && n == 0 ==> Terminals(st'.signals) == Terminals(st.signals))
      && (!(cfg.mode.value == Ngm && n == 0) ==>
            Terminals(st'.signals) == Terminals(st.signals) + 1
            && st'.signals[|st'.signals| - 1] == (if st'.interrupted then ProcessInterrupted else ProcessFinished))
  {
    var n := |st.tiles.value|;
    var k := RenderedCount(stops, n);
    var pre := st.signals + [RangeChanged(Searching, 0)] + GateSignals(n) + Progress(k);
    PassedRunSignals(cfg, st, answer, stops);
    PassedSignalCounts(st.signals, n, k);
    if !(cfg.mode.value == Ngm && n == 0) {
      TerminalCounts(pre, Terminal(stops, n));
    } else {
      assert pre + Ending(cfg.mode.value, stops, n) == pre;
    }
  }

  lemma PassedRunSignals(cfg: Config, st: ThreadState, answer: GateAnswer, stops: seq<bool>)
    requires Ready(cfg, st) && !StoppedAtGate(st, answer)
    ensures var st', n := RunSpec(cfg, st, answer, stops).1, |st.tiles.value|;
      st'.signals == st.signals + [RangeChanged(Searching, 0)] + GateSignals(n) + Progress(RenderedCount(stops, n)) + Ending(cfg.mode.value, stops, n)
      && (st'.interrupted <==> FirstStop(stops, n, 0) < n)
  {
    RunIsSetupThenRest(cfg, st, answer, stops);
    GatePassed(cfg.mode.value, SetUp(cfg, st), answer, stops);
  }

  /** Up to the ending, a passed run adds `k` progress signals and no terminal one. */
  lemma PassedSignalCounts(s: seq<Signal>, n: nat, k: nat)
    ensures var r := s + [RangeChanged(Searching, 0)] + GateSignals(n) + Progress(k);
      Count(r, UpdateProgress) == Count(s, UpdateProgress) + k
      && Terminals(r) == Terminals(s)
  {
    var pre := s + [RangeChanged(Searching, 0)] + GateSignals(n);
    GatePrefixCount(s, n, UpdateProgress);
    GatePrefixCount(s, n, ProcessFinished);
    GatePrefixCount(s, n, ProcessInterrupted);
    ProgressIsUpdates(k);
    CountAppend(pre, Progress(k), UpdateProgress);
    CountAppend(pre, Progress(k), ProcessFinished);
    CountAppend(pre, Progress(k), ProcessInterrupted);
  }

  /** The range and gate signals are neither progress nor terminal signals. */
  lemma GatePrefixCount(s: seq<Signal>, n: nat, x: Signal)
    requires x == UpdateProgress || x == ProcessFinished || x == ProcessInterrupted
    ensures Count(s + [RangeChanged(Searching, 0)] + GateSignals(n), x) == Count(s, x)
  {
    CountAppend(s, [RangeChanged(Searching, 0)], x);
    CountAppend(s + [RangeChanged(Searching, 0)], GateSignals(n), x);
    assert x !in multiset(GateSignals(n));
  }

  /** Appending a terminal signal adds one terminal signal, last, and no progress. */
  lemma TerminalCounts(s: seq<Signal>, term: Signal)
    requires term == ProcessFinished || term == ProcessInterrupted
    ensures Count(s + [term], UpdateProgress) == Count(s, UpdateProgress)
    ensures Terminals(s + [term]) == Terminals(s) + 1
    ensures (s + [term])[|s|] == term
  {
    CountAppend(s, [term], UpdateProgress);
    CountAppend(s, [term], ProcessFinished);
    CountAppend(s, [term], ProcessInterrupted);
  }

  /**
   * The writer calls of a run the gate lets through: the writer and the
   * side files, then the first `RenderedCount` tiles in order (see
   * `WriteTilesInOrder`), then the one `finalize`.
   */
  lemma RunPassedGateActions(cfg: Config, st: ThreadState, answer: GateAnswer, stops: seq<bool>)
    requires Ready(cfg, st) && !StoppedAtGate(st, answer)
    ensures var st', ts := RunSpec(cfg, st, answer, stops).1, st.tiles.value;
      st'.actions == st.actions + Setup(cfg) + WriteTiles(ts, RenderedCount(stops, |ts|)) + [FinalizeWriter]
      && Count(st'.actions, FinalizeWriter) == Count(st.actions, FinalizeWriter) + 1
  {
    var ts := st.tiles.value;
    PassedRunActions(cfg, st, answer, stops);
    PassedActionCounts(st.actions, cfg, ts, RenderedCount(stops, |ts|));
  }

  lemma PassedRunActions(cfg: Config, st: ThreadState, answer: GateAnswer, stops: seq<bool>)
    requires Ready(cfg, st) && !StoppedAtGate(st, answer)
    ensures var st', ts := RunSpec(cfg, st, answer, stops).1, st.tiles.value;
      st'.actions == st.actions + Setup(cfg) + WriteTiles(ts, RenderedCount(stops, |ts|)) + [FinalizeWriter]
  {
    RunIsSetupThenRest(cfg, st, answer, stops);
    GatePassed(cfg.mode.value, SetUp(cfg, st), answer, stops);
  }

  lemma PassedActionCounts(actions: seq<Action>, cfg: Config, ts: seq<Tile>, k: nat)
    requires cfg.mode.Some? && k <= |ts|
    ensures Count(actions + Setup(cfg) + WriteTiles(ts, k) + [FinalizeWriter], FinalizeWriter)
            == Count(actions, FinalizeWriter) + 1
  {
    var pre := actions + Setup(cfg);
    WriteTilesOnly(ts, k);
    SetupCounts(actions, cfg);
    CountAppend(pre, WriteTiles(ts, k), FinalizeWriter);
    CountAppend(pre + WriteTiles(ts, k), [FinalizeWriter], FinalizeWriter);
  }

  /** `run` clears `stopMe` first: a `stop` that came before the run has no effect on it. */
  lemma StopBeforeRunIgnored(cfg: Config, st: ThreadState, answer: GateAnswer, stops: seq<bool>)
    ensures RunSpec(cfg, st.(stopMe := 1), answer, stops) == RunSpec(cfg, st.(stopMe := 0), answer, stops)
  {
  }

  /**
   * Without a `stop`, and with the user continuing at the gate, every tile
   * is handed to the writer, in order, and the run finishes; only an NGM
   * run with no tile raises in `finalize` instead.
   */
  lemma ContinueRendersAll(cfg: Config, st: ThreadState, stops: seq<bool>)
    requires cfg.mode.Some? && !st.interrupted && st.tiles.Some? && !st.confirmLocked
    requires forall j :: 0 <= j < |stops| ==> !stops[j]
    ensures var (outcome, st') := RunSpec(cfg, st, Continue, stops);
      outcome == (if cfg.mode.value == Ngm && st.tiles.value == [] then Raised(NoLevels) else Returned)
      && !st'.interrupted
      && st'.actions == st.actions + Setup(cfg) + WriteTiles(st.tiles.value, |st.tiles.value|) + [FinalizeWriter]
      && (outcome == Returned ==> st'.signals[|st'.signals| - 1] == ProcessFinished)
  {
    FirstStopNone(stops, |st.tiles.value|, 0);
  }

  /**
   * An NGM run over an empty tile list, which the dialog starts when the
   * enumeration finds no tile, finalizes the writer and then raises: no
   * terminal signal is ever emitted.
   */
  lemma EmptyNgmRunRaises(cfg: Config, st: ThreadState, answer: GateAnswer, stops: seq<bool>)
    requires Ready(cfg, st) && cfg.mode == Some(Ngm) && st.tiles == Some([])
    ensures var (outcome, st') := RunSpec(cfg, st, answer, stops);
      outcome == Raised(NoLevels)
      && st'.actions == st.actions + Setup(cfg) + [FinalizeWriter]
      && Terminals(st'.signals) == Terminals(st.signals)
  {
    RunIsSetupThenRest(cfg, st, answer, stops);
    GatePassed(Ngm, SetUp(cfg, st), answer, stops);
    PassedRunActions(cfg, st, answer, stops);
    assert WriteTiles([], RenderedCount(stops, 0)) == [];
    PassedRunSignals(cfg, st, answer, stops);
    PassedSignalCounts(st.signals, 0, 0);
    assert Progress(0) + Ending(Ngm, stops, 0) == [];
  }

  lemma {:induction false} FirstStopNone(stops: seq<bool>, n: nat, i: nat)
    requires i <= n && forall j :: 0 <= j < |stops| ==> !stops[j]
    ensures FirstStop(stops, n, i) == n
    decreases n - i
  {
    if i < n {
      FirstStopNone(stops, n, i + 1);
    }
  }

  /** A `stop` during the last tile still reports the run as interrupted, although every tile was rendered. */
  lemma StopAtLastTile(cfg: Config, st: ThreadState, answer: GateAnswer, stops: seq<bool>)
    requires cfg.mode.Some? && !st.interrupted && st.tiles.Some? && !st.confirmLocked
    requires !StoppedAtGate(st, answer)
    requires |st.tiles.value| > 0 && |stops| == |st.tiles.value|
    requires forall j :: 0 <= j < |stops| - 1 ==> !stops[j]
    requires stops[|stops| - 1]
    ensures var (outcome, st') := RunSpec(cfg, st, answer, stops);
      outcome == Returned && st'.interrupted
      && RenderedCount(stops, |st.tiles.value|) == |st.tiles.value|
      && st'.signals[|st'.signals| - 1] == ProcessInterrupted
  {
    RunIsSetupThenRest(cfg, st, answer, stops);
    GatePassed(cfg.mode.value, SetUp(cfg, st), answer, stops);
    FirstStopIs(stops, |stops|, 0, |stops| - 1);
  }

  /** A run starting from a clean thread asks for confirmation exactly when there are more than 10000 tiles. */
  lemma ThresholdIff(cfg: Config, st: ThreadState, answer: GateAnswer, stops: seq<bool>)
    requires cfg.mode.Some? && !st.interrupted && st.tiles.Some? && !st.confirmLocked
    requires Threshold(10000) !in st.signals
    ensures Threshold(10000) in RunSpec(cfg, st, answer, stops).1.signals <==> |st.tiles.value| > 10000
  {
    var n := |st.tiles.value|;
    var st2 := SetUp(cfg, st);
    RunIsSetupThenRest(cfg, st, answer, stops);
    var pre := st2.signals + GateSignals(n);
    assert Threshold(10000) in pre <==> n > 10000;
    if StoppedAtGate(st2, answer) {
      GateStopped(cfg.mode.value, st2, answer, stops);
    } else {
      GatePassed(cfg.mode.value, st2, answer, stops);
      if cfg.mode.value == Ngm && n == 0 {
        assert pre + Progress(RenderedCount(stops, n)) + Ending(cfg.mode.value, stops, n) == pre;
      } else {
        FinishingSignals(pre, RenderedCount(stops, n), Terminal(stops, n));
      }
    }
  }
}
