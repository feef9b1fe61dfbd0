/** The self-saving in-memory store of internal/storage/inmemstorage.go: a
    keyed map whose `Set` and `Delete` signal a background loop, the loop that
    decides when to hand a snapshot to the saver (on a tick, on a signal in
    write-through mode, and once more on cancellation), the saver selection,
    and the restore gate. The savers' file I/O is not modelled: a save is
    recorded by a ghost counter and the snapshot it was given, and what a
    file load returns is an input. */
module InMemStorage {
  import opened Wrappers
  import opened Models
  import opened Storage
  import Config

  /** The two savers: JSON file at a path, or one that does nothing. */
  datatype MetricSaver = JSONFileSaver(filePath: string) | NoopMetricSaver

  /** The saver switch: the JSON file saver exactly for the storage type
      "filestorage", the Noop saver for anything else. */
  function SelectSaver(storageType: string, fileStoragePath: string): (s: MetricSaver)
    ensures s.JSONFileSaver? <==> storageType == Config.DefaultStorageType
    ensures s.JSONFileSaver? ==> s.filePath == fileStoragePath
  {
    if storageType == Config.DefaultStorageType then JSONFileSaver(fileStoragePath) else NoopMetricSaver
  }

  /** What the saver's `Load` yields. The Noop saver returns no metrics and no
      error; the JSON saver returns whatever reading the file gave. */
  function SaverLoad(saver: MetricSaver, fileLoad: Result<seq<Metrics>, string>): (r: Result<seq<Metrics>, string>)
    ensures saver.NoopMetricSaver? ==> r == Ok([])
    ensures saver.JSONFileSaver? ==> r == fileLoad
  {
    if saver.NoopMetricSaver? then Ok([]) else fileLoad
  }

  /** What the saver's `Save` returns. The Noop saver always succeeds; the
      JSON saver reports whatever writing the file gave. */
  function SaverSave(saver: MetricSaver, fileSave: Outcome<string>): (r: Outcome<string>)
    ensures saver.NoopMetricSaver? ==> r == Pass
    ensures saver.JSONFileSaver? ==> r == fileSave
  {
    if saver.NoopMetricSaver? then Pass else fileSave
  }

  // ---------------------------------------------------------------------
  // The background loop

  /** What the loop's `select` can receive. */
  datatype Event = Tick | SaveSignal | Cancel

  /** Selecting: waiting in the `select`. Returned: the goroutine has
      returned after cancellation. Panicked: the goroutine (and with it the
      process) has crashed. */
  datatype Phase = Selecting | Returned | Panicked

  datatype Loop = Loop(phase: Phase, ticking: bool)

  /** The loop's start as written: `time.NewTicker(Interval)` panics unless
      the interval is positive. */
  function StartAsWritten(interval: int): (l: Loop)
    ensures l.phase == (if interval > 0 then Selecting else Panicked)
  {
    if interval > 0 then Loop(Selecting, true) else Loop(Panicked, false)
  }

  /** The loop's start as evidently intended: a ticker only for a positive
      interval, otherwise a `select` whose tick case never fires. */
  function StartLoop(interval: int): (l: Loop)
    ensures l.phase == Selecting && (l.ticking <==> interval > 0)
  {
    Loop(Selecting, interval > 0)
  }

  /** One pass of the `select`: the next state and whether it saved. A tick
      saves; a save signal saves only in write-through mode (interval 0);
      cancellation stops the ticker, saves and returns. A loop that returned
      or crashed reacts to nothing, and a tick without a ticker cannot arrive. */
  function LoopStep(l: Loop, interval: int, ev: Event): (r: (Loop, bool))
    ensures l.phase != Selecting ==> r == (l, false)
    ensures l.phase == Selecting && ev == Tick ==> r == (l, l.ticking)
    ensures l.phase == Selecting && ev == SaveSignal ==> r == (l, interval == 0)
    ensures l.phase == Selecting && ev == Cancel ==> r == (Loop(Returned, false), true)
  {
    if l.phase != Selecting then (l, false)
    else match ev
      case Tick => (l, l.ticking)
      case SaveSignal => (l, interval == 0)
      case Cancel => (Loop(Returned, false), true)
  }

  /** The state after a run of events, and how many saves it made. */
  function Run(l: Loop, interval: int, evs: seq<Event>): (Loop, nat)
    decreases |evs|
  {
    if evs == [] then (l, 0)
    else
      var (l1, saved) := LoopStep(l, interval, evs[0]);
      var (lf, n) := Run(l1, interval, evs[1..]);
      (lf, n + if saved then 1 else 0)
  }

  function Count(evs: seq<Event>, e: Event): nat
    decreases |evs|
  {
    if evs == [] then 0 else (if evs[0] == e then 1 else 0) + Count(evs[1..], e)
  }

  /** Until cancellation, every tick saves if there is a ticker, and every
      save signal saves exactly in write-through mode. */
  lemma {:induction false} RunBeforeCancel(interval: int, evs: seq<Event>)
    requires Cancel !in evs
    ensures Run(StartLoop(interval), interval, evs) ==
      (StartLoop(interval),
       (if interval > 0 then Count(evs, Tick) else 0) + (if interval == 0 then Count(evs, SaveSignal) else 0))
    decreases |evs|
  {
    if evs != [] {
      assert Cancel !in evs[1..] by {
        assert forall e :: e in evs[1..] ==> e in evs;
      }
      RunBeforeCancel(interval, evs[1..]);
    }
  }

  /** A loop that has returned does nothing more. */
  lemma {:induction false} RunAfterReturn(interval: int, evs: seq<Event>)
    ensures Run(Loop(Returned, false), interval, evs) == (Loop(Returned, false), 0)
    decreases |evs|
  {
    if evs != [] {
      RunAfterReturn(interval, evs[1..]);
    }
  }

  /** Cancellation saves exactly once more and ends the loop for good,
      whatever arrives afterwards. */
  lemma {:induction false} RunThroughCancel(interval: int, evs: seq<Event>, later: seq<Event>)
    requires Cancel !in evs
    ensures Run(StartLoop(interval), interval, evs + [Cancel] + later) ==
      (Loop(Returned, false), Run(StartLoop(interval), interval, evs).1 + 1)
    decreases |evs|
  {
    var l := StartLoop(interval);
    if evs == [] {
      assert ([Cancel] + later)[1..] == later;
      RunAfterReturn(interval, later);
    } else {
      assert (evs + [Cancel] + later)[1..] == evs[1..] + [Cancel] + later;
      assert Cancel !in evs[1..] by {
        assert forall e :: e in evs[1..] ==> e in evs;
      }
      RunThroughCancel(interval, evs[1..], later);
    }
  }

  /** As written, write-through mode never saves: with interval 0 the loop
      crashes on start, so no save signal and no cancellation is ever acted on. */
  lemma {:induction false} AsWrittenWriteThroughNeverSaves(evs: seq<Event>)
    ensures StartAsWritten(0).phase == Panicked
    ensures Run(StartAsWritten(0), 0, evs).1 == 0
    decreases |evs|
  {
    if evs != [] {
      AsWrittenWriteThroughNeverSaves(evs[1..]);
    }
  }

  /** With the ticker made conditional, write-through mode saves once per
      save signal and once more on cancellation. */
  lemma {:induction false} WriteThroughSavesEverySignal(signals: nat)
    ensures Run(StartLoop(0), 0, seq(signals, _ => SaveSignal) + [Cancel]).1 == signals + 1
  {
    var evs := seq(signals, _ => SaveSignal);
    RunThroughCancel(0, evs, []);
    assert evs + [Cancel] + [] == evs + [Cancel];
    RunBeforeCancel(0, evs);
    CountAll(signals);
  }

  lemma {:induction false} CountAll(n: nat)
    ensures Count(seq(n, _ => SaveSignal), SaveSignal) == n
  {
    if n > 0 {
      assert seq(n, _ => SaveSignal)[1..] == seq(n - 1, _ => SaveSignal);
      CountAll(n - 1);
    }
  }

  // ---------------------------------------------------------------------
  // The store

  class InMemMetricStorage {
    var m: Store
    const interval: int
    const restore: bool
    const saver: MetricSaver
    /** Save signals sent on the `save` channel and not yet received. */
    var pending: nat
    var loop: Loop
    /** How many times the saver's `Save` has been called. */
    ghost var saveCount: nat
    /** The listing handed to the most recent `Save`. */
    ghost var lastSaved: seq<Metrics>

    ghost predicate Valid()
      reads this
    {
      WellKeyed(m) && (loop.ticking ==> interval > 0)
    }

    /** `NewInMemMetricStorage(ctx, cfg)`: picks the saver, starts the loop,
        then runs `LoadMetrics` (whose error is only printed). */
    constructor (storageType: string, storeInterval: int, fileStoragePath: string, restore: bool,
                 fileLoad: Result<seq<Metrics>, string>)
      ensures Valid()
      ensures saver == SelectSaver(storageType, fileStoragePath)
      ensures interval == storeInterval && this.restore == restore
      ensures loop == StartLoop(storeInterval) && saveCount == 0
      ensures var loaded := SaverLoad(saver, fileLoad);
        if restore && loaded.Ok? then m == SetAll(map[], loaded.value) && pending == |loaded.value|
        else m == map[] && pending == 0
    {
      m := map[];
      interval := storeInterval;
      this.restore := restore;
      saver := SelectSaver(storageType, fileStoragePath);
      pending := 0;
      saveCount := 0;
      lastSaved := [];
      loop := StartLoop(storeInterval);
      new;
      var err := LoadMetrics(fileLoad);
    }

    /** `Get`: the entry under `q`'s key, or the zero record and `false`. */
    method Get(q: Metrics) returns (res: Metrics, ok: bool)
      requires Valid()
      ensures ok <==> KeyOf(q) in m
      ensures ok ==> res == m[KeyOf(q)]
      ensures !ok ==> res == ZeroMetrics
    {
      ok := KeyOf(q) in m;
      res := if ok then m[KeyOf(q)] else ZeroMetrics;
    }

    /** `Set`: files `x` under its key and sends one save signal. */
    method Set(x: Metrics) returns (err: Outcome<string>)
      requires Valid()
      modifies this
      ensures Valid()
      ensures m == old(m)[KeyOf(x) := x] && pending == old(pending) + 1
      ensures loop == old(loop) && saveCount == old(saveCount) && lastSaved == old(lastSaved)
      ensures err == Pass
    {
      m := m[KeyOf(x) := x];
      pending := pending + 1;
      err := Pass;
    }

    /** `Delete`: drops the entry under `q`'s key and sends one save signal. */
    method Delete(q: Metrics) returns (err: Outcome<string>)
      requires Valid()
      modifies this
      ensures Valid()
      ensures m == old(m) - {KeyOf(q)} && pending == old(pending) + 1
      ensures loop == old(loop) && saveCount == old(saveCount) && lastSaved == old(lastSaved)
      ensures err == Pass
    {
      m := m - {KeyOf(q)};
      pending := pending + 1;
      err := Pass;
    }

    /** `IterMetrics`: every stored metric exactly once. */
    method IterMetrics() returns (res: seq<Metrics>)
      requires Valid()
      ensures IsListing(res, m)
    {
      res := ListMetrics(m);
    }

    /** `SaveMetrics`: hands a listing of the whole map to the saver and
        returns the saver's error; `fileSave` is what writing the file gives. */
    method SaveMetrics(fileSave: Outcome<string>) returns (err: Outcome<string>)
      requires Valid()
      modifies this
      ensures Valid()
      ensures saveCount == old(saveCount) + 1 && IsListing(lastSaved, m)
      ensures err == SaverSave(saver, fileSave)
      ensures m == old(m) && pending == old(pending) && loop == old(loop)
    {
      var snapshot := IterMetrics();
      saveCount := saveCount + 1;
      lastSaved := snapshot;
      err := SaverSave(saver, fileSave);
    }

    /** `LoadMetrics`: with restore off, does nothing; otherwise asks the
        saver, returns its error untouched, or `Set`s each record in order
        (no aggregation: a later record for a key replaces an earlier one). */
    method LoadMetrics(fileLoad: Result<seq<Metrics>, string>) returns (err: Outcome<string>)
      requires Valid()
      modifies this
      ensures Valid()
      ensures loop == old(loop) && saveCount == old(saveCount) && lastSaved == old(lastSaved)
      ensures !restore ==> err == Pass && m == old(m) && pending == old(pending)
      ensures restore && SaverLoad(saver, fileLoad).Err? ==>
        err == Fail(SaverLoad(saver, fileLoad).error) && m == old(m) && pending == old(pending)
      ensures restore && SaverLoad(saver, fileLoad).Ok? ==>
        err == Pass && m == SetAll(old(m), SaverLoad(saver, fileLoad).value)
        && pending == old(pending) + |SaverLoad(saver, fileLoad).value|
    {
      if !restore {
        return Pass;
      }
      var loaded := SaverLoad(saver, fileLoad);
      if loaded.Err? {
        return Fail(loaded.error);
      }
      var metrics := loaded.value;
      var i := 0;
      while i < |metrics|
        invariant 0 <= i <= |metrics|
        invariant Valid()
        invariant m == SetAll(old(m), metrics[..i]) && pending == old(pending) + i
        invariant loop == old(loop) && saveCount == old(saveCount) && lastSaved == old(lastSaved)
      {
        SetAllSplit(old(m), metrics[..i], metrics[i]);
        assert metrics[..i + 1] == metrics[..i] + [metrics[i]];
        var _ := Set(metrics[i]);
        i := i + 1;
      }
      assert metrics[..i] == metrics;
      err := Pass;
    }

    /** One pass of the background loop's `select`. A save signal can only be
        received while the loop is selecting and one is pending, and receiving
        it consumes it; after the loop has returned, a sent signal stays in the
        channel for good. A save's error is only printed by the loop, so
        `fileSave` only feeds the saver. */
    method Step(ev: Event, fileSave: Outcome<string>) returns (saved: bool)
      requires Valid()
      modifies this
      ensures Valid()
      ensures m == old(m)
      ensures old(loop).phase != Selecting ==>
        !saved && loop == old(loop) && pending == old(pending)
      ensures ev == SaveSignal && old(pending) == 0 ==>
        !saved && loop == old(loop) && pending == 0
      ensures old(loop).phase == Selecting && !(ev == SaveSignal && old(pending) == 0) ==>
        (loop, saved) == LoopStep(old(loop), interval, ev)
        && pending == old(pending) - (if ev == SaveSignal then 1 else 0)
      ensures saveCount == old(saveCount) + (if saved then 1 else 0)
      ensures saved ==> IsListing(lastSaved, m)
      ensures !saved ==> lastSaved == old(lastSaved)
    {
      if loop.phase != Selecting || (ev == SaveSignal && pending == 0) {
        return false;
      }
      if ev == SaveSignal {
        pending := pending - 1;
      }
      var r := LoopStep(loop, interval, ev);
      loop, saved := r.0, r.1;
      if saved {
        var _ := SaveMetrics(fileSave);
      }
    }
  }

  /** Write-through in use: with interval 0, a `Set` followed by the loop
      receiving its signal saves a snapshot that holds the new metric. */
  method WriteThroughClient(x: Metrics)
  {
    var store := new InMemMetricStorage("devStorage", 0, "", false, Ok([]));
    assert store.m == map[] && store.pending == 0;
    var _ := store.Set(x);
    var saved := store.Step(SaveSignal, Pass);
    assert saved && store.saveCount == 1;
    ListingIsComplete(store.lastSaved, store.m, KeyOf(x));
    assert exists i :: 0 <= i < |store.lastSaved| && store.lastSaved[i] == x;
  }

  /** After cancellation the loop has returned: a later `Set`'s signal is
      never received and stays in the channel, and nothing more is saved. */
  method SignalAfterReturnClient(x: Metrics)
  {
    var store := new InMemMetricStorage("devStorage", 5, "", false, Ok([]));
    var saved := store.Step(Cancel, Pass);
    assert saved && store.saveCount == 1 && store.loop.phase == Returned;
    var _ := store.Set(x);
    saved := store.Step(SaveSignal, Pass);
    assert !saved && store.pending == 1 && store.saveCount == 1;
  }
}
