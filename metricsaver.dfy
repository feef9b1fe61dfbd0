/** The repository wrapper of internal/storage/metricsaver.go that saves:
    write-through on every `Collect` when the store interval is 0, a load on
    start when restore is set, a save per tick, and one final save on
    cancellation before `Done` is released. What the delegate's `Save` and
    `Load` do to files is not modelled: a save is recorded by a ghost counter
    and the listing it was given, a load by a ghost counter. */
module MetricSaver {
  import opened Wrappers
  import opened Models
  import opened Storage
  import opened Repository

  /** Stopped: not started. Running: the goroutine waits in its `select`.
      Finished: it has saved, closed `quit` and returned. Crashed: it has
      panicked. */
  datatype Phase = Stopped | Running | Finished | Crashed

  datatype Event = Tick | Cancel

  /** The goroutine's start as written: the `select` reads `ms.ticker.C`,
      which dereferences a nil ticker when the store interval is not
      positive, so without a ticker the goroutine panics at once. */
  function StartAsWritten(hasTicker: bool): (p: Phase)
    ensures p == Running <==> hasTicker
    ensures !hasTicker ==> p == Crashed
  {
    if hasTicker then Running else Crashed
  }

  /** One pass of the `select`: the next phase and whether it saved. A tick
      saves; cancellation saves once and finishes; nothing else reacts, and
      without a ticker no tick arrives. */
  function Advance(p: Phase, hasTicker: bool, ev: Event): (r: (Phase, bool))
    ensures p != Running ==> r == (p, false)
    ensures p == Running && ev == Tick ==> r == (Running, hasTicker)
    ensures p == Running && ev == Cancel ==> r == (Finished, true)
  {
    if p != Running then (p, false)
    else match ev
      case Tick => (Running, hasTicker)
      case Cancel => (Finished, true)
  }

  /** The phase after a run of events, and how many saves the loop made. */
  function Run(p: Phase, hasTicker: bool, evs: seq<Event>): (Phase, nat)
    decreases |evs|
  {
    if evs == [] then (p, 0)
    else
      var (p1, saved) := Advance(p, hasTicker, evs[0]);
      var (pf, n) := Run(p1, hasTicker, evs[1..]);
      (pf, n + if saved then 1 else 0)
  }

  /** A running loop saves once per tick (if it has a ticker), and on the
      first cancellation saves once more and finishes for good. */
  lemma {:induction false} RunFromRunning(hasTicker: bool, ticks: nat, later: seq<Event>)
    ensures Run(Running, hasTicker, seq(ticks, _ => Tick)) == (Running, if hasTicker then ticks else 0)
    ensures Run(Running, hasTicker, seq(ticks, _ => Tick) + [Cancel] + later) ==
      (Finished, (if hasTicker then ticks else 0) + 1)
  {
    var ts := seq(ticks, _ => Tick);
    if ticks == 0 {
      assert ts + [Cancel] + later == [Cancel] + later;
      assert ([Cancel] + later)[1..] == later;
      RunAfterFinish(hasTicker, later);
    } else {
      assert ts[1..] == seq(ticks - 1, _ => Tick);
      assert (ts + [Cancel] + later)[1..] == seq(ticks - 1, _ => Tick) + [Cancel] + later;
      RunFromRunning(hasTicker, ticks - 1, later);
    }
  }

  lemma {:induction false} RunAfterFinish(hasTicker: bool, evs: seq<Event>)
    ensures Run(Finished, hasTicker, evs) == (Finished, 0)
    decreases |evs|
  {
    if evs != [] {
      RunAfterFinish(hasTicker, evs[1..]);
    }
  }

  /** As written, with no ticker the final save never happens and the loop
      never finishes (so `Done` would block for ever); with a nil-safe
      `select` the cancellation is saved and the loop finishes. */
  lemma {:induction false} NoTickerShutdown(later: seq<Event>)
    ensures Run(StartAsWritten(false), false, [Cancel] + later) == (Crashed, 0)
    ensures Run(Running, false, [Cancel] + later) == (Finished, 1)
  {
    assert ([Cancel] + later)[1..] == later;
    RunAfterFinish(false, later);
    RunAfterCrash(later);
  }

  lemma {:induction false} RunAfterCrash(evs: seq<Event>)
    ensures Run(Crashed, false, evs) == (Crashed, 0)
    decreases |evs|
  {
    if evs != [] {
      RunAfterCrash(evs[1..]);
    }
  }

  class MetricsSaver {
    const storeInterval: int
    const restore: bool
    /** `ticker != nil`. */
    const hasTicker: bool
    const repo: MetricRepository
    var phase: Phase
    /** How many times the delegate's `Save` has been called. */
    ghost var saveCount: nat
    /** The listing the most recent `Save` wrote. */
    ghost var lastSaved: seq<Metrics>
    /** How many times the delegate's `Load` has been called. */
    ghost var loadCount: nat
    /** The number of the loop's final save among all saves, 0 before it. */
    ghost var finalSaveCount: nat
    /** The listing the final save wrote. */
    ghost var finalListing: seq<Metrics>

    ghost predicate Valid()
      reads this, repo, repo.storage
    {
      repo.Valid() && (hasTicker <==> storeInterval > 0) && phase != Crashed
      && (phase == Finished <==> finalSaveCount > 0) && finalSaveCount <= saveCount
    }

    /** `NewMetricsSaver`: a ticker exactly for a positive store interval. */
    constructor (storeInterval: int, restore: bool, repo: MetricRepository)
      requires repo.Valid()
      ensures Valid()
      ensures this.storeInterval == storeInterval && this.restore == restore && this.repo == repo
      ensures hasTicker <==> storeInterval > 0
      ensures phase == Stopped && saveCount == 0 && loadCount == 0 && finalSaveCount == 0
    {
      this.storeInterval := storeInterval;
      this.restore := restore;
      this.repo := repo;
      hasTicker := storeInterval > 0;
      phase := Stopped;
      saveCount := 0;
      lastSaved := [];
      loadCount := 0;
      finalSaveCount := 0;
      finalListing := [];
    }

    /** The delegate's `Save`: writes a listing of the repository. Its error
        is discarded by every caller. */
    method Save()
      requires Valid()
      modifies this
      ensures Valid()
      ensures saveCount == old(saveCount) + 1 && IsListing(lastSaved, repo.storage.m)
      ensures phase == old(phase) && loadCount == old(loadCount) && finalSaveCount == old(finalSaveCount) && finalListing == old(finalListing)
    {
      var all := repo.GetAllMetrics();
      saveCount := saveCount + 1;
      lastSaved := all;
    }

    /** `Collect`: delegates, then saves exactly once iff the store interval
        is 0, and returns the delegate's metric and error either way. */
    method Collect(x: Metrics) returns (r: Metrics, err: Outcome<string>)
      requires Valid() && Collectable(x)
      modifies this, repo.storage
      ensures Valid()
      ensures r == Aggregate(old(repo.storage.m), x) && err == Pass
      ensures repo.storage.m == CollectStore(old(repo.storage.m), x)
      ensures saveCount == old(saveCount) + (if storeInterval == 0 then 1 else 0)
      ensures storeInterval == 0 ==> IsListing(lastSaved, repo.storage.m)
      ensures storeInterval != 0 ==> lastSaved == old(lastSaved)
      ensures phase == old(phase) && loadCount == old(loadCount) && finalSaveCount == old(finalSaveCount) && finalListing == old(finalListing)
    {
      r, err := repo.Collect(x);
      if storeInterval == 0 {
        Save();
      }
    }

    /** `Start`: loads first iff restore is set (ignoring the error), then
        starts the loop. */
    method Start()
      requires Valid() && phase == Stopped
      modifies this
      ensures Valid()
      ensures phase == Running
      ensures loadCount == old(loadCount) + (if restore then 1 else 0)
      ensures saveCount == old(saveCount) && lastSaved == old(lastSaved) && finalSaveCount == 0
    {
      if restore {
        loadCount := loadCount + 1;
      }
      phase := Running;
    }

    /** One pass of the loop's `select`, as evidently intended (a missing
        ticker never fires instead of crashing the goroutine). */
    method Step(ev: Event) returns (saved: bool)
      requires Valid()
      modifies this
      ensures Valid()
      ensures (phase, saved) == Advance(old(phase), hasTicker, ev)
      ensures saveCount == old(saveCount) + (if saved then 1 else 0)
      ensures saved ==> IsListing(lastSaved, repo.storage.m)
      ensures !saved ==> lastSaved == old(lastSaved)
      ensures loadCount == old(loadCount)
      ensures saved && phase == Finished ==> finalSaveCount == saveCount && finalListing == lastSaved
      ensures !(saved && phase == Finished) ==>
        finalSaveCount == old(finalSaveCount) && finalListing == old(finalListing)
    {
      var r := Advance(phase, hasTicker, ev);
      saved := r.1;
      if saved {
        Save();
      }
      phase := r.0;
      if saved && phase == Finished {
        finalSaveCount := saveCount;
        finalListing := lastSaved;
      }
    }

    /** `Done`: can return exactly when `quit` is closed, which happens only
        after the final save has been made. */
    method Done() returns (finished: bool)
      requires Valid()
      ensures finished <==> phase == Finished
      ensures finished ==> 0 < finalSaveCount <= saveCount
    {
      finished := phase == Finished;
    }
  }

  /** A full lifetime with write-through: every `Collect` saves, and on
      shutdown the final save happens before `Done` returns. */
  method WriteThroughLifetime(x: Metrics)
    requires Collectable(x)
  {
    var repo := new MetricRepository();
    var ms := new MetricsSaver(0, false, repo);
    ms.Start();
    var r, err := ms.Collect(x);
    assert ms.saveCount == 1;
    var saved := ms.Step(Cancel);
    var finished := ms.Done();
    assert saved && finished && ms.saveCount == 2 && ms.finalSaveCount == 2;
  }
}
