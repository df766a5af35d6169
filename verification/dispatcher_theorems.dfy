/** What holds in every reachable state of the judge service, whatever the schedule, the
    failures of the producer, the delays of the commits and the crashes. */
module DispatcherTheorems {
  import opened Topics
  import opened Dispatcher
  import opened DispatcherInvariants

  // ---- what is counted ----

  // The event ends a call of ProcessMessage for this offset, with nil or with an error.
  ghost predicate Returns(s: State, e: Event, off: nat, ok: bool) {
    && (e.Skip? || e.Release?) && e.i < |s.workers| && Busy(s.workers[e.i]) && s.workers[e.i].off == off
    && ok == (e.Skip? || (s.workers[e.i].Wrote? && s.workers[e.i].ok))
  }

  // Some event of the run does.
  ghost predicate EverReturns(ids: seq<string>, es: seq<Event>, off: nat, ok: bool) {
    exists m: nat :: m < |es| && After(Init(ids), es[..m]).Some? &&
      Returns(After(Init(ids), es[..m]).value, es[m], off, ok)
  }

  lemma {:induction false} EverReturnsStep(ids: seq<string>, es: seq<Event>, off: nat, ok: bool)
    requires es != [] && After(Init(ids), es[..|es| - 1]).Some?
    ensures EverReturns(ids, es, off, ok) <==>
      || EverReturns(ids, es[..|es| - 1], off, ok)
      || Returns(After(Init(ids), es[..|es| - 1]).value, es[|es| - 1], off, ok)
  {
    var last := |es| - 1;
    var front := es[..last];
    forall m: nat | m < last ensures es[..m] == front[..m] && es[m] == front[m] {}
    if EverReturns(ids, front, off, ok) {
      var m: nat :| m < last && After(Init(ids), front[..m]).Some? &&
        Returns(After(Init(ids), front[..m]).value, front[m], off, ok);
      assert es[..m] == front[..m];
    }
  }

  // What counts as processed: the offsets for which ProcessMessage returned nil at some time.
  lemma {:induction false} HandledIff(ids: seq<string>, es: seq<Event>, s: State)
    requires Reaches(ids, es, s)
    ensures forall off: nat :: off in s.handled <==> EverReturns(ids, es, off, true)
  {
    if es != [] {
      var before := After(Init(ids), es[..|es| - 1]).value;
      HandledIff(ids, es[..|es| - 1], before);
      forall off: nat ensures off in s.handled <==> EverReturns(ids, es, off, true) {
        EverReturnsStep(ids, es, off, true);
      }
    }
  }

  // Calls that returned an error, and processes that ended before Run returned.
  ghost function Errors(ids: seq<string>, es: seq<Event>): nat {
    if es == [] then 0 else
    var front, e := es[..|es| - 1], es[|es| - 1];
    Errors(ids, front) +
    (if After(Init(ids), front).Some? && exists off :: Returns(After(Init(ids), front).value, e, off, false)
     then 1 else 0)
  }

  ghost function EarlyEnds(ids: seq<string>, es: seq<Event>): nat {
    if es == [] then 0 else
    var front, e := es[..|es| - 1], es[|es| - 1];
    EarlyEnds(ids, front) +
    (if e.Restart? && After(Init(ids), front).Some? && !After(Init(ids), front).value.fetcher.Returned? then 1 else 0)
  }

  lemma {:induction false} FailuresAndCrashes(ids: seq<string>, es: seq<Event>, s: State)
    requires Reaches(ids, es, s)
    ensures s.failures == Errors(ids, es) && s.crashes == EarlyEnds(ids, es)
  {
    if es != [] {
      var before, e := After(Init(ids), es[..|es| - 1]).value, es[|es| - 1];
      FailuresAndCrashes(ids, es[..|es| - 1], before);
      if e.Release? { assert !before.workers[e.i].ok ==> Returns(before, e, before.workers[e.i].off, false); }
    }
  }

  // ---- at-least-once, up to a bound ----

  // Of the offsets below the group's, those never processed that nobody has in hand are bounded
  // by the crashes and failed calls; n - 1 at most are in the hands of the other workers.
  lemma BoundedLoss(ids: seq<string>, es: seq<Event>, s: State)
    requires Reaches(ids, es, s)
    ensures |Dropped(s)| <= s.crashes * (|ids| - 1) + s.failures
    ensures Unhandled(s, s.watermark) == Dropped(s) + InFlight(s) && |InFlight(s)| <= |ids| - 1
    ensures s.watermark == s.base || NoneInProcess(s) ==> InFlight(s) == {}
    ensures |Unhandled(s, s.watermark)| <= s.crashes * (|ids| - 1) + s.failures + (|ids| - 1)
    ensures s.watermark == s.base || s.fetcher.Returned? ==>
              |Unhandled(s, s.watermark)| <= s.crashes * (|ids| - 1) + s.failures
  {
    InvRun(ids, es, s);
    DroppedCount(s);
    InFlightCount(s);
    DroppedOrInFlight(s);
  }

  // Without a crash or a failed call nothing is lost: every offset below the group's has been
  // processed or is being processed.
  lemma NothingDropped(ids: seq<string>, es: seq<Event>, s: State)
    requires Reaches(ids, es, s) && s.crashes == 0 && s.failures == 0
    ensures forall off: nat :: off < s.watermark ==> off in s.handled || InHand(s.workers, off)
  {
    BoundedLoss(ids, es, s);
    forall off: nat | off < s.watermark ensures off in s.handled || InHand(s.workers, off) {
      assert Dropped(s) == {} && off !in Dropped(s);
    }
  }

  // One worker and no failed call: every offset below the watermark has been processed.
  lemma NoLossWithOneWorker(ids: seq<string>, es: seq<Event>, s: State)
    requires Reaches(ids, es, s) && |ids| == 1 && s.failures == 0
    ensures forall off: nat :: off < s.watermark ==> off in s.handled
  {
    BoundedLoss(ids, es, s);
    assert Unhandled(s, s.watermark) == {};
    forall off: nat | off < s.watermark ensures off in s.handled {
      assert off !in Unhandled(s, s.watermark);
    }
  }

  // ---- containers ----

  // Conservation and exclusive ownership.
  lemma ContainerPool(ids: seq<string>, es: seq<Event>, s: State)
    requires Reaches(ids, es, s)
    ensures Distinct(s.ids) && multiset(s.pool) + Held(s.workers) == multiset(s.ids)
    ensures forall i, j :: 0 <= i < j < |s.workers| && Holds(s.workers[i]) && Holds(s.workers[j]) ==>
              s.workers[i].token != s.workers[j].token
    ensures forall i :: 0 <= i < |s.workers| && Holds(s.workers[i]) ==>
              s.workers[i].token in s.ids && s.workers[i].token !in s.pool
  {
    InvRun(ids, es, s);
    PoolFacts(s);
  }

  // A worker that needs a container finds one, and giving one back finds room.
  lemma PoolNeverBlocks(ids: seq<string>, es: seq<Event>, s: State, i: nat)
    requires Reaches(ids, es, s) && i < |s.workers|
    ensures s.workers[i].Took? ==> Enabled(s, if MessageAt(s, s.workers[i].off).Malformed? then Skip(i) else Acquire(i))
    ensures s.workers[i].Wrote? ==> |s.pool| < |ids| && Enabled(s, Release(i))
  {
    InvRun(ids, es, s);
    PoolFacts(s);
  }

  // The container a step hands out, and the one it gives back.
  ghost function Handed(s: State, e: Event): seq<string>
    requires Enabled(s, e)
  {
    if e.Acquire? then [Next(s, e).workers[e.i].token] else []
  }

  ghost function Given(s: State, e: Event): seq<string>
    requires Enabled(s, e)
  {
    if e.Release? then [s.workers[e.i].token] else []
  }

  // Those this process has handed out, and those it was given back, in order.
  ghost function HandedOut(ids: seq<string>, es: seq<Event>): seq<string>
    requires After(Init(ids), es).Some?
  {
    if es == [] || es[|es| - 1].Restart? then [] else
    var front := es[..|es| - 1];
    HandedOut(ids, front) + Handed(After(Init(ids), front).value, es[|es| - 1])
  }

  ghost function GivenBack(ids: seq<string>, es: seq<Event>): seq<string>
    requires After(Init(ids), es).Some?
  {
    if es == [] || es[|es| - 1].Restart? then [] else
    var front := es[..|es| - 1];
    GivenBack(ids, front) + Given(After(Init(ids), front).value, es[|es| - 1])
  }

  lemma PoolStep(s: State, e: Event)
    requires Enabled(s, e) && !e.Restart?
    ensures s.pool + Given(s, e) == Handed(s, e) + Next(s, e).pool && Next(s, e).ids == s.ids
  {}

  lemma Requeue<T>(out: seq<T>, queue: seq<T>, all: seq<T>, back: seq<T>, x: seq<T>, y: seq<T>, queue': seq<T>)
    requires out + queue == all + back && queue + x == y + queue'
    ensures (out + y) + queue' == all + (back + x)
  {
    assert (out + y) + queue' == out + (queue + x) == (out + queue) + x == all + (back + x);
  }

  // Containers are handed out in the order in which they were created or given back.
  lemma {:induction false} PoolIsFifo(ids: seq<string>, es: seq<Event>, s: State)
    requires Reaches(ids, es, s)
    ensures HandedOut(ids, es) + s.pool == s.ids + GivenBack(ids, es)
  {
    if es == [] {
      assert HandedOut(ids, es) == [] && GivenBack(ids, es) == [];
    } else if es[|es| - 1].Restart? {
      assert HandedOut(ids, es) == [] && GivenBack(ids, es) == [];
    } else {
      var front, e := es[..|es| - 1], es[|es| - 1];
      var before := After(Init(ids), front).value;
      PoolIsFifo(ids, front, before);
      PoolStep(before, e);
      var x, y := Given(before, e), Handed(before, e);
      Requeue(HandedOut(ids, front), before.pool, s.ids, GivenBack(ids, front), x, y, s.pool);
    }
  }

  lemma PoolFacts(s: State)
    requires Tokens(s)
    ensures forall i, j :: 0 <= i < j < |s.workers| && Holds(s.workers[i]) && Holds(s.workers[j]) ==>
              s.workers[i].token != s.workers[j].token
    ensures forall i :: 0 <= i < |s.workers| && Holds(s.workers[i]) ==>
              s.workers[i].token in s.ids && s.workers[i].token !in s.pool && |s.pool| < |s.ids|
    ensures forall i :: 0 <= i < |s.workers| && !Holds(s.workers[i]) ==> s.pool != []
  {
    forall i, j | 0 <= i < j < |s.workers| && Holds(s.workers[i]) && Holds(s.workers[j])
      ensures s.workers[i].token != s.workers[j].token
    {
      if s.workers[i].token == s.workers[j].token {
        DistinctCount(s.ids, s.workers[i].token);
        assert (multiset(s.pool) + Held(s.workers))[s.workers[i].token] <= 1;
        HeldTwice(s.workers, |s.workers|, i, j);
      }
    }
    HeldCount(s.workers, |s.workers|);
    assert |s.ids| == |multiset(s.ids)| == |s.pool| + |Held(s.workers)|;
    forall i | 0 <= i < |s.workers|
      ensures Holds(s.workers[i]) ==> s.workers[i].token in s.ids && s.workers[i].token !in s.pool && |s.pool| < |s.ids|
      ensures !Holds(s.workers[i]) ==> s.pool != []
    {
      HoldersCount(s.workers, |s.workers|, i);
      if Holds(s.workers[i]) { HeldIsCreated(s, i); }
    }
  }

  lemma HeldIsCreated(s: State, i: nat)
    requires Tokens(s) && i < |s.workers| && Holds(s.workers[i])
    ensures s.workers[i].token in s.ids && s.workers[i].token !in s.pool
  {
    HeldOnce(s.workers, |s.workers|, i);
    DistinctCount(s.ids, s.workers[i].token);
    assert (multiset(s.pool) + Held(s.workers))[s.workers[i].token] <= 1;
  }

  lemma {:induction false} DistinctCount(ids: seq<string>, id: string)
    requires Distinct(ids)
    ensures multiset(ids)[id] <= 1 && (multiset(ids)[id] == 1 <==> id in ids)
  {
    if ids != [] {
      var last := |ids| - 1;
      DistinctCount(ids[..last], id);
      assert ids == ids[..last] + [ids[last]];
    }
  }

  lemma {:induction false} CountOnce(ws: seq<Worker>, k: nat, i: nat)
    requires i < k <= |ws| && Holds(ws[i])
    ensures 1 <= HoldersOf(ws, k, ws[i].token)
  {
    if i < k - 1 { CountOnce(ws, k - 1, i); }
  }

  lemma {:induction false} CountTwice(ws: seq<Worker>, k: nat, i: nat, j: nat)
    requires i < j < k <= |ws| && Holds(ws[i]) && Holds(ws[j]) && ws[i].token == ws[j].token
    ensures 2 <= HoldersOf(ws, k, ws[i].token)
  {
    if j < k - 1 { CountTwice(ws, k - 1, i, j); } else { CountOnce(ws, k - 1, i); }
  }

  lemma HeldOnce(ws: seq<Worker>, k: nat, i: nat)
    requires i < k <= |ws| && Holds(ws[i])
    ensures 1 <= HeldByFirst(ws, k)[ws[i].token]
  {
    CountOnce(ws, k, i);
    HeldIsCounted(ws, k, ws[i].token);
  }

  lemma HeldTwice(ws: seq<Worker>, k: nat, i: nat, j: nat)
    requires i < j < k <= |ws| && Holds(ws[i]) && Holds(ws[j]) && ws[i].token == ws[j].token
    ensures 2 <= HeldByFirst(ws, k)[ws[i].token]
  {
    CountTwice(ws, k, i, j);
    HeldIsCounted(ws, k, ws[i].token);
  }

  // ---- channel ----

  function BusyOffsets(ws: seq<Worker>, k: nat): set<nat>
    requires k <= |ws|
  {
    if k == 0 then {} else BusyOffsets(ws, k - 1) + (if Busy(ws[k - 1]) then {ws[k - 1].off} else {})
  }

  lemma {:induction false} BusyCount(ws: seq<Worker>, k: nat)
    requires k <= |ws|
    ensures |BusyOffsets(ws, k)| <= k
    ensures forall i :: 0 <= i < k && Busy(ws[i]) ==> ws[i].off in BusyOffsets(ws, k)
  {
    if k > 0 { BusyCount(ws, k - 1); }
  }

  function Range(lo: nat, hi: nat): (r: set<nat>)
    ensures forall x :: x in r <==> lo <= x < hi
    ensures |r| == if lo <= hi then hi - lo else 0
  {
    if lo < hi then Range(lo, hi - 1) + {hi - 1} else {}
  }

  // Fetched by this process, and neither committed nor failed yet.
  function Unfinished(s: State): set<nat> {
    set off: nat | s.base <= off < s.next && off !in s.issued && off !in s.failed
  }

  // Workers receive offsets in log order without gaps, and at most 2n+1 messages are in flight.
  lemma OrderAndBackpressure(ids: seq<string>, es: seq<Event>, s: State)
    requires Reaches(ids, es, s)
    ensures forall off: nat :: s.base <= off < Taken(s) <==> off in s.returned || InHand(s.workers, off)
    ensures forall j :: 0 <= j < |s.queue| ==> s.queue[j] == Taken(s) + j
    ensures |Unfinished(s)| <= 2 * |ids| + 1
  {
    InvRun(ids, es, s);
    UnfinishedCount(s);
  }

  lemma UnfinishedCount(s: State)
    requires Fifo(s) && Complete(s) && NoneSkipped(s)
    ensures |Unfinished(s)| <= 2 * |s.workers| + 1
  {
    BusyCount(s.workers, |s.workers|);
    var waiting := Range(Taken(s), s.next);
    forall off | off in Unfinished(s) ensures off in waiting + BusyOffsets(s.workers, |s.workers|) {
      if off < Taken(s) {
        if InHand(s.workers, off) {
          var i :| 0 <= i < |s.workers| && InProcess(s.workers[i]) && s.workers[i].off == off;
          assert Busy(s.workers[i]);
        } else {
          var i :| 0 <= i < |s.workers| && s.workers[i].Done? && s.workers[i].off == off;
          assert Busy(s.workers[i]);
        }
      }
    }
    SubsetCardinality(Unfinished(s), waiting + BusyOffsets(s.workers, |s.workers|));
    UnionCardinality(waiting, BusyOffsets(s.workers, |s.workers|));
  }

  // ---- results before commits ----

  // A committed offset was malformed or has its result on the results topic; and a
  // well-formed message that returned nil put exactly one result there in this process.
  lemma EmitBeforeCommit(ids: seq<string>, es: seq<Event>, s: State)
    requires Reaches(ids, es, s)
    ensures forall off :: off in s.issued || off in s.handled ==> Answered(s, off)
    ensures forall off :: off in s.issued ==> off in s.returned && off !in s.failed
    ensures forall off :: off in s.returned && off !in s.failed && MessageAt(s, off).Submission? ==>
              EmittedOnce(s, off)
    ensures forall off :: off in s.returned && MessageAt(s, off).Malformed? ==> off !in s.emitted
  {
    InvRun(ids, es, s);
    SuccessEmitsOnce(s);
  }

  lemma SuccessEmitsOnce(s: State)
    requires Emission(s) && WrittenFirst(s)
    ensures forall off :: off in s.returned && off !in s.failed && MessageAt(s, off).Submission? ==> EmittedOnce(s, off)
  {
    forall off | off in s.returned && off !in s.failed && MessageAt(s, off).Submission? ensures EmittedOnce(s, off) {
      var j :| 0 <= j < |s.emitted| && s.emitted[j] == off;
      assert WroteAt(s, off, j);
    }
  }

  // The j-th result this process wrote is the result for offset off.
  ghost predicate WroteAt(s: State, off: nat, j: nat) {
    j < |s.emitted| <= |s.results| && s.emitted[j] == off && MessageAt(s, off).Submission? &&
    s.results[|s.results| - |s.emitted| + j].id == MessageAt(s, off).event.id
  }

  ghost predicate EmittedOnce(s: State, off: nat)
  {
    exists j :: WroteAt(s, off, j) && forall k :: 0 <= k < |s.emitted| && s.emitted[k] == off ==> k == j
  }

  // ---- draining ----

  // An event of the process itself that is not another fetch.
  predicate Inner(e: Event) { e.Enqueue? || e.Return? || WorkerStep(e) }

  predicate WorkerStep(e: Event) {
    e.Dequeue? || e.Skip? || e.Acquire? || e.Write? || e.Release? || e.Commit? || e.Exit?
  }

  function Weight(w: Worker): nat {
    match w
    case Exited => 0
    case Idle => 1
    case Done(_) => 2
    case Wrote(_, _, _) => 3
    case Holding(_, _) => 4
    case Took(_) => 5
  }

  function Weights(ws: seq<Worker>, k: nat): nat
    requires k <= |ws|
  {
    if k == 0 then 0 else Weights(ws, k - 1) + Weight(ws[k - 1])
  }

  // Bounds the events left before Run returns, if nothing more is fetched.
  function WorkLeft(s: State): nat {
    Weights(s.workers, |s.workers|) + 5 * |s.queue|
    + (match s.fetcher case Sending(_) => 7 case Fetching => 1 case Closed => 1 case Returned => 0)
  }

  lemma {:induction false} WeightsUpdate(ws: seq<Worker>, i: nat, w: Worker, k: nat)
    requires i < |ws| && k <= |ws|
    ensures Weights(ws[i := w], k) + (if i < k then Weight(ws[i]) else 0) ==
        Weights(ws, k) + (if i < k then Weight(w) else 0)
  {
    if k > 0 { WeightsUpdate(ws, i, w, k - 1); }
  }

  lemma InnerStepShortens(s: State, e: Event)
    requires Enabled(s, e) && Inner(e)
    ensures WorkLeft(Next(s, e)) < WorkLeft(s)
  {
    var t := Next(s, e);
    if WorkerStep(e) {
      assert t.workers == s.workers[e.i := t.workers[e.i]];
      WeightsUpdate(s.workers, e.i, t.workers[e.i], |s.workers|);
    }
  }

  // The fetch goroutine is never stuck on a full channel, nor in wg.Wait.
  lemma Progress(ids: seq<string>, es: seq<Event>, s: State)
    requires Reaches(ids, es, s) && (s.fetcher.Sending? || s.fetcher.Closed?)
    ensures exists e :: Inner(e) && Enabled(s, e)
  {
    InvRun(ids, es, s);
    PoolFacts(s);
    var e := NextInner(s);
  }

  lemma NextInner(s: State) returns (e: Event)
    requires Fifo(s) && Lifecycle(s) && Decoded(s) && |s.ids| == |s.workers| &&
      (s.fetcher.Sending? || s.fetcher.Closed?)
    requires forall i :: 0 <= i < |s.workers| && Holds(s.workers[i]) ==> |s.pool| < |s.ids|
    requires forall i :: 0 <= i < |s.workers| && !Holds(s.workers[i]) ==> s.pool != []
    ensures Inner(e) && Enabled(s, e)
  {
    if i: nat :| i < |s.workers| && Busy(s.workers[i]) {
      match s.workers[i]
      case Took(_) => e := if MessageAt(s, s.workers[i].off).Malformed? then Skip(i) else Acquire(i);
      case Holding(_, _) => e := Write(i, "RE", "", true, true);
      case Wrote(_, _, _) => e := Release(i);
      case Done(_) => e := Commit(i);
    } else if i: nat :| i < |s.workers| && s.workers[i].Idle? {
      e := if s.queue != [] then Dequeue(i) else if s.fetcher.Closed? then Exit(i) else Enqueue;
    } else {
      assert forall i: nat :: i < |s.workers| ==> s.workers[i].Exited?;
      assert s.workers[0].Exited?;
      e := Return;
    }
  }

  // How many of these events are the process's own.
  function InnerCount(es: seq<Event>): nat {
    if es == [] then 0 else InnerCount(es[..|es| - 1]) + (if Inner(es[|es| - 1]) then 1 else 0)
  }

  // Once the fetch loop has failed, the process takes at most WorkLeft(s) steps before it
  // returns, whatever arrives and whichever commits reach the broker in between; and as long
  // as it has not returned it can go on.
  lemma {:induction false} DrainTerminates(ids: seq<string>, es: seq<Event>, s: State, more: seq<Event>, t: State)
    requires Reaches(ids, es, s) && s.fetcher.Closed? && After(s, more) == Some(t)
    requires forall e :: e in more ==> !e.Restart?
    ensures InnerCount(more) + WorkLeft(t) <= WorkLeft(s)
    ensures t.fetcher.Closed? || t.fetcher.Returned?
    ensures t.fetcher.Closed? ==> exists e :: Inner(e) && Enabled(t, e)
    ensures t.base == s.base && t.next == s.next
  {
    Concat(Init(ids), es, s, more);
    if more != [] {
      var last := |more| - 1;
      var before := After(s, more[..last]).value;
      DrainTerminates(ids, es, s, more[..last], before);
      if Inner(more[last]) { InnerStepShortens(before, more[last]); }
      assert more[last] in more;
    }
    if t.fetcher.Closed? { Progress(ids, es + more, t); }
  }

  lemma {:induction false} Concat(r: State, es: seq<Event>, s: State, more: seq<Event>)
    requires After(r, es) == Some(s)
    ensures After(r, es + more) == After(s, more)
  {
    if more == [] {
      assert es + more == es;
    } else {
      var last := |more| - 1;
      Concat(r, es, s, more[..last]);
      assert (es + more)[..|es + more| - 1] == es + more[..last];
    }
  }

  // What Run leaves behind when it returns: each fetched message handled exactly once, a
  // commit attempted exactly for those that returned nil, and every container back.
  lemma Drained(ids: seq<string>, es: seq<Event>, s: State)
    requires Reaches(ids, es, s) && s.fetcher.Returned?
    ensures s.queue == [] && multiset(s.pool) == multiset(s.ids)
    ensures Distinct(s.returned) && forall off: nat :: off in s.returned <==> s.base <= off < s.next
    ensures forall off: nat :: off in s.issued <==> off in s.returned && off !in s.failed
  {
    InvRun(ids, es, s);
    DrainedState(s);
  }

  lemma DrainedState(s: State)
    requires Inv(s) && s.fetcher.Returned?
    ensures s.queue == [] && multiset(s.pool) == multiset(s.ids)
    ensures Distinct(s.returned) && forall off: nat :: off in s.returned <==> s.base <= off < s.next
    ensures forall off: nat :: off in s.issued <==> off in s.returned && off !in s.failed
    ensures forall off: nat :: off in s.issued ==> Answered(s, off)
  {
    HeldByNone(s.workers, |s.workers|);
    forall off: nat | s.base <= off < s.next ensures off in s.returned {
      assert !InHand(s.workers, off);
    }
  }
}
