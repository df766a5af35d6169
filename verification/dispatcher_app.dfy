/** The judge process with its own variables: the fetch loop, the channel, the goroutines and
    the container pool.  Each method is one atomic section of the Go code; Run interleaves
    them in an arbitrary order. */
module DispatcherApp {
  import opened Topics
  import opened Dispatcher
  import opened DispatcherInvariants
  import opened DispatcherTheorems
  import V = Verdict

  // Creates n containers and fills the pool, a channel of capacity n.  supply(i) is what the
  // container runtime answers to the i-th creation and start.
  method CreateWorkerContainers(n: nat, supply: nat -> Option<string>) returns (pool: seq<string>, ok: bool)
    requires forall i: nat, j: nat :: i < j && supply(i).Some? && supply(j).Some? ==> supply(i) != supply(j)
    ensures ok <==> forall i: nat :: i < n ==> supply(i).Some?
    ensures Distinct(pool) && |pool| <= n && forall i :: 0 <= i < |pool| ==> supply(i) == Some(pool[i])
    ensures if ok then |pool| == n else |pool| < n && supply(|pool|).None?
  {
    pool := [];
    for i := 0 to n
      invariant |pool| == i && Distinct(pool) && forall k :: 0 <= k < i ==> supply(k) == Some(pool[k])
    {
      match supply(i)
      case None => return pool, false;
      case Some(id) =>
        assert |pool| < n;  // the send does not block
        pool := pool + [id];
    }
    ok := true;
  }

  class App {
    // broker
    var log: seq<Message>
    var results: seq<ResultEvent>
    var watermark: nat
    // process
    var base: nat
    var next: nat
    var fetcher: Fetcher
    var jobs: seq<nat>
    var workers: seq<Worker>
    var ids: seq<string>
    var workerPool: seq<string>
    var issued: set<nat>       // commits handed to the reader
    // history
    ghost var returned: seq<nat>
    ghost var failed: set<nat>
    ghost var emitted: seq<nat>
    ghost var handled: set<nat>
    ghost var failures: nat
    ghost var crashes: nat

    ghost function View(): State reads this {
      State(log, results, watermark, base, next, fetcher, jobs, workers, ids, workerPool,
            returned, failed, issued, emitted, handled, failures, crashes)
    }

    constructor (containers: seq<string>)
      requires containers != [] && Distinct(containers)
      ensures View() == Init(containers) && Inv(View())
    {
      log, results, watermark := [], [], 0;
      base, next, fetcher, jobs := 0, 0, Fetching, [];
      workers, ids, workerPool := seq(|containers|, _ => Idle), containers, containers;
      returned, failed, issued, emitted, handled, failures, crashes := [], {}, {}, [], {}, 0, 0;
      new;
      InvInit(containers);
    }

    method FetchMessage()
      requires Enabled(View(), Fetch)
      modifies this
      ensures View() == Next(old(View()), Fetch)
    {
      fetcher := Sending(next);
      next := next + 1;
    }

    method SendJob()
      requires Enabled(View(), Enqueue)
      modifies this
      ensures View() == Next(old(View()), Enqueue)
    {
      jobs := jobs + [fetcher.off];
      fetcher := Fetching;
    }

    method ReceiveJob(i: nat)
      requires Enabled(View(), Dequeue(i))
      modifies this
      ensures View() == Next(old(View()), Dequeue(i))
    {
      workers := workers[i := Took(jobs[0])];
      jobs := jobs[1..];
    }

    method SkipMalformed(i: nat)
      requires Enabled(View(), Skip(i))
      modifies this
      ensures View() == Next(old(View()), Skip(i))
    {
      var off := workers[i].off;
      workers := workers[i := Done(off)];
      returned, handled := returned + [off], handled + {off};
    }

    method AcquireContainer(i: nat)
      requires Enabled(View(), Acquire(i))
      modifies this
      ensures View() == Next(old(View()), Acquire(i))
    {
      workers := workers[i := Holding(workers[i].off, workerPool[0])];
      workerPool := workerPool[1..];
    }

    method WriteResult(i: nat, event: ResultEvent, landed: bool, ok: bool)
      requires Enabled(View(), Write(i, event.status, event.message, landed, ok))
      requires event.id == log[workers[i].off].event.id
      modifies this
      ensures View() == Next(old(View()), Write(i, event.status, event.message, landed, ok))
    {
      var Holding(off, token) := workers[i];
      if landed {
        results := results + [event];
        emitted := emitted + [off];
      }
      workers := workers[i := Wrote(off, token, ok)];
    }

    // Judges the message in hand and writes what that comes to; the producer may deliver it and
    // may report an error.
    method JudgeAndWrite(i: nat, surroundings: nat -> Surroundings, ghost judged: Verdicts) returns (ghost e: Event)
      requires AreOutcomes(judged, surroundings)
      requires i < |workers| && workers[i].Holding? && MessageAt(View(), workers[i].off).Submission?
      modifies this
      ensures e.Write? && e.i == i && Enabled(old(View()), e) && View() == Next(old(View()), e)
      ensures var off := old(workers)[i].off;
        ResultEvent(old(log)[off].event.id, e.status, e.message) == judged(off, old(log)[off].event)
    {
      var off := workers[i].off;
      var container := new V.Container(surroundings(off).respond);
      var event := V.ProcessSubmission(container, log[off].event, surroundings(off).setup);
      var landed: bool, ok: bool := *, *;
      landed := landed || ok;
      e := Write(i, event.status, event.message, landed, ok);
      WriteResult(i, event, landed, ok);
    }

    // ProcessMessage returns nil, giving the container back.
    method ReturnNil(i: nat)
      requires Enabled(View(), Release(i)) && workers[i].ok
      modifies this
      ensures View() == Next(old(View()), Release(i))
    {
      var Wrote(off, token, _) := workers[i];
      workerPool, returned := workerPool + [token], returned + [off];
      workers, handled := workers[i := Done(off)], handled + {off};
    }

    // It returns an error, giving the container back as well; the message is skipped.
    method ReturnError(i: nat)
      requires Enabled(View(), Release(i)) && !workers[i].ok
      modifies this
      ensures View() == Next(old(View()), Release(i))
    {
      var Wrote(off, token, _) := workers[i];
      workerPool, returned := workerPool + [token], returned + [off];
      workers, failed, failures := workers[i := Idle], failed + {off}, failures + 1;
    }

    method CommitMessage(i: nat)
      requires Enabled(View(), Commit(i))
      modifies this
      ensures View() == Next(old(View()), Commit(i))
    {
      issued := issued + {workers[i].off};
      workers := workers[i := Idle];
    }

    // Goroutine i has something to do now.
    predicate CanStep(i: nat)
      reads this
      ensures CanStep(i) <==> Runnable(View(), i)
    {
      i < |workers| && !workers[i].Exited? && (workers[i].Idle? ==> jobs != [] || fetcher.Closed?)
    }

    // The next atomic section of the ProcessMessage call of goroutine i.
    method ProcessMessage(i: nat, surroundings: nat -> Surroundings, ghost judged: Verdicts) returns (ghost e: Event)
      requires Inv(View()) && i < |workers| && InProcess(workers[i]) && AreOutcomes(judged, surroundings)
      modifies this
      ensures Inner(e) && Enabled(old(View()), e) && View() == Next(old(View()), e)
      ensures WritesVerdict(judged, old(View()), e)
    {
      PoolFacts(View());
      match workers[i]
      case Took(off) =>
        if log[off].Malformed? { e := Skip(i); SkipMalformed(i); } else { e := Acquire(i); AcquireContainer(i); }
      case Holding(_, _) => e := JudgeAndWrite(i, surroundings, judged);
      case Wrote(_, _, ok) =>
        e := Release(i);
        if ok { ReturnNil(i); } else { ReturnError(i); }
    }

    // The next atomic section of goroutine i, with whatever the judging and the producer answer.
    method StepWorker(i: nat, surroundings: nat -> Surroundings, ghost judged: Verdicts) returns (ghost e: Event)
      requires Inv(View()) && CanStep(i) && AreOutcomes(judged, surroundings)
      modifies this
      ensures Inner(e) && Enabled(old(View()), e) && View() == Next(old(View()), e)
      ensures WritesVerdict(judged, old(View()), e)
    {
      if workers[i].Idle? {
        if jobs != [] { e := Dequeue(i); ReceiveJob(i); } else { e := Exit(i); workers := workers[i := Exited]; }
      } else if workers[i].Done? {
        e := Commit(i);
        CommitMessage(i);
      } else {
        e := ProcessMessage(i, surroundings, judged);
      }
    }

    // The fetch goroutine has something to do now.
    predicate FetcherCanStep()
      reads this
    {
      fetcher.Fetching? || (fetcher.Sending? && |jobs| < |workers|) ||
      (fetcher.Closed? && forall i :: 0 <= i < |workers| ==> workers[i].Exited?)
    }

    // Its next atomic section; FetchMessage may fail at any time, and does so at offset stop
    // and when nothing more arrives.
    method StepFetcher(stop: nat) returns (ghost e: Event)
      requires FetcherCanStep() && next <= stop
      modifies this
      ensures Enabled(old(View()), e) && View() == Next(old(View()), e)
      ensures !e.Write? && (Inner(e) || (e == Fetch && old(next) < stop) || e == FetchError)
    {
      match fetcher
      case Fetching =>
        var fails: bool := *;
        if next < stop && next < |log| && !fails {
          e := Fetch;
          FetchMessage();
        } else {
          e := FetchError;
          fetcher := Closed;
        }
      case Sending(_) => e := Enqueue; SendJob();
      case Closed => e := Return; fetcher := Returned;
    }

    // The scheduler picks the fetch goroutine (None) or a worker that can go on.
    method Schedule() returns (who: Option<nat>)
      requires Inv(View()) && !fetcher.Returned?
      ensures if who.Some? then CanStep(who.value) else FetcherCanStep()
    {
      SomeoneRuns(View());
      assert !FetcherCanStep() ==> exists i: nat :: i < |workers| && CanStep(i) by {
        if !FetcherCanStep() {
          ghost var k: nat :| k < |workers| && Runnable(View(), k);
          assert CanStep(k);
        }
      }
      if
      case FetcherCanStep() => who := None;
      case i: nat :| i < |workers| && CanStep(i) => who := Some(i);
    }

    // One atomic section of whichever goroutine is scheduled.
    method StepAny(stop: nat, surroundings: nat -> Surroundings, ghost judged: Verdicts) returns (ghost e: Event)
      requires Inv(View()) && !fetcher.Returned? && next <= stop && AreOutcomes(judged, surroundings)
      modifies this
      ensures WritesVerdict(judged, old(View()), e)
      ensures Enabled(old(View()), e) && View() == Next(old(View()), e)
      ensures Inner(e) || (e == Fetch && old(next) < stop) || e == FetchError
    {
      var who := Schedule();
      match who
      case None => e := StepFetcher(stop);
      case Some(i) => e := StepWorker(i, surroundings, judged);
    }

    // A step of the broker: a message arrives, or a commit handed to the reader reaches it.
    method StepBroker() returns (ghost e: Event)
      modifies this`log, this`watermark
      ensures Enabled(old(View()), e) && View() == Next(old(View()), e) && (e.Arrive? || e.Flush?)
    {
      var arrives: bool := *;
      if arrives || issued == {} {
        var m: Message := *;
        e := Arrive(m);
        log := log + [m];
      } else {
        var k :| k in issued;
        e := Flush(k);
        watermark := k + 1;
      }
    }

    method StepsOfBroker(ghost start: State, ghost before: seq<Event>, ghost judged: Verdicts, ghost k: nat)
      returns (ghost trace: seq<Event>)
      requires Inv(View()) && Running(start, before, View()) && Written(judged, View(), k)
      modifies this`log, this`watermark
      ensures Inv(View()) && Running(start, trace, View()) && Written(judged, View(), k)
      ensures old(log) <= log && WorkLeft(View()) == old(WorkLeft(View()))
    {
      trace := before;
      var n: nat :| true;
      for i := 0 to n
        invariant Inv(View()) && Running(start, trace, View()) && Written(judged, View(), k) && old(log) <= log
      {
        ghost var s := View();
        ghost var e := StepBroker();
        InvStep(s, e);
        WrittenStep(judged, s, e, k);
        trace := Record(start, trace, s, e);
      }
    }

    // One step of the process.
    method Round(stop: nat, surroundings: nat -> Surroundings, ghost judged: Verdicts, ghost k: nat,
                 ghost start: State, ghost before: seq<Event>) returns (ghost trace: seq<Event>)
      requires Inv(View()) && Running(start, before, View()) && !fetcher.Returned? && next <= stop
      requires AreOutcomes(judged, surroundings) && Written(judged, View(), k)
      modifies this
      ensures Inv(View()) && Running(start, trace, View()) && next <= stop && Written(judged, View(), k)
      ensures base == old(base) && ids == old(ids) && log == old(log)
      ensures Nearer(old(View()), View())
    {
      ghost var s := View();
      ghost var e := StepAny(stop, surroundings, judged);
      InvStep(s, e);
      RunStep(s, e);
      WrittenStep(judged, s, e, k);
      trace := Record(start, before, s, e);
    }

    // The broker's steps, and then one of the process.
    method Turn(stop: nat, surroundings: nat -> Surroundings, ghost judged: Verdicts, ghost k: nat,
                ghost start: State, ghost before: seq<Event>) returns (ghost trace: seq<Event>)
      requires Inv(View()) && Running(start, before, View()) && !fetcher.Returned? && next <= stop
      requires AreOutcomes(judged, surroundings) && Written(judged, View(), k)
      modifies this
      ensures Inv(View()) && Running(start, trace, View()) && next <= stop && Written(judged, View(), k)
      ensures base == old(base) && ids == old(ids) && old(log) <= log
      ensures Nearer(old(View()), View())
    {
      ghost var s := View();
      trace := StepsOfBroker(start, before, judged, k);
      ghost var t := View();
      trace := Round(stop, surroundings, judged, k, start, trace);
      NearerFrom(s, t, View());
    }

    // Fetches until the reader reports an error, at offset stop or before, and drains, while
    // the broker goes on.  surroundings(off) is what judging meets when it gets to offset off.
    method Run(stop: nat, surroundings: nat -> Surroundings) returns (ghost trace: seq<Event>)
      requires Inv(View()) && fetcher.Fetching? && next <= stop
      modifies this
      ensures Inv(View()) && Running(old(View()), trace, View()) && fetcher.Returned? && next <= stop
      ensures base == old(base) && ids == old(ids) && old(log) <= log
      ensures Finished(View())
      ensures JudgedSince(surroundings, View(), |old(emitted)|)
    {
      trace := [];
      ghost var judged := OutcomesIn(surroundings);
      while !fetcher.Returned?
        invariant Inv(View()) && Running(old(View()), trace, View()) && next <= stop
        invariant base == old(base) && ids == old(ids) && old(log) <= log
        invariant Written(judged, View(), |old(emitted)|)
        decreases stop - next, Fetches(View()), WorkLeft(View())
      {
        trace := Turn(stop, surroundings, judged, |old(emitted)|, old(View()), trace);
      }
      WhatRunLeaves(View());
      WrittenAreJudged(surroundings, View(), |old(emitted)|);
    }
  }

  // ---- results and verdicts ----

  // What judging a message meets: the answers of the set-up, and those of its container.
  datatype Surroundings = Surroundings(setup: V.Setup, respond: V.Responses)

  // The verdict on the message at each offset.
  type Verdicts = (nat, SubmissionEvent) -> ResultEvent

  ghost predicate AreOutcomes(judged: Verdicts, surroundings: nat -> Surroundings) {
    forall off, sub, event :: V.Outcome(surroundings(off).respond, 0, sub, surroundings(off).setup, event) ==>
      event == judged(off, sub)
  }

  ghost function OutcomesIn(surroundings: nat -> Surroundings): (judged: Verdicts)
    ensures AreOutcomes(judged, surroundings)
    ensures forall off, sub :: V.Outcome(surroundings(off).respond, 0, sub, surroundings(off).setup, judged(off, sub))
  {
    OutcomesAreUnique(surroundings);
    (off: nat, sub: SubmissionEvent) => V.OutcomeOf(surroundings(off).respond, 0, sub, surroundings(off).setup)
  }

  lemma OutcomesAreUnique(surroundings: nat -> Surroundings)
    ensures forall off, sub, event :: V.Outcome(surroundings(off).respond, 0, sub, surroundings(off).setup, event) ==>
              event == V.OutcomeOf(surroundings(off).respond, 0, sub, surroundings(off).setup)
  {
    forall off, sub, event | V.Outcome(surroundings(off).respond, 0, sub, surroundings(off).setup, event)
      ensures event == V.OutcomeOf(surroundings(off).respond, 0, sub, surroundings(off).setup)
    {
      var sur := surroundings(off);
      V.OutcomeIsUnique(sur.respond, 0, sub, sur.setup, event, V.OutcomeOf(sur.respond, 0, sub, sur.setup));
    }
  }

  // If the step writes a result, it is the verdict on the message in hand.
  ghost predicate WritesVerdict(judged: Verdicts, s: State, e: Event) {
    e.Write? ==>
      && e.i < |s.workers| && s.workers[e.i].Holding? && MessageAt(s, s.workers[e.i].off).Submission?
      && var off := s.workers[e.i].off;
         ResultEvent(s.log[off].event.id, e.status, e.message) == judged(off, s.log[off].event)
  }

  // The results of this process, from its k-th on, are the verdicts on their messages.
  ghost predicate Written(judged: Verdicts, s: State, k: nat) {
    && k <= |s.emitted| <= |s.results|
    && forall j :: k <= j < |s.emitted| ==>
         VerdictAt(judged, s.log, s.emitted[j], s.results[|s.results| - |s.emitted| + j])
  }

  ghost predicate VerdictAt(judged: Verdicts, log: seq<Message>, off: nat, result: ResultEvent) {
    off < |log| && log[off].Submission? && result == judged(off, log[off].event)
  }

  lemma WrittenStep(judged: Verdicts, s: State, e: Event, k: nat)
    requires Enabled(s, e) && !e.Restart? && WritesVerdict(judged, s, e) && Written(judged, s, k)
    ensures Written(judged, Next(s, e), k)
  {
    var t := Next(s, e);
    if e.Write? && e.landed {
      var off := s.workers[e.i].off;
      assert t.results == s.results + [judged(off, s.log[off].event)];
      assert t.emitted == s.emitted + [off] && t.log == s.log;
    }
  }

  // For every result that this process wrote, from its k-th on: it is the outcome of judging the
  // submission at its own offset.
  ghost predicate JudgedSince(surroundings: nat -> Surroundings, s: State, k: nat) {
    && k <= |s.emitted| <= |s.results|
    && forall j :: k <= j < |s.emitted| ==>
      var off, result := s.emitted[j], s.results[|s.results| - |s.emitted| + j];
      && off < |s.log| && s.log[off].Submission? && result.id == s.log[off].event.id
      && V.Outcome(surroundings(off).respond, 0, s.log[off].event, surroundings(off).setup, result)
  }

  lemma WrittenAreJudged(surroundings: nat -> Surroundings, s: State, k: nat)
    requires Emission(s) && Written(OutcomesIn(surroundings), s, k)
    ensures JudgedSince(surroundings, s, k)
  {
    var judged := OutcomesIn(surroundings);
    forall j | k <= j < |s.emitted|
      ensures var off, result := s.emitted[j], s.results[|s.results| - |s.emitted| + j];
        && off < |s.log| && s.log[off].Submission? && result.id == s.log[off].event.id
        && V.Outcome(surroundings(off).respond, 0, s.log[off].event, surroundings(off).setup, result)
    {
      assert VerdictAt(judged, s.log, s.emitted[j], s.results[|s.results| - |s.emitted| + j]);
    }
  }

  // Every fetched message has returned, once; commits are issued for the successes alone, whose
  // results are on the topic, once; the pool is full; the offset is that of an issued commit.
  ghost predicate Finished(s: State) {
    && s.queue == [] && multiset(s.pool) == multiset(s.ids)
    && Distinct(s.returned) && (forall off: nat :: off in s.returned <==> s.base <= off < s.next)
    && (forall off: nat :: off in s.issued <==> off in s.returned && off !in s.failed)
    && (s.watermark == s.base || (0 < s.watermark && s.watermark - 1 in s.issued))
    && (forall off: nat :: off in s.issued ==> Answered(s, off))
    && (forall off: nat :: off in s.issued && MessageAt(s, off).Submission? ==> EmittedOnce(s, off))
  }

  lemma WhatRunLeaves(s: State)
    requires Inv(s) && s.fetcher.Returned?
    ensures Finished(s)
  {
    DrainedState(s);
    SuccessEmitsOnce(s);
  }

  // The process has fetched one more message, has stopped fetching, or has less left to do.
  ghost predicate Nearer(s: State, t: State) {
    || s.next < t.next
    || (s.next == t.next && !Fetches(t) && (Fetches(s) || WorkLeft(t) < WorkLeft(s)))
    || (s.next == t.next && Fetches(s) && WorkLeft(t) < WorkLeft(s))
  }

  lemma NearerFrom(s: State, t: State, u: State)
    requires t.next == s.next && t.fetcher == s.fetcher && WorkLeft(t) == WorkLeft(s) && Nearer(t, u)
    ensures Nearer(s, u)
  {}

  predicate Fetches(s: State) { s.fetcher.Fetching? || s.fetcher.Sending? }

  // s is reached from start by this trace, with no restart.
  ghost predicate Running(start: State, trace: seq<Event>, s: State) {
    After(start, trace) == Some(s) && forall k :: 0 <= k < |trace| ==> !trace[k].Restart?
  }

  lemma Record(start: State, trace: seq<Event>, s: State, e: Event) returns (longer: seq<Event>)
    requires Running(start, trace, s) && Enabled(s, e) && !e.Restart?
    ensures Running(start, longer, Next(s, e))
  {
    longer := trace + [e];
    assert longer[..|longer| - 1] == trace;
  }

  predicate Runnable(s: State, i: nat) {
    i < |s.workers| && !s.workers[i].Exited? && (s.workers[i].Idle? ==> s.queue != [] || s.fetcher.Closed?)
  }

  lemma SomeoneRuns(s: State)
    requires Inv(s) && !s.fetcher.Returned?
    ensures s.fetcher.Fetching? || (s.fetcher.Sending? && |s.queue| < |s.workers|)
      || (s.fetcher.Closed? && forall i :: 0 <= i < |s.workers| ==> s.workers[i].Exited?)
      || exists i: nat :: i < |s.workers| && Runnable(s, i)
  {
    if !s.fetcher.Fetching? {
      PoolFacts(s);
      var e := NextInner(s);
      if WorkerStep(e) { assert Runnable(s, e.i); }
    }
  }

  // A step of the process itself keeps what belongs to the broker and makes progress.
  lemma RunStep(s: State, e: Event)
    requires Enabled(s, e) && (Inner(e) || e.Fetch? || e.FetchError?)
    ensures var t := Next(s, e);
      t.base == s.base && t.ids == s.ids && t.log == s.log &&
      t.next == s.next + (if e.Fetch? then 1 else 0) && Nearer(s, t)
  {
    if Inner(e) { InnerStepShortens(s, e); }
  }
}
