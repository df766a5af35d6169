/** The bounds are the best possible: for every number of workers, crashes and failed calls,
    and every number of messages in hand, there is a run that loses exactly that many. */
module DispatcherTightness {
  import opened Topics
  import opened Dispatcher
  import opened DispatcherInvariants
  import opened DispatcherTheorems

  // The submission at offset off in the runs below.
  function Sample(off: nat): Message {
    Submission(SubmissionEvent(Name(off), "problem", "code", "go"))
  }

  function Name(off: nat): (name: string)
    ensures |name| == off
  {
    seq(off, _ => 'x')
  }

  // es leads from r to s, every record that arrives is malformed or the sample of its offset,
  // and no result says "Pending".
  ghost predicate Runs(r: State, es: seq<Event>, s: State) {
    After(r, es) == Some(s) && Sampled(r, es)
  }

  ghost predicate Sampled(r: State, es: seq<Event>) {
    es == [] ||
    (var front, e := es[..|es| - 1], es[|es| - 1];
     Sampled(r, front) && After(r, front).Some? && Plain(After(r, front).value, e))
  }

  predicate Plain(s: State, e: Event) {
    (e.Arrive? ==> e.m == Malformed || e.m == Sample(|s.log|)) && (e.Write? ==> e.status != PENDING)
  }

  lemma Step(r: State, es: seq<Event>, s: State, e: Event) returns (es': seq<Event>, t: State)
    requires Runs(r, es, s) && Enabled(s, e) && Plain(s, e)
    ensures t == Next(s, e) && Runs(r, es', t)
  {
    es', t := es + [e], Next(s, e);
    assert es'[..|es'| - 1] == es;
  }

  // Nothing in flight, and the reader is at the end of the log.  The first l offsets are
  // submissions whose results are the results there are; what is not processed is a submission.
  ghost predicate Calm(s: State, n: nat, l: nat) {
    && s.fetcher.Fetching? && s.queue == [] && s.workers == seq(n, _ => Idle)
    && |s.pool| == n && s.next == |s.log|
    && (forall off :: off in s.handled ==> off < s.next)
    && Answers(s, l)
  }

  ghost predicate Answers(s: State, l: nat) {
    && |s.results| == l <= |s.log|
    && (forall p: nat :: p < l ==> p in s.handled && s.log[p] == Sample(p) && s.results[p].id == Name(p))
    && (forall off: nat :: off < |s.log| && off !in s.handled ==> s.log[off] == Sample(off))
  }

  // A message arrives, is fetched and reaches the idle worker i.
  lemma Deliver(r: State, es: seq<Event>, s: State, i: nat, m: Message) returns (es': seq<Event>, t: State)
    requires Runs(r, es, s) && i < |s.workers| && s.workers[i].Idle?
    requires s.fetcher.Fetching? && s.queue == [] && s.next == |s.log|
    requires m == Malformed || m == Sample(|s.log|)
    ensures Runs(r, es', t)
    ensures t == s.(log := s.log + [m], next := s.next + 1, workers := s.workers[i := Took(s.next)])
  {
    es', t := Step(r, es, s, Arrive(m));
    es', t := Step(r, es', t, Fetch);
    es', t := Step(r, es', t, Enqueue);
    es', t := Step(r, es', t, Dequeue(i));
  }

  // A call fails: the message is skipped and the worker is idle again.
  lemma FailOne(r: State, es: seq<Event>, s: State, n: nat, l: nat) returns (es': seq<Event>, t: State)
    requires Runs(r, es, s) && Calm(s, n, l) && 0 < n
    ensures Runs(r, es', t) && Calm(t, n, l)
    ensures t.next == s.next + 1 && t.handled == s.handled && t.failures == s.failures + 1 && t.crashes == s.crashes
  {
    es', t := Deliver(r, es, s, 0, Sample(s.next));
    es', t := Step(r, es', t, Acquire(0));
    assert |"RE"| == 2 && |PENDING| == 7;
    es', t := Step(r, es', t, Write(0, "RE", "", false, false));
    es', t := Step(r, es', t, Release(0));
    assert t.workers == seq(n, _ => Idle);
  }

  // Worker i has judged the message it took and is idle again.
  ghost predicate Succeeded(s: State, t: State, i: nat) {
    && i < |s.workers| && s.workers[i].Took? && t.workers == s.workers[i := Idle] && |t.pool| == |s.pool|
    && t.handled == s.handled + {s.workers[i].off}
    && MessageAt(s, s.workers[i].off).Submission?
    && t.results == s.results + [ResultEvent(MessageAt(s, s.workers[i].off).event.id, "AC", "")]
    && t.log == s.log && t.next == s.next && t.fetcher == s.fetcher && t.queue == s.queue
    && t.failures == s.failures && t.crashes == s.crashes
  }

  lemma Succeed(r: State, es: seq<Event>, s: State, i: nat) returns (es': seq<Event>, t: State)
    requires Runs(r, es, s) && i < |s.workers| && s.workers[i].Took? && MessageAt(s, s.workers[i].off).Submission?
    requires 0 < |s.pool| <= |s.workers|
    ensures Runs(r, es', t) && Succeeded(s, t, i)
  {
    es', t := Step(r, es, s, Acquire(i));
    assert |"AC"| == 2 && |PENDING| == 7;
    es', t := Step(r, es', t, Write(i, "AC", "", true, true));
    es', t := Step(r, es', t, Release(i));
    es', t := Step(r, es', t, Commit(i));
  }

  // A call succeeds, after nothing but successes.
  lemma SucceedOne(r: State, es: seq<Event>, s: State, n: nat) returns (es': seq<Event>, t: State)
    requires Runs(r, es, s) && Calm(s, n, s.next) && 0 < n
    ensures Runs(r, es', t) && Calm(t, n, s.next + 1)
    ensures t.next == s.next + 1 && t.handled == s.handled + {s.next}
    ensures t.failures == s.failures && t.crashes == s.crashes
  {
    ghost var u;
    es', u := Deliver(r, es, s, 0, Sample(s.next));
    es', t := Succeed(r, es', u, 0);
    CalmAgain(s, u, t, n);
  }

  lemma CalmAgain(s: State, u: State, t: State, n: nat)
    requires Calm(s, n, s.next) && 0 < n && Succeeded(u, t, 0)
    requires u == s.(log := s.log + [Sample(s.next)], next := s.next + 1, workers := s.workers[0 := Took(s.next)])
    ensures Calm(t, n, s.next + 1)
  {
    assert t.workers == seq(n, _ => Idle);
  }

  // The first k workers each have one of the k latest messages in hand.
  ghost predicate Taking(s: State, t: State, k: nat) {
    && k <= |s.workers| == |t.workers|
    && t.fetcher.Fetching? && t.queue == [] && t.pool == s.pool && t.next == s.next + k == |t.log|
    && t.handled == s.handled && t.failures == s.failures && t.crashes == s.crashes && t.results == s.results
    && t.base == s.base && t.issued == s.issued && t.failed == s.failed
    && s.log <= t.log && (forall off :: |s.log| <= off < |t.log| ==> t.log[off] == Sample(off))
    && (forall i :: 0 <= i < |t.workers| ==> t.workers[i] == if i < k then Took(s.next + i) else Idle)
  }

  lemma {:induction false} TakeMany(r: State, es: seq<Event>, s: State, n: nat, l: nat, k: nat)
    returns (es': seq<Event>, t: State)
    requires Runs(r, es, s) && Calm(s, n, l) && k <= n
    ensures Runs(r, es', t) && Taking(s, t, k)
  {
    if k == 0 {
      es', t := es, s;
    } else {
      es', t := TakeMany(r, es, s, n, l, k - 1);
      es', t := Deliver(r, es', t, k - 1, Sample(t.next));
    }
  }

  // Worker i has skipped the message it took, and its commit has reached the broker.
  ghost predicate Skipped(s: State, t: State, i: nat) {
    && i < |s.workers| && s.workers[i].Took? && t.workers == s.workers[i := Idle]
    && t.handled == s.handled + {s.workers[i].off} && t.watermark == s.workers[i].off + 1
    && t.log == s.log && t.next == s.next && t.fetcher == s.fetcher && t.results == s.results
    && t.failures == s.failures && t.crashes == s.crashes
  }

  lemma SkipOne(r: State, es: seq<Event>, s: State, i: nat) returns (es': seq<Event>, t: State)
    requires Runs(r, es, s) && i < |s.workers| && s.workers[i].Took? && MessageAt(s, s.workers[i].off).Malformed?
    ensures Runs(r, es', t) && Skipped(s, t, i)
  {
    es', t := Step(r, es, s, Skip(i));
    es', t := Step(r, es', t, Commit(i));
    es', t := Step(r, es', t, Flush(s.workers[i].off));
  }

  // k workers take a message each; then another worker skips a malformed one at once, and its
  // commit passes over theirs.
  lemma Overtake(r: State, es: seq<Event>, s: State, n: nat, l: nat, k: nat) returns (es': seq<Event>, t: State)
    requires Runs(r, es, s) && Calm(s, n, l) && k < n
    ensures Runs(r, es', t) && Overtaken(s, t, k) && |t.workers| == n
  {
    ghost var u, v;
    es', u := TakeMany(r, es, s, n, l, k);
    es', v := Deliver(r, es', u, k, Malformed);
    es', t := SkipOne(r, es', v, k);
    TakenThenSkipped(s, u, v, t, k);
  }

  ghost predicate Overtaken(s: State, t: State, k: nat) {
    && t.fetcher.Fetching? && t.watermark == t.next == |t.log| == s.next + k + 1
    && t.handled == s.handled + {s.next + k} && t.failures == s.failures && t.crashes == s.crashes
    && t.results == s.results && s.log <= t.log
    && (forall off :: |s.log| <= off < |t.log| - 1 ==> t.log[off] == Sample(off))
    && (forall i :: 0 <= i < |t.workers| ==> t.workers[i] == if i < k then Took(s.next + i) else Idle)
  }

  lemma TakenThenSkipped(s: State, u: State, v: State, t: State, k: nat)
    requires s.next == |s.log| && Taking(s, u, k) && k < |u.workers| && Skipped(v, t, k)
    requires v == u.(log := u.log + [Malformed], next := u.next + 1, workers := u.workers[k := Took(u.next)])
    ensures Overtaken(s, t, k) && |t.workers| == |s.workers|
  {}

  lemma OvertakenAnswers(s: State, t: State, k: nat, l: nat)
    requires Answers(s, l) && s.next == |s.log| && Overtaken(s, t, k)
    ensures Answers(t, l)
  {}

  lemma TakenAreInHand(ws: seq<Worker>, first: nat, k: nat, off: nat)
    requires k <= |ws| && forall i :: 0 <= i < |ws| ==> ws[i] == if i < k then Took(first + i) else Idle
    ensures InHand(ws, off) <==> first <= off < first + k
  {
    if first <= off < first + k { assert InProcess(ws[off - first]); }
  }

  lemma OvertakenInFlight(s: State, t: State, k: nat)
    requires Overtaken(s, t, k) && k < |t.workers| && forall off :: off in s.handled ==> off < s.next
    ensures InFlight(t) == Range(s.next, s.next + k)
  {
    forall off: nat ensures off in InFlight(t) <==> s.next <= off < s.next + k {
      TakenAreInHand(t.workers, s.next, k, off);
    }
  }

  lemma OvertakenUnhandled(s: State, t: State, k: nat)
    requires Overtaken(s, t, k) && forall off :: off in s.handled ==> off < s.next
    ensures |Unhandled(t, t.next)| == |Unhandled(s, s.next)| + k
  {
    assert Unhandled(t, t.next) == Unhandled(s, s.next) + Range(s.next, s.next + k);
  }

  lemma OneMoreUnhandled(s: State, t: State)
    requires t.next == s.next + 1 && t.handled == s.handled && s.next !in s.handled
    ensures |Unhandled(t, t.next)| == |Unhandled(s, s.next)| + 1
  {
    assert Unhandled(t, t.next) == Unhandled(s, s.next) + {s.next};
  }

  lemma {:induction false} Successes(ids: seq<string>, l: nat) returns (es: seq<Event>, s: State)
    requires ids != [] && Distinct(ids)
    ensures Runs(Init(ids), es, s) && Calm(s, |ids|, l) && s.next == l && s.crashes == 0 && s.failures == 0
    ensures Unhandled(s, s.next) == {}
  {
    if l == 0 {
      es, s := [], Init(ids);
    } else {
      ghost var t;
      es, t := Successes(ids, l - 1);
      es, s := SucceedOne(Init(ids), es, t, |ids|);
      assert Unhandled(s, s.next) == Unhandled(t, t.next);
    }
  }

  lemma {:induction false} FailedCalls(ids: seq<string>, f: nat, l: nat) returns (es: seq<Event>, s: State)
    requires ids != [] && Distinct(ids)
    ensures Runs(Init(ids), es, s) && Calm(s, |ids|, l) && s.crashes == 0 && s.failures == f
    ensures |Unhandled(s, s.next)| == f
  {
    if f == 0 {
      es, s := Successes(ids, l);
    } else {
      ghost var t;
      es, t := FailedCalls(ids, f - 1, l);
      es, s := FailOne(Init(ids), es, t, |ids|, l);
      OneMoreUnhandled(t, s);
    }
  }

  // Every worker but one has a message in hand when the process crashes.
  lemma CrashOne(r: State, es: seq<Event>, s: State, ids: seq<string>, l: nat) returns (es': seq<Event>, t: State)
    requires Runs(r, es, s) && Calm(s, |ids|, l) && ids != [] && Distinct(ids)
    ensures Runs(r, es', t) && Calm(t, |ids|, l) && t.crashes == s.crashes + 1 && t.failures == s.failures
    ensures |Unhandled(t, t.next)| == |Unhandled(s, s.next)| + |ids| - 1
  {
    ghost var u;
    es', u := Overtake(r, es, s, |ids|, l, |ids| - 1);
    OvertakenUnhandled(s, u, |ids| - 1);
    OvertakenAnswers(s, u, |ids| - 1, l);
    es', t := Step(r, es', u, Restart(ids));
    assert Unhandled(t, t.next) == Unhandled(u, u.next);
  }

  lemma OneLess(c: nat, n: nat)
    requires 0 < c
    ensures c * n == (c - 1) * n + n
  {}

  lemma {:induction false} Crashes(ids: seq<string>, c: nat, f: nat, l: nat) returns (es: seq<Event>, s: State)
    requires ids != [] && Distinct(ids)
    ensures Runs(Init(ids), es, s) && Calm(s, |ids|, l) && s.crashes == c && s.failures == f
    ensures |Unhandled(s, s.next)| == c * (|ids| - 1) + f
  {
    if c == 0 {
      es, s := FailedCalls(ids, f, l);
    } else {
      es, s := Crashes(ids, c - 1, f, l);
      es, s := CrashOne(Init(ids), es, s, ids, l);
      OneLess(c, |ids| - 1);
    }
  }

  // The run behind the theorem, with l results of other submissions on the topic.
  lemma Losing(ids: seq<string>, c: nat, f: nat, k: nat, l: nat) returns (es: seq<Event>, s: State)
    requires ids != [] && Distinct(ids) && k < |ids|
    ensures Runs(Init(ids), es, s) && Answers(s, l) && s.watermark == |s.log|
    ensures s.crashes == c && s.failures == f
    ensures |Dropped(s)| == c * (|ids| - 1) + f && |InFlight(s)| == k
  {
    ghost var t;
    es, t := Crashes(ids, c, f, l);
    es, s := Overtake(Init(ids), es, t, |ids|, l, k);
    OvertakenUnhandled(t, s, k);
    OvertakenInFlight(t, s, k);
    OvertakenAnswers(t, s, k, l);
    DroppedOrInFlight(s);
  }

  lemma LossAttained(ids: seq<string>, c: nat, f: nat, k: nat) returns (es: seq<Event>, s: State)
    requires ids != [] && Distinct(ids) && k < |ids|
    ensures Reaches(ids, es, s) && s.crashes == c && s.failures == f
    ensures |Dropped(s)| == c * (|ids| - 1) + f && |InFlight(s)| == k
    ensures |Unhandled(s, s.watermark)| == c * (|ids| - 1) + f + k
  {
    es, s := Losing(ids, c, f, k, 0);
    DroppedOrInFlight(s);
  }

  // Without failed calls, the judge processes everything it commits past exactly when it runs a
  // single worker: with more, each crash may lose what the others have in hand.
  lemma AtLeastOnceIff(ids: seq<string>)
    requires ids != [] && Distinct(ids)
    ensures (forall es, s :: Reaches(ids, es, s) && s.failures == 0 ==> Unhandled(s, s.watermark) == {}) <==> |ids| == 1
    ensures (forall es, s :: Reaches(ids, es, s) && s.failures == 0 ==> Dropped(s) == {}) <==> |ids| == 1
  {
    if |ids| == 1 {
      forall es, s | Reaches(ids, es, s) && s.failures == 0
        ensures Unhandled(s, s.watermark) == {} && Dropped(s) == {}
      {
        NoLossWithOneWorker(ids, es, s);
      }
    } else {
      var es, s := LossAttained(ids, 1, 0, 0);
      assert |Dropped(s)| == |ids| - 1 > 0;
      assert Reaches(ids, es, s) && Dropped(s) != {} && Unhandled(s, s.watermark) != {};
    }
  }

  // k messages arrive and wait in the channel.
  lemma {:induction false} FillQueue(r: State, es: seq<Event>, s: State, k: nat) returns (es': seq<Event>, t: State)
    requires Runs(r, es, s) && s.fetcher.Fetching? && s.next == |s.log| && |s.queue| + k <= |s.workers|
    ensures Runs(r, es', t) && t.fetcher.Fetching? && t.next == |t.log| == s.next + k
    ensures |t.queue| == |s.queue| + k && t.workers == s.workers
    ensures t.base == s.base && t.issued == s.issued && t.failed == s.failed
  {
    if k == 0 {
      es', t := es, s;
    } else {
      es', t := FillQueue(r, es, s, k - 1);
      es', t := Step(r, es', t, Arrive(Sample(|t.log|)));
      es', t := Step(r, es', t, Fetch);
      es', t := Step(r, es', t, Enqueue);
    }
  }

  // So many messages are in flight at once: one in each worker's hands, a full channel, and
  // one that the fetch loop cannot send.
  lemma BackpressureAttained(ids: seq<string>) returns (es: seq<Event>, s: State)
    requires ids != [] && Distinct(ids)
    ensures Reaches(ids, es, s) && |Unfinished(s)| == 2 * |ids| + 1
    ensures s.fetcher.Sending? && !Enabled(s, Enqueue)
  {
    var n := |ids|;
    es, s := TakeMany(Init(ids), [], Init(ids), n, 0, n);
    es, s := FillQueue(Init(ids), es, s, n);
    es, s := Step(Init(ids), es, s, Arrive(Sample(|s.log|)));
    es, s := Step(Init(ids), es, s, Fetch);
    assert Unfinished(s) == Range(0, 2 * n + 1);
  }
}
