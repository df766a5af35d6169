/** What every step of the dispatcher keeps. */
module DispatcherInvariants {
  import opened Topics
  import opened Dispatcher

  // The next offset a worker will receive.
  function Taken(s: State): int {
    s.next - |s.queue| - (if s.fetcher.Sending? then 1 else 0)
  }

  // The channel holds the fetched offsets that no worker has received, in log order.
  ghost predicate Fifo(s: State) {
    && 0 < |s.workers|
    && s.base <= Taken(s) && s.next <= |s.log| && |s.queue| <= |s.workers|
    && (s.fetcher.Sending? ==> s.fetcher.off == s.next - 1)
    && (forall j :: 0 <= j < |s.queue| ==> s.queue[j] == Taken(s) + j)
  }

  ghost predicate InHand(ws: seq<Worker>, off: nat) {
    exists i :: 0 <= i < |ws| && InProcess(ws[i]) && ws[i].off == off
  }

  ghost predicate ToCommit(ws: seq<Worker>, off: nat) {
    exists i :: 0 <= i < |ws| && ws[i].Done? && ws[i].off == off
  }

  // No received offset is in two places.
  ghost predicate Custody(s: State) {
    && (forall i :: 0 <= i < |s.workers| && Busy(s.workers[i]) ==> s.base <= s.workers[i].off < Taken(s))
    && (forall i, j :: 0 <= i < j < |s.workers| && Busy(s.workers[i]) && Busy(s.workers[j]) ==>
          s.workers[i].off != s.workers[j].off)
  }

  // What has returned is in nobody's hands any more.
  ghost predicate Once(s: State) {
    && (forall i :: 0 <= i < |s.workers| && InProcess(s.workers[i]) ==> s.workers[i].off !in s.returned)
    && (forall off :: off in s.returned ==> s.base <= off < Taken(s))
  }

  // No received offset returns twice.
  ghost predicate ReturnedOnce(s: State) { Distinct(s.returned) }

  // No received offset is dropped.
  ghost predicate Complete(s: State) {
    forall off: nat :: s.base <= off < Taken(s) ==> off in s.returned || InHand(s.workers, off)
  }

  // A commit is issued exactly for the offsets that returned nil, after they returned.
  ghost predicate Commits(s: State) {
    && (forall off :: off in s.failed ==> off in s.returned)
    && (forall off :: off in s.issued ==> off in s.returned && off !in s.failed)
    && (forall i :: 0 <= i < |s.workers| && s.workers[i].Done? ==>
          s.workers[i].off in s.returned && s.workers[i].off !in s.failed && s.workers[i].off !in s.issued)
    && (forall off :: off in s.returned && off !in s.failed ==> off in s.handled)
    && (s.watermark == s.base || (0 < s.watermark && s.watermark - 1 in s.issued))
  }

  ghost predicate NoneSkipped(s: State) {
    forall off :: off in s.returned && off !in s.failed ==> off in s.issued || ToCommit(s.workers, off)
  }

  // A result for the submission at this offset is on the results topic.
  ghost predicate Answered(s: State, off: nat) {
    off < |s.log| &&
    (s.log[off].Submission? ==> exists j :: 0 <= j < |s.results| && s.results[j].id == s.log[off].event.id)
  }

  // The results this process wrote are the tail of the results topic, one for each
  // offset in `emitted`, carrying the submission id found at that offset.
  ghost predicate Emission(s: State) {
    && |s.emitted| <= |s.results|
    && Distinct(s.emitted)
    && (forall j :: 0 <= j < |s.emitted| ==>
          && s.base <= s.emitted[j] < Taken(s)
          && s.emitted[j] < |s.log| && s.log[s.emitted[j]].Submission?
          && s.results[|s.results| - |s.emitted| + j].id == s.log[s.emitted[j]].event.id)
  }

  // A message in hand is written at most once...
  ghost predicate NotYetWritten(s: State) {
    && (forall i :: 0 <= i < |s.workers| && (s.workers[i].Took? || s.workers[i].Holding?) ==>
          s.workers[i].off !in s.emitted)
  }

  // Only well-formed messages get a container.
  ghost predicate Decoded(s: State) {
    && (forall i :: 0 <= i < |s.workers| && (s.workers[i].Holding? || s.workers[i].Wrote?) ==>
          MessageAt(s, s.workers[i].off).Submission?)
  }

  // ... and a well-formed one at least once before it returns nil.
  ghost predicate WrittenFirst(s: State) {
    && (forall i :: 0 <= i < |s.workers| && s.workers[i].Wrote? && s.workers[i].ok ==>
          s.workers[i].off in s.emitted)
    && (forall off :: off in s.returned && off !in s.failed && MessageAt(s, off).Submission? ==> off in s.emitted)
  }

  ghost predicate AllAnswered(s: State) {
    && (forall i :: 0 <= i < |s.workers| && s.workers[i].Wrote? && s.workers[i].ok ==> Answered(s, s.workers[i].off))
    && (forall off :: off in s.handled ==> Answered(s, off))
  }

  // The tokens in the hands of the first k workers.
  function HeldByFirst(ws: seq<Worker>, k: nat): multiset<string>
    requires k <= |ws|
  {
    if k == 0 then multiset{} else HeldByFirst(ws, k - 1) + Token(ws[k - 1])
  }

  // The tokens in workers' hands.
  function Held(ws: seq<Worker>): multiset<string> { HeldByFirst(ws, |ws|) }

  function Token(w: Worker): multiset<string> {
    if w.Holding? || w.Wrote? then multiset{w.token} else multiset{}
  }

  // Idle tokens and held tokens together are the containers this process created.
  ghost predicate Tokens(s: State) {
    && |s.ids| == |s.workers| && Distinct(s.ids)
    && multiset(s.pool) + Held(s.workers) == multiset(s.ids)
  }

  ghost predicate Lifecycle(s: State) {
    && (forall i :: 0 <= i < |s.workers| && s.workers[i].Exited? ==>
          s.queue == [] && (s.fetcher.Closed? || s.fetcher.Returned?))
    && (s.fetcher.Returned? ==> s.queue == [] && forall i :: 0 <= i < |s.workers| ==> s.workers[i].Exited?)
  }

  // A worker that holds nothing at or below k and never will again.
  predicate Past(w: Worker, k: int) { Busy(w) ==> w.off > k }

  ghost predicate SomePast(ws: seq<Worker>, k: nat) {
    exists i :: 0 <= i < |ws| && Past(ws[i], k)
  }

  // Received below hi and not yet handled by any process.
  function Unhandled(s: State, hi: nat): set<nat> {
    set off: nat | off < hi && off !in s.handled
  }

  // Below the group's offset and never processed: nobody has it...
  ghost function Dropped(s: State): set<nat> {
    set off: nat | off < s.watermark && off !in s.handled && !InHand(s.workers, off)
  }

  // ... or a worker has it in hand.
  ghost function InFlight(s: State): set<nat> {
    set off: nat | off < s.watermark && off !in s.handled && InHand(s.workers, off)
  }

  ghost predicate NoneInProcess(s: State) {
    forall i :: 0 <= i < |s.workers| ==> !InProcess(s.workers[i])
  }

  ghost predicate Loss(s: State) {
    && (forall k :: k in s.issued ==> SomePast(s.workers, k))
    && |Unhandled(s, s.base) + s.failed| <= s.crashes * (|s.workers| - 1) + s.failures
  }

  ghost predicate Inv(s: State) {
    && Fifo(s) && Custody(s) && Once(s) && ReturnedOnce(s) && Complete(s)
    && Commits(s) && NoneSkipped(s)
    && Emission(s) && NotYetWritten(s) && Decoded(s) && WrittenFirst(s) && AllAnswered(s)
    && Tokens(s) && Lifecycle(s) && Loss(s)
  }

  lemma FifoStep(s: State, e: Event)
    requires Fifo(s) && Custody(s) && Once(s) && Commits(s) && Enabled(s, e)
    ensures Fifo(Next(s, e))
  {
    if e.Flush? { assert e.k in s.returned; }
  }

  lemma CustodyWorker(s: State, e: Event)
    requires Fifo(s) && Custody(s) && Enabled(s, e) && (e.Dequeue? || e.Release?)
    ensures Custody(Next(s, e))
  {}

  lemma CustodyStep(s: State, e: Event)
    requires Fifo(s) && Custody(s) && Enabled(s, e)
    ensures Custody(Next(s, e))
  {
    if e.Dequeue? || e.Release? { CustodyWorker(s, e); }
  }

  lemma OnceWorker(s: State, e: Event)
    requires Fifo(s) && Custody(s) && Once(s) && Enabled(s, e) && (e.Skip? || e.Release? || e.Dequeue?)
    ensures Once(Next(s, e))
  {}

  lemma OnceStep(s: State, e: Event)
    requires Fifo(s) && Custody(s) && Once(s) && Enabled(s, e)
    ensures Once(Next(s, e))
  {
    if e.Skip? || e.Release? || e.Dequeue? { OnceWorker(s, e); }
  }

  lemma ReturnedOnceStep(s: State, e: Event)
    requires Once(s) && ReturnedOnce(s) && Enabled(s, e)
    ensures ReturnedOnce(Next(s, e))
  {}

  lemma CompleteStep(s: State, e: Event)
    requires Fifo(s) && Complete(s) && Enabled(s, e)
    ensures Complete(Next(s, e))
  {
    var t := Next(s, e);
    forall off: nat | t.base <= off < Taken(t) ensures off in t.returned || InHand(t.workers, off) {
      if off < Taken(s) {
        if off !in s.returned && !e.Restart? {
          var k :| 0 <= k < |s.workers| && InProcess(s.workers[k]) && s.workers[k].off == off;
          if InProcess(t.workers[k]) {
            assert t.workers[k].off == off;
          } else {
            assert off == t.returned[|t.returned| - 1];
          }
        }
      } else {
        assert e.Dequeue? && InProcess(t.workers[e.i]) && t.workers[e.i].off == off;
      }
    }
  }

  lemma CommitsWorker(s: State, e: Event)
    requires Fifo(s) && Custody(s) && Once(s) && Commits(s) && Enabled(s, e) && (e.Skip? || e.Release? || e.Commit?)
    ensures Commits(Next(s, e))
  {}

  lemma CommitsStep(s: State, e: Event)
    requires Fifo(s) && Custody(s) && Once(s) && Commits(s) && Enabled(s, e)
    ensures Commits(Next(s, e))
  {
    if e.Skip? || e.Release? || e.Commit? { CommitsWorker(s, e); }
  }

  lemma NoneSkippedStep(s: State, e: Event)
    requires NoneSkipped(s) && Enabled(s, e)
    ensures NoneSkipped(Next(s, e))
  {
    var t := Next(s, e);
    forall off | off in t.returned && off !in t.failed ensures off in t.issued || ToCommit(t.workers, off) {
      if off in s.returned {
        if off !in s.issued {
          var k :| 0 <= k < |s.workers| && s.workers[k].Done? && s.workers[k].off == off;
          assert t.workers[k] == s.workers[k] || off in t.issued;
        }
      } else {
        assert e.Skip? || e.Release?;
        assert t.workers[e.i].Done? && t.workers[e.i].off == off;
      }
    }
  }

  lemma AnsweredStep(s: State, e: Event, off: nat)
    requires Enabled(s, e) && Answered(s, off)
    ensures Answered(Next(s, e), off)
  {
    var t := Next(s, e);
    if s.log[off].Submission? {
      var j :| 0 <= j < |s.results| && s.results[j].id == s.log[off].event.id;
      assert t.results[j] == s.results[j];
    }
  }

  lemma EmissionWorker(s: State, e: Event)
    requires Fifo(s) && Custody(s) && Emission(s) && NotYetWritten(s) && Enabled(s, e) && (e.Write? || e.Dequeue?)
    ensures Emission(Next(s, e))
  {}

  lemma EmissionStep(s: State, e: Event)
    requires Fifo(s) && Custody(s) && Emission(s) && NotYetWritten(s) && Enabled(s, e)
    ensures Emission(Next(s, e))
  {
    if e.Write? || e.Dequeue? { EmissionWorker(s, e); }
  }

  lemma NotYetWrittenStep(s: State, e: Event)
    requires Fifo(s) && Custody(s) && Emission(s) && NotYetWritten(s) && Enabled(s, e)
    ensures NotYetWritten(Next(s, e))
  {}

  lemma DecodedStep(s: State, e: Event)
    requires Decoded(s) && Enabled(s, e)
    ensures Decoded(Next(s, e))
  {}

  lemma WrittenFirstStep(s: State, e: Event)
    requires Fifo(s) && Custody(s) && Once(s) && Decoded(s) && WrittenFirst(s) && Enabled(s, e)
    ensures WrittenFirst(Next(s, e))
  {}

  lemma AllAnsweredStep(s: State, e: Event)
    requires Fifo(s) && Custody(s) && AllAnswered(s) && Enabled(s, e)
    ensures AllAnswered(Next(s, e))
  {
    var t := Next(s, e);
    forall off | Answered(s, off) ensures Answered(t, off) { AnsweredStep(s, e, off); }
    if e.Write? && e.landed {
      assert t.results[|t.results| - 1].id == t.log[s.workers[e.i].off].event.id;
    }
  }

  // How many of the first k workers hold this token.
  function HoldersOf(ws: seq<Worker>, k: nat, token: string): nat
    requires k <= |ws|
  {
    if k == 0 then 0 else HoldersOf(ws, k - 1, token) + Count(ws[k - 1], token)
  }

  function Count(w: Worker, token: string): nat { if Holds(w) && w.token == token then 1 else 0 }

  lemma {:induction false} HeldIsCounted(ws: seq<Worker>, k: nat, token: string)
    requires k <= |ws|
    ensures HeldByFirst(ws, k)[token] == HoldersOf(ws, k, token)
  {
    if k > 0 { HeldIsCounted(ws, k - 1, token); }
  }

  lemma {:induction false} CountUpdate(ws: seq<Worker>, i: nat, w: Worker, k: nat, token: string)
    requires i < |ws| && k <= |ws|
    ensures HoldersOf(ws[i := w], k, token) ==
        HoldersOf(ws, k, token) + (if i < k then Count(w, token) - Count(ws[i], token) else 0)
  {
    if k > 0 { CountUpdate(ws, i, w, k - 1, token); }
  }

  lemma HeldUpdate(ws: seq<Worker>, i: nat, w: Worker, token: string)
    requires i < |ws|
    ensures Held(ws[i := w])[token] + Token(ws[i])[token] == Held(ws)[token] + Token(w)[token]
  {
    HeldIsCounted(ws, |ws|, token);
    HeldIsCounted(ws[i := w], |ws|, token);
    CountUpdate(ws, i, w, |ws|, token);
  }

  lemma {:induction false} HeldByNone(ws: seq<Worker>, k: nat)
    requires k <= |ws| && forall i :: 0 <= i < k ==> Token(ws[i]) == multiset{}
    ensures HeldByFirst(ws, k) == multiset{}
  {
    if k > 0 { HeldByNone(ws, k - 1); }
  }

  predicate Holds(w: Worker) { w.Holding? || w.Wrote? }

  function Holders(ws: seq<Worker>, k: nat): nat
    requires k <= |ws|
  {
    if k == 0 then 0 else Holders(ws, k - 1) + (if Holds(ws[k - 1]) then 1 else 0)
  }

  lemma {:induction false} HeldCount(ws: seq<Worker>, k: nat)
    requires k <= |ws|
    ensures |HeldByFirst(ws, k)| == Holders(ws, k) <= k
  {
    if k > 0 { HeldCount(ws, k - 1); }
  }

  lemma {:induction false} HoldersCount(ws: seq<Worker>, k: nat, i: nat)
    requires i < k <= |ws|
    ensures Holders(ws, k) <= k
    ensures if Holds(ws[i]) then 0 < Holders(ws, k) else Holders(ws, k) < k
  {
    if i < k - 1 { HoldersCount(ws, k - 1, i); } else { HeldCount(ws, k - 1); }
  }

  // A worker's step moves tokens between that worker and the pool and nowhere else.
  lemma TokenMove(s: State, t: State, i: nat)
    requires i < |s.workers| == |t.workers| && t.workers == s.workers[i := t.workers[i]]
    requires multiset(t.pool) + Token(t.workers[i]) == multiset(s.pool) + Token(s.workers[i])
    ensures multiset(t.pool) + Held(t.workers) == multiset(s.pool) + Held(s.workers)
  {
    forall y ensures (multiset(t.pool) + Held(t.workers))[y] == (multiset(s.pool) + Held(s.workers))[y] {
      HeldUpdate(s.workers, i, t.workers[i], y);
      assert (multiset(t.pool) + Token(t.workers[i]))[y] == (multiset(s.pool) + Token(s.workers[i]))[y];
    }
  }

  lemma TokensStep(s: State, e: Event)
    requires Tokens(s) && Enabled(s, e)
    ensures Tokens(Next(s, e))
  {
    if e.Restart? {
      HeldByNone(Next(s, e).workers, |s.workers|);
    } else if e.Acquire? {
      TokenAcquire(s, e.i);
    } else if e.Release? {
      TokenRelease(s, e.i);
    } else if e.Write? {
      TokenMove(s, Next(s, e), e.i);
    } else if e.Dequeue? || e.Skip? || e.Commit? || e.Exit? {
      TokenKeep(s, e, e.i);
    }
  }

  lemma TokenRelease(s: State, i: nat)
    requires Tokens(s) && Enabled(s, Release(i))
    ensures Tokens(Next(s, Release(i)))
  {
    TokenMove(s, Next(s, Release(i)), i);
  }

  lemma TokenKeep(s: State, e: Event, i: nat)
    requires Tokens(s) && Enabled(s, e) && (e.Dequeue? || e.Skip? || e.Commit? || e.Exit?) && e.i == i
    ensures Tokens(Next(s, e))
  {
    TokenMove(s, Next(s, e), i);
  }

  lemma TokenAcquire(s: State, i: nat)
    requires Tokens(s) && Enabled(s, Acquire(i))
    ensures Tokens(Next(s, Acquire(i)))
  {
    assert s.pool == [s.pool[0]] + s.pool[1..];
    TokenMove(s, Next(s, Acquire(i)), i);
  }

  lemma LifecycleStep(s: State, e: Event)
    requires 0 < |s.workers| && Lifecycle(s) && Enabled(s, e)
    ensures Lifecycle(Next(s, e))
  {
    if e.Return? { assert s.workers[0].Exited?; }
  }

  // The unreturned offsets below hi in the hands of the first k workers.
  function HandsBelow(ws: seq<Worker>, hi: nat, k: nat): set<nat>
    requires k <= |ws|
  {
    if k == 0 then {} else
    HandsBelow(ws, hi, k - 1) + (if InProcess(ws[k - 1]) && ws[k - 1].off < hi then {ws[k - 1].off} else {})
  }

  lemma {:induction false} HandsBelowCount(ws: seq<Worker>, hi: nat, k: nat)
    requires k <= |ws|
    ensures |HandsBelow(ws, hi, k)| <= k
    ensures (exists i :: 0 <= i < k && Past(ws[i], hi - 1)) ==> |HandsBelow(ws, hi, k)| < k
    ensures (forall i :: 0 <= i < k ==> !InProcess(ws[i])) ==> HandsBelow(ws, hi, k) == {}
    ensures forall i :: 0 <= i < k && InProcess(ws[i]) && ws[i].off < hi ==> ws[i].off in HandsBelow(ws, hi, k)
  {
    if k > 0 { HandsBelowCount(ws, hi, k - 1); }
  }

  lemma {:induction false} HandsBelowAreInHand(ws: seq<Worker>, hi: nat, k: nat)
    requires k <= |ws|
    ensures forall off :: off in HandsBelow(ws, hi, k) <==>
      exists i :: 0 <= i < k && InProcess(ws[i]) && ws[i].off == off && off < hi
  {
    if k > 0 { HandsBelowAreInHand(ws, hi, k - 1); }
  }

  // What is in hand below the watermark is with the workers other than the one that committed.
  lemma InFlightCount(s: State)
    requires Custody(s) && Commits(s) && Loss(s) && 0 < |s.workers|
    ensures |InFlight(s)| <= |s.workers| - 1
    ensures s.watermark == s.base || NoneInProcess(s) ==> InFlight(s) == {}
  {
    if s.watermark == s.base {
      assert InFlight(s) == {};
    } else {
      var hands := HandsBelow(s.workers, s.watermark, |s.workers|);
      HandsBelowAreInHand(s.workers, s.watermark, |s.workers|);
      SubsetCardinality(InFlight(s), hands);
      assert SomePast(s.workers, s.watermark - 1);
      HandsBelowCount(s.workers, s.watermark, |s.workers|);
    }
  }

  // What nobody has was missing below the base, or has failed since.
  lemma DroppedCount(s: State)
    requires Inv(s)
    ensures |Dropped(s)| <= s.crashes * (|s.workers| - 1) + s.failures
  {
    SubsetCardinality(Dropped(s), Unhandled(s, s.base) + s.failed);
  }

  lemma DroppedOrInFlight(s: State)
    ensures Unhandled(s, s.watermark) == Dropped(s) + InFlight(s)
    ensures |Unhandled(s, s.watermark)| == |Dropped(s)| + |InFlight(s)|
  {
    assert Unhandled(s, s.watermark) == Dropped(s) + InFlight(s) && Dropped(s) * InFlight(s) == {};
  }

  lemma UnionCardinality<T>(a: set<T>, b: set<T>)
    ensures |a + b| <= |a| + |b|
  {}

  lemma LossAtWatermark(s: State)
    requires Inv(s)
    ensures |Unhandled(s, s.watermark)| <= s.crashes * (|s.workers| - 1) + s.failures + (|s.workers| - 1)
    ensures s.watermark == s.base || s.fetcher.Returned? ==>
              |Unhandled(s, s.watermark)| <= s.crashes * (|s.workers| - 1) + s.failures
  {
    DroppedCount(s);
    InFlightCount(s);
    DroppedOrInFlight(s);
  }

  lemma PastStep(s: State, e: Event, k: nat)
    requires Fifo(s) && Once(s) && Commits(s) && Enabled(s, e) && !e.Restart? && k in Next(s, e).issued
    requires k in s.issued ==> SomePast(s.workers, k)
    ensures SomePast(Next(s, e).workers, k)
  {
    var t := Next(s, e);
    if k in s.issued {
      var i :| 0 <= i < |s.workers| && Past(s.workers[i], k);
      assert Past(t.workers[i], k);
    } else {
      assert e.Commit? && Past(t.workers[e.i], k);
    }
  }

  lemma OneMore(c: nat, n: nat)
    ensures (c + 1) * n == c * n + n
  {}

  lemma LossRestart(s: State, e: Event)
    requires Inv(s) && Enabled(s, e) && e.Restart?
    ensures Loss(Next(s, e))
  {
    LossAtWatermark(s);
    assert Unhandled(Next(s, e), s.watermark) + {} == Unhandled(s, s.watermark);
    OneMore(s.crashes, |s.workers| - 1);
  }

  lemma LossStep(s: State, e: Event)
    requires Fifo(s) && Once(s) && Commits(s) && Loss(s) && Enabled(s, e) && !e.Restart?
    ensures Loss(Next(s, e))
  {
    var t := Next(s, e);
    forall k | k in t.issued ensures SomePast(t.workers, k) { PastStep(s, e, k); }
    LossCount(s, e);
  }

  lemma LossCount(s: State, e: Event)
    requires Enabled(s, e) && !e.Restart?
    ensures |Unhandled(Next(s, e), s.base) + Next(s, e).failed| - Next(s, e).failures <=
        |Unhandled(s, s.base) + s.failed| - s.failures
  {
    var t := Next(s, e);
    var before, now := Unhandled(s, s.base) + s.failed, Unhandled(t, t.base) + t.failed;
    if e.Release? && t.failures != s.failures {
      SubsetCardinality(now, before + {s.workers[e.i].off});
      UnionCardinality(before, {s.workers[e.i].off});
    } else {
      SubsetCardinality(now, before);
    }
  }

  lemma InvStep(s: State, e: Event)
    requires Inv(s) && Enabled(s, e)
    ensures Inv(Next(s, e))
  {
    FifoStep(s, e);
    CustodyStep(s, e);
    OnceStep(s, e);
    ReturnedOnceStep(s, e);
    CompleteStep(s, e);
    CommitsStep(s, e);
    NoneSkippedStep(s, e);
    EmissionStep(s, e);
    NotYetWrittenStep(s, e);
    DecodedStep(s, e);
    WrittenFirstStep(s, e);
    AllAnsweredStep(s, e);
    TokensStep(s, e);
    LifecycleStep(s, e);
    if e.Restart? { LossRestart(s, e); } else { LossStep(s, e); }
  }

  lemma TokensInit(ids: seq<string>)
    requires Distinct(ids)
    ensures Tokens(Init(ids))
  {
    HeldByNone(Init(ids).workers, |ids|);
  }

  lemma InvInit(ids: seq<string>)
    requires ids != [] && Distinct(ids)
    ensures Inv(Init(ids))
  {
    TokensInit(ids);
    assert Unhandled(Init(ids), 0) + {} == {};
  }

  lemma {:induction false} InvRun(ids: seq<string>, es: seq<Event>, s: State)
    requires Reaches(ids, es, s)
    ensures Inv(s) && |s.workers| == |ids|
  {
    if es == [] {
      InvInit(ids);
    } else {
      var before := After(Init(ids), es[..|es| - 1]).value;
      InvRun(ids, es[..|es| - 1], before);
      InvStep(before, es[|es| - 1]);
    }
  }
}
