/** The judge service as a step machine: one fetch goroutine, a bounded channel of offsets,
    |workers| worker goroutines, a pool of container tokens, and the broker that keeps the
    two topics and the consumer group's offset.  Every event is one atomic step of one
    goroutine (or of the broker, or of whatever restarts the process). */
module Dispatcher {
  import opened Topics

  // Where a worker goroutine stands in its `for msg := range jobs` loop.
  datatype Worker =
    | Idle                                      // waiting on the channel
    | Took(off: nat)                            // received, ProcessMessage entered
    | Holding(off: nat, token: string)          // owns a container
    | Wrote(off: nat, token: string, ok: bool)  // WriteMessages returned, token still owned
    | Done(off: nat)                            // ProcessMessage returned nil, commit to come
    | Exited                                    // channel closed and empty

  // Where the fetch loop stands.
  datatype Fetcher = Fetching | Sending(off: nat) | Closed | Returned

  datatype State = State(
    // broker
    log: seq<Message>,            // the single partition of the submissions topic
    results: seq<ResultEvent>,    // the results topic
    watermark: nat,               // the group's committed offset
    // the running process
    base: nat,                    // the offset this process started from
    next: nat,                    // the offset the reader returns next
    fetcher: Fetcher,
    queue: seq<nat>,              // the `jobs` channel
    workers: seq<Worker>,
    ids: seq<string>,             // the containers this process created
    pool: seq<string>,            // the `workerPool` channel
    // history of the running process
    returned: seq<nat>,           // offsets whose ProcessMessage has returned, in order
    failed: set<nat>,             // those of them that returned an error
    issued: set<nat>,             // offsets passed to CommitMessages
    emitted: seq<nat>,            // offsets whose result reached the results topic, in order
    // history over all processes
    handled: set<nat>,            // offsets whose ProcessMessage ever returned nil
    failures: nat,                // ProcessMessage calls that returned an error
    crashes: nat)                 // processes that ended without Run returning

  datatype Event =
    | Arrive(m: Message)                        // a producer appends to the submissions topic
    | Fetch | FetchError | Enqueue | Return     // the fetch goroutine
    | Dequeue(i: nat) | Skip(i: nat) | Acquire(i: nat)
    | Write(i: nat, status: string, message: string, landed: bool, ok: bool)
    | Release(i: nat) | Commit(i: nat) | Exit(i: nat)
    | Flush(k: nat)                             // an issued commit reaches the broker
    | Restart(created: seq<string>)               // a new process, after a crash or a clean return

  function Init(ids: seq<string>): State {
    State([], [], 0, 0, 0, Fetching, [], seq(|ids|, _ => Idle), ids, ids, [], {}, {}, [], {}, 0, 0)
  }

  predicate Busy(w: Worker) { !w.Idle? && !w.Exited? }

  // Inside ProcessMessage.
  predicate InProcess(w: Worker) { w.Took? || w.Holding? || w.Wrote? }

  ghost predicate Enabled(s: State, e: Event) {
    match e
    case Arrive(_) => true
    case Fetch => s.fetcher.Fetching? && s.next < |s.log|
    case FetchError => s.fetcher.Fetching?
    case Enqueue => s.fetcher.Sending? && |s.queue| < |s.workers|
    case Return => s.fetcher.Closed? && forall i :: 0 <= i < |s.workers| ==> s.workers[i].Exited?
    case Dequeue(i) => i < |s.workers| && s.workers[i].Idle? && s.queue != []
    case Skip(i) => i < |s.workers| && s.workers[i].Took? && MessageAt(s, s.workers[i].off).Malformed?
    case Acquire(i) =>
      i < |s.workers| && s.workers[i].Took? && MessageAt(s, s.workers[i].off).Submission? && s.pool != []
    case Write(i, _, _, landed, ok) =>
      i < |s.workers| && s.workers[i].Holding? && (ok ==> landed) && MessageAt(s, s.workers[i].off).Submission?
    case Release(i) => i < |s.workers| && s.workers[i].Wrote? && |s.pool| < |s.workers|
    case Commit(i) => i < |s.workers| && s.workers[i].Done?
    case Exit(i) => i < |s.workers| && s.workers[i].Idle? && s.queue == [] && s.fetcher.Closed?
    case Flush(k) => k in s.issued
    case Restart(created) => |created| == |s.workers| && Distinct(created)
  }

  function MessageAt(s: State, off: nat): Message {
    if off < |s.log| then s.log[off] else Malformed
  }

  ghost function Next(s: State, e: Event): State
    requires Enabled(s, e)
  {
    match e
    case Arrive(m) => s.(log := s.log + [m])
    case Fetch => s.(fetcher := Sending(s.next), next := s.next + 1)
    case FetchError => s.(fetcher := Closed)
    case Enqueue => s.(queue := s.queue + [s.fetcher.off], fetcher := Fetching)
    case Return => s.(fetcher := Returned)
    case Dequeue(i) => s.(workers := s.workers[i := Took(s.queue[0])], queue := s.queue[1..])
    case Skip(i) =>
      var off := s.workers[i].off;
      s.(workers := s.workers[i := Done(off)], returned := s.returned + [off], handled := s.handled + {off})
    case Acquire(i) =>
      s.(workers := s.workers[i := Holding(s.workers[i].off, s.pool[0])], pool := s.pool[1..])
    case Write(i, status, message, landed, ok) =>
      var Holding(off, token) := s.workers[i];
      var t := s.(workers := s.workers[i := Wrote(off, token, ok)]);
      if landed then
        t.(results := s.results + [ResultEvent(MessageAt(s, off).event.id, status, message)],
           emitted := s.emitted + [off])
      else t
    case Release(i) =>
      var Wrote(off, token, ok) := s.workers[i];
      var t := s.(pool := s.pool + [token], returned := s.returned + [off]);
      if ok then t.(workers := s.workers[i := Done(off)], handled := s.handled + {off})
      else t.(workers := s.workers[i := Idle], failed := s.failed + {off}, failures := s.failures + 1)
    case Commit(i) => s.(workers := s.workers[i := Idle], issued := s.issued + {s.workers[i].off})
    case Exit(i) => s.(workers := s.workers[i := Exited])
    case Flush(k) => s.(watermark := k + 1)
    case Restart(created) =>
      s.(base := s.watermark, next := s.watermark, fetcher := Fetching, queue := [],
         workers := seq(|s.workers|, _ => Idle), ids := created, pool := created,
         returned := [], failed := {}, issued := {}, emitted := [],
         crashes := if s.fetcher.Returned? then s.crashes else s.crashes + 1)
  }

  // The state a finite run reaches, if every event of it was possible when it happened.
  ghost function After(s: State, es: seq<Event>): Option<State> {
    if es == [] then Some(s) else
    var t := After(s, es[..|es| - 1]);
    if t.Some? && Enabled(t.value, es[|es| - 1]) then Some(Next(t.value, es[|es| - 1])) else None
  }

  // s is reachable by some run of a judge whose first process created the containers ids.
  ghost predicate Reaches(ids: seq<string>, es: seq<Event>, s: State) {
    ids != [] && Distinct(ids) && After(Init(ids), es) == Some(s)
  }
}
