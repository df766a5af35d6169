/** The loops and calls around the pipeline, with their own variables: submission creation,
    the result consumer and its goroutines. */
module Services {
  import opened Topics
  import H = History
  import S = HistoryStore
  import opened Pipeline
  import opened PipelineInvariants

  // The submission service, with the table and the topic it writes.
  class SubmissionService {
    var table: seq<H.Row>
    var topic: seq<Message>

    // Every record names a row.
    ghost predicate Valid() reads this {
      && H.UniqueIds(table) && H.Ordered(table)
      && forall off :: 0 <= off < |topic| && topic[off].Submission? ==> HasRow(table, topic[off].event)
    }

    constructor ()
      ensures Valid() && table == [] && topic == []
    {
      table, topic := [], [];
    }

    // The producer's outcome is any number of copies of the record on the topic, and an error
    // or not; without an error there is at least one.
    method CreateSubmission(uuid: string, user: string, problem: string, code: string, language: string, now: nat,
                            inserted: bool, copies: nat, published: bool) returns (created: Option<H.Row>)
      requires Valid() && !H.Exists(table, uuid) && (published ==> 0 < copies)
      requires forall i :: 0 <= i < |table| ==> table[i].created < now
      modifies this
      ensures Valid()
      ensures var r := H.Row(uuid, user, problem, code, language, PENDING, now, now);
        && table == (if inserted then old(table) + [r] else old(table))
        && |topic| == |old(topic)| + (if inserted then copies else 0) && old(topic) <= topic
        && (forall off :: |old(topic)| <= off < |topic| ==>
              topic[off] == Submission(SubmissionEvent(uuid, problem, code, language)))
        && created == (if inserted && published then Some(r) else None)
    {
      if !inserted { return None; }
      var r := H.Row(uuid, user, problem, code, language, PENDING, now, now);
      KeptFacts(table, table + [r], (_, _) => false);
      table := table + [r];
      assert EventOf(table[|table| - 1]) == EventOf(r);
      for i := 0 to copies
        invariant Valid() && table == old(table) + [r]
        invariant topic == old(topic) + seq(i, _ => Submission(EventOf(r)))
      {
        topic := topic + [Submission(EventOf(r))];
      }
      created := if published then Some(r) else None;
    }
  }

  // The offset after the last record in [lo, hi) whose commit succeeds, or what it was before.
  function LastCommit(commits: set<nat>, lo: nat, hi: nat, before: nat): (offset: nat)
    ensures offset == before || (lo < offset <= hi && offset - 1 in commits)
    ensures forall p: nat :: lo <= p < hi && p in commits ==> p < offset <= hi && offset - 1 in commits
  {
    if hi <= lo then before else if hi - 1 in commits then hi else LastCommit(commits, lo, hi - 1, before)
  }

  // What FetchMessage answers to the consumer.
  datatype Fetched = Delivered | FetchError | Cancelled

  // How many of the first k replies are messages.
  function Deliveries(replies: seq<Fetched>, k: nat): nat
    requires k <= |replies|
  {
    if k == 0 then 0 else Deliveries(replies, k - 1) + (if replies[k - 1].Delivered? then 1 else 0)
  }

  // Each decodable result in [lo, hi) once.
  ghost predicate OnceEach(running: multiset<nat>, results: seq<Option<ResultEvent>>, lo: nat, hi: nat) {
    hi <= |results| && forall p: nat :: running[p] == if lo <= p < hi && results[p].Some? then 1 else 0
  }

  lemma OnceMore(running: multiset<nat>, results: seq<Option<ResultEvent>>, lo: nat, hi: nat)
    requires OnceEach(running, results, lo, hi) && lo <= hi < |results|
    ensures OnceEach(running + (if results[hi].Some? then multiset{hi} else multiset{}), results, lo, hi + 1)
  {}

  // The result service: its store, its consumer's position and offset, and the goroutines it
  // has started.  A record of the results topic may fail to decode (None).
  class ResultService {
    const results: seq<Option<ResultEvent>>
    const store: S.Store
    var position: nat
    var committed: nat
    var running: multiset<nat>
    ghost var ended: set<nat>

    // Every decodable result before the position has its goroutine running or ended.
    ghost predicate Tracked() reads this {
      && committed <= position <= |results|
      && (forall p :: p in running ==> p < position && results[p].Some?)
      && (forall p :: 0 <= p < position && results[p].Some? ==> p in running || p in ended)
    }

    ghost predicate Valid() reads this, store {
      store.Consistent() && Tracked()
    }

    constructor (results: seq<Option<ResultEvent>>, store: S.Store)
      requires store.Consistent()
      ensures Valid() && this.results == results && this.store == store
      ensures position == 0 && running == multiset{} && ended == {}
    {
      this.results, this.store := results, store;
      position, committed, running, ended := 0, 0, multiset{}, {};
    }

    // One record: start its goroutine if it decodes, then commit it.
    method Consume(commitSucceeds: bool)
      requires Tracked() && position < |results|
      modifies this`position, this`committed, this`running
      ensures Tracked() && position == old(position) + 1
      ensures running == old(running) + (if results[old(position)].Some? then multiset{old(position)} else multiset{})
      ensures committed == if commitSucceeds then position else old(committed)
    {
      if results[position].Some? { running := running + multiset{position}; }
      position := position + 1;
      if commitSucceeds { committed := position; }
    }

    // The consumer's loop: exactly one goroutine for each decodable result it passes, and the
    // offset of the last commit that succeeded.  replies is what the successive fetches answer;
    // commits are the positions whose commit succeeds.
    // It stops at the first cancellation, and at no other error.
    method Start(replies: seq<Fetched>, commits: set<nat>) returns (ghost stop: nat)
      requires Valid() && running == multiset{}
      modifies this`position, this`committed, this`running
      ensures Valid() && stop <= |replies| && (stop < |replies| ==> replies[stop].Cancelled?)
      ensures forall k :: 0 <= k < stop ==> !replies[k].Cancelled?
      ensures position == Reached(old(position) + Deliveries(replies, stop))
      ensures forall p: nat :: running[p] == if old(position) <= p < position && results[p].Some? then 1 else 0
      ensures committed == LastCommit(commits, old(position), position, old(committed))
    {
      stop := |replies|;
      for i := 0 to |replies|
        invariant Tracked() && position >= old(position)
        invariant forall k :: 0 <= k < i ==> !replies[k].Cancelled?
        invariant position == Reached(old(position) + Deliveries(replies, i))
        invariant OnceEach(running, results, old(position), position)
        invariant committed == LastCommit(commits, old(position), position, old(committed))
      {
        match replies[i]
        case Cancelled => stop := i; return;
        case FetchError => continue;
        case Delivered =>
          if position < |results| {
            OnceMore(running, results, old(position), position);
            Consume(position in commits);
          }
      }
    }

    // There are no messages past the end of the topic.
    function Reached(end: nat): nat {
      if end <= |results| then end else |results|
    }

    // The goroutine of result p, whenever it is scheduled: the update and its Del.
    method RunUpdate(p: nat, now: nat, dbFails: bool, delSucceeds: bool) returns (ok: bool)
      requires Valid() && p in running
      modifies this`running, this`ended, store
      ensures Valid()
      ensures running == old(running) - multiset{p} && ended == old(ended) + {p}
      ensures ok <==> !dbFails && old(H.Exists(store.table, results[p].value.id))
      ensures Kept(old(store.table), store.table)
      ensures !ok ==> store.table == old(store.table)
      ensures ok ==> store.table == H.SetStatus(old(store.table), results[p].value.id, results[p].value.status, now)
      ensures !ok || !delSucceeds ==> store.cache == old(store.cache)
      ensures ok && delSucceeds ==>
        store.cache == old(store.cache) - {old(store.table)[H.Index(old(store.table), results[p].value.id)].user}
      ensures old(store.Valid()) && delSucceeds ==> store.Valid()
    {
      running, ended := running - multiset{p}, ended + {p};
      StatusKeeps(store.table, results[p].value.id, results[p].value.status, now);
      ok := store.UpdateSubmissionStatus(results[p].value.id, results[p].value.status, now, dbFails, delSucceeds);
    }
  }
}
