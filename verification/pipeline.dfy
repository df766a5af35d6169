/** The whole path of a submission: insert, submissions topic, judge service, results topic,
    one goroutine per result, database update, cache.  The store is the History machine and
    the judge service is the Dispatcher machine. */
module Pipeline {
  import opened Topics
  import H = History
  import D = Dispatcher

  datatype World = World(
    store: H.State,
    judge: D.State,
    creating: set<string>,     // inserted, publishing has not returned yet
    consumed: nat,             // the next result the consumer fetches
    committed: nat,            // the consumer's offset at the broker
    updates: multiset<nat>,    // running goroutines, by position of their result
    lost: set<nat>)            // committed results whose goroutine ended without an update

  datatype Event =
    | Create(row: H.Row)       // the insert of CreateSubmission
    | Publish(id: string)      // its record reaches the topic (again, if the producer retries)
    | Finish(id: string)       // the call returns, with or without an error
    | Noise                    // a record that does not decode
    | Judge(step: D.Event)
    | Consume                  // fetch a result and start its goroutine
    | CommitResults
    | Apply(p: nat, now: nat)  // the UPDATE of the goroutine of result p
    | ApplyFails(p: nat)
    | CacheOp(op: H.Event)    // Del, a history request, expiry
    | ResultCrash              // the result service restarts from its committed offset

  // Which statuses judging a submission can produce.
  type Judging = (SubmissionEvent, string) -> bool

  function EventOf(r: H.Row): SubmissionEvent { SubmissionEvent(r.id, r.problem, r.code, r.language) }

  function Start(ids: seq<string>): World {
    World(H.EMPTY, D.Init(ids), {}, 0, 0, multiset{}, {})
  }

  predicate CacheStep(e: H.Event) { !e.Insert? && !e.Update? && !e.Crash? }

  ghost predicate Enabled(w: World, judged: Judging, e: Event) {
    match e
    case Create(row) => H.Enabled(w.store, H.Insert(row))
    case Publish(id) => id in w.creating && H.Exists(w.store.table, id)
    case Finish(id) => id in w.creating
    case Noise => true
    case Judge(step) =>
      && !step.Arrive? && D.Enabled(w.judge, step)
      && (step.Write? ==> judged(D.MessageAt(w.judge, w.judge.workers[step.i].off).event, step.status))
    case Consume => w.consumed < |w.judge.results|
    case CommitResults => true
    case Apply(p, now) => p in w.updates && p < |w.judge.results| && H.Exists(w.store.table, w.judge.results[p].id)
    case ApplyFails(p) => p in w.updates
    case CacheOp(step) => CacheStep(step) && H.Enabled(w.store, step)
    case ResultCrash => true
  }

  ghost function Next(w: World, judged: Judging, e: Event): World
    requires Enabled(w, judged, e)
  {
    match e
    case Create(row) => w.(store := H.Next(w.store, H.Insert(row)), creating := w.creating + {row.id})
    case Publish(id) =>
      w.(judge := D.Next(w.judge, D.Arrive(Submission(EventOf(w.store.table[H.Index(w.store.table, id)])))))
    case Finish(id) => w.(creating := w.creating - {id})
    case Noise => w.(judge := D.Next(w.judge, D.Arrive(Malformed)))
    case Judge(step) => w.(judge := D.Next(w.judge, step))
    case Consume => w.(updates := w.updates + multiset{w.consumed}, consumed := w.consumed + 1)
    case CommitResults => w.(committed := w.consumed)
    case Apply(p, now) =>
      w.(store := H.Next(w.store, H.Update(w.judge.results[p].id, w.judge.results[p].status, now)),
         updates := w.updates - multiset{p})
    case ApplyFails(p) => w.(updates := w.updates - multiset{p}, lost := w.lost + {p})
    case CacheOp(step) => w.(store := H.Next(w.store, step))
    case ResultCrash =>
      w.(store := H.Next(w.store, H.Crash), updates := multiset{}, consumed := w.committed,
         lost := w.lost + set p | p in w.updates && p < w.committed)
  }

  ghost function After(ids: seq<string>, judged: Judging, es: seq<Event>): Option<World> {
    if es == [] then Some(Start(ids)) else
    var t := After(ids, judged, es[..|es| - 1]);
    if t.Some? && Enabled(t.value, judged, es[|es| - 1]) then Some(Next(t.value, judged, es[|es| - 1])) else None
  }

  // w is reachable when judging never answers "Pending".
  ghost predicate Reaches(ids: seq<string>, judged: Judging, es: seq<Event>, w: World) {
    && ids != [] && Distinct(ids) && (forall ev :: !judged(ev, PENDING))
    && After(ids, judged, es) == Some(w)
  }
}

/** What every step of the whole pipeline keeps. */
module PipelineInvariants {
  import opened Topics
  import H = History
  import D = Dispatcher
  import DI = DispatcherInvariants
  import opened Pipeline

  ghost predicate HasRow(table: seq<H.Row>, ev: SubmissionEvent) {
    exists i :: 0 <= i < |table| && EventOf(table[i]) == ev
  }

  // Judging the row with this id can give this status.
  ghost predicate Justified(table: seq<H.Row>, judged: Judging, id: string, status: string) {
    exists i :: 0 <= i < |table| && table[i].id == id && judged(EventOf(table[i]), status)
  }

  ghost predicate Settled(table: seq<H.Row>, id: string) {
    exists i :: 0 <= i < |table| && table[i].id == id && table[i].status != PENDING
  }

  ghost predicate RowsOk(table: seq<H.Row>, judged: Judging) {
    forall i :: 0 <= i < |table| ==> table[i].status == PENDING || judged(EventOf(table[i]), table[i].status)
  }

  // Insert comes before publish, so every record names an existing row.
  ghost predicate Published(w: World) {
    && (forall off :: 0 <= off < |w.judge.log| && w.judge.log[off].Submission? ==>
          HasRow(w.store.table, w.judge.log[off].event))
    && (forall id :: id in w.creating ==> H.Exists(w.store.table, id))
  }

  ghost predicate ResultsJustified(w: World, judged: Judging) {
    forall p :: 0 <= p < |w.judge.results| ==>
      Justified(w.store.table, judged, w.judge.results[p].id, w.judge.results[p].status)
  }

  // Every consumed result is applied, about to be applied, or accounted as lost.
  ghost predicate Accounted(w: World) {
    && w.committed <= w.consumed <= |w.judge.results|
    && (forall p :: p in w.updates ==> p < w.consumed)
    && (forall p :: 0 <= p < w.consumed ==>
          p in w.updates || p in w.lost || Settled(w.store.table, w.judge.results[p].id))
  }

  // A listed item is a row of that user, Pending or with a verdict on that row.
  ghost predicate ItemOk(table: seq<H.Row>, judged: Judging, user: string, x: H.Item) {
    exists i :: 0 <= i < |table| && table[i].id == x.id && table[i].user == user == x.user &&
      (x.status == PENDING || judged(EventOf(table[i]), x.status))
  }

  ghost predicate ListOk(table: seq<H.Row>, judged: Judging, user: string, xs: seq<H.Item>) {
    forall k :: 0 <= k < |xs| ==> ItemOk(table, judged, user, xs[k])
  }

  ghost predicate ListsOk(s: H.State, judged: Judging) {
    && (forall u :: u in s.cache ==> ListOk(s.table, judged, u, s.cache[u].items))
    && (forall f :: f in s.fills && s.fills[f].Loaded? ==>
          ListOk(s.table, judged, s.fills[f].user, s.fills[f].snap.items))
  }

  ghost predicate Inv(w: World, judged: Judging) {
    H.Inv(w.store) && DI.Inv(w.judge) && RowsOk(w.store.table, judged) && Published(w) && ResultsJustified(w, judged) &&
    Accounted(w) && ListsOk(w.store, judged)
  }

  // Rows are only added, and only their status and updated_at ever change.
  ghost predicate Kept(t: seq<H.Row>, u: seq<H.Row>) {
    |t| <= |u| && forall i :: 0 <= i < |t| ==> u[i] == t[i].(status := u[i].status, updated := u[i].updated)
  }

  // ... and a status that is not "Pending" stays so.
  ghost predicate Onward(t: seq<H.Row>, u: seq<H.Row>) {
    |t| <= |u| && forall i :: 0 <= i < |t| ==> t[i].status != PENDING ==> u[i].status != PENDING
  }

  lemma StatusKeeps(t: seq<H.Row>, id: string, status: string, now: nat)
    ensures Kept(t, t) && Kept(t, H.SetStatus(t, id, status, now))
  {}

  lemma UpdateKeeps(t: seq<H.Row>, judged: Judging, id: string, status: string, now: nat)
    requires RowsOk(t, judged) && H.UniqueIds(t) && Justified(t, judged, id, status) && status != PENDING
    ensures var u := H.SetStatus(t, id, status, now); Kept(t, u) && Onward(t, u) && RowsOk(u, judged)
  {}

  lemma TableStep(w: World, judged: Judging, e: Event)
    requires Enabled(w, judged, e) && RowsOk(w.store.table, judged) && ResultsJustified(w, judged)
      && H.UniqueIds(w.store.table)
    requires forall ev :: !judged(ev, PENDING)
    ensures var t, u := w.store.table, Next(w, judged, e).store.table;
      Kept(t, u) && Onward(t, u) && RowsOk(u, judged)
  {
    if e.Apply? {
      var r := w.judge.results[e.p];
      UpdateKeeps(w.store.table, judged, r.id, r.status, e.now);
    } else if e.Create? {
      assert Next(w, judged, e).store.table == w.store.table + [e.row];
    } else {
      assert Next(w, judged, e).store.table == w.store.table;
    }
  }

  lemma KeptFacts(t: seq<H.Row>, u: seq<H.Row>, judged: Judging)
    requires Kept(t, u)
    ensures forall ev :: HasRow(t, ev) ==> HasRow(u, ev)
    ensures forall id :: H.Exists(t, id) ==> H.Exists(u, id)
    ensures forall id, status :: Justified(t, judged, id, status) ==> Justified(u, judged, id, status)
    ensures forall user, xs :: ListOk(t, judged, user, xs) ==> ListOk(u, judged, user, xs)
    ensures Onward(t, u) ==> forall id :: Settled(t, id) ==> Settled(u, id)
  {
    forall ev | HasRow(t, ev) ensures HasRow(u, ev) {
      var i :| 0 <= i < |t| && EventOf(t[i]) == ev;
      assert EventOf(u[i]) == ev;
    }
    forall id | H.Exists(t, id) ensures H.Exists(u, id) {
      var i :| 0 <= i < |t| && t[i].id == id;
      assert u[i].id == id;
    }
    forall id, status | Justified(t, judged, id, status) ensures Justified(u, judged, id, status) {
      var i :| 0 <= i < |t| && t[i].id == id && judged(EventOf(t[i]), status);
      assert u[i].id == id && judged(EventOf(u[i]), status);
    }
    forall user, xs: seq<H.Item> | ListOk(t, judged, user, xs) ensures ListOk(u, judged, user, xs) {
      forall k | 0 <= k < |xs| ensures ItemOk(u, judged, user, xs[k]) {
        assert ItemOk(t, judged, user, xs[k]);
        var i :| 0 <= i < |t| && t[i].id == xs[k].id && t[i].user == user == xs[k].user &&
          (xs[k].status == PENDING || judged(EventOf(t[i]), xs[k].status));
        assert u[i].id == xs[k].id && EventOf(u[i]) == EventOf(t[i]);
      }
    }
    if Onward(t, u) {
      forall id | Settled(t, id) ensures Settled(u, id) {
        var i :| 0 <= i < |t| && t[i].id == id && t[i].status != PENDING;
        assert u[i].id == id && u[i].status != PENDING;
      }
    }
  }

  lemma PublishedStep(w: World, judged: Judging, e: Event)
    requires Enabled(w, judged, e) && Published(w) && Kept(w.store.table, Next(w, judged, e).store.table)
    ensures Published(Next(w, judged, e))
  {
    var w' := Next(w, judged, e);
    KeptFacts(w.store.table, w'.store.table, judged);
    match e
    case Create(row) => assert w'.store.table[|w.store.table|].id == row.id;
    case Publish(id) => assert HasRow(w'.store.table, EventOf(w.store.table[H.Index(w.store.table, id)]));
    case _ =>
  }

  lemma ResultsStep(w: World, judged: Judging, e: Event)
    requires Enabled(w, judged, e) && Published(w) && ResultsJustified(w, judged)
      && Kept(w.store.table, Next(w, judged, e).store.table)
    ensures ResultsJustified(Next(w, judged, e), judged)
    ensures w.judge.results <= Next(w, judged, e).judge.results
  {
    var w' := Next(w, judged, e);
    KeptFacts(w.store.table, w'.store.table, judged);
    if e.Judge? && e.step.Write? && e.step.landed {
      var off := w.judge.workers[e.step.i].off;
      assert HasRow(w.store.table, w.judge.log[off].event);
      var i :| 0 <= i < |w.store.table| && EventOf(w.store.table[i]) == w.judge.log[off].event;
      assert Justified(w.store.table, judged, w.judge.log[off].event.id, e.step.status);
    }
  }

  lemma AccountedStep(w: World, judged: Judging, e: Event)
    requires Enabled(w, judged, e) && Accounted(w) && ResultsJustified(w, judged) && forall ev :: !judged(ev, PENDING)
    requires var t, u := w.store.table, Next(w, judged, e).store.table; Kept(t, u) && Onward(t, u)
    requires w.judge.results <= Next(w, judged, e).judge.results
    ensures Accounted(Next(w, judged, e))
  {
    var w' := Next(w, judged, e);
    KeptFacts(w.store.table, w'.store.table, judged);
    forall p | 0 <= p < w'.consumed
      ensures p in w'.updates || p in w'.lost || Settled(w'.store.table, w'.judge.results[p].id) {
      if e.Apply? && p == e.p {
        var i := H.Index(w.store.table, w.judge.results[p].id);
        assert Justified(w.store.table, judged, w.judge.results[p].id, w.judge.results[p].status);
        assert w'.store.table[i].id == w.judge.results[p].id && w'.store.table[i].status != PENDING;
      }
    }
  }

  lemma {:induction false} TruthOk(table: seq<H.Row>, whole: seq<H.Row>, judged: Judging, user: string)
    requires RowsOk(whole, judged) && table <= whole
    ensures ListOk(whole, judged, user, H.Truth(table, user))
  {
    if table != [] {
      var last := |table| - 1;
      TruthOk(table[..last], whole, judged, user);
      if table[last].user == user {
        assert whole[last] == table[last];
        assert ItemOk(whole, judged, user, H.Show(table[last]));
      }
    }
  }

  lemma ListsKept(s: H.State, judged: Judging, e: H.Event)
    requires H.Enabled(s, e) && ListsOk(s, judged) && RowsOk(s.table, judged) && Kept(s.table, H.Next(s, e).table)
    ensures ListsOk(H.Next(s, e), judged)
  {
    KeptFacts(s.table, H.Next(s, e).table, judged);
    if e.Query? { TruthOk(s.table, s.table, judged, s.fills[e.f].user); }
  }

  lemma ListsStep(w: World, judged: Judging, e: Event)
    requires Enabled(w, judged, e) && ListsOk(w.store, judged) && RowsOk(w.store.table, judged)
    requires Kept(w.store.table, Next(w, judged, e).store.table)
    ensures ListsOk(Next(w, judged, e).store, judged)
  {
    match e
    case Create(row) => ListsKept(w.store, judged, H.Insert(row));
    case Apply(p, now) => ListsKept(w.store, judged, H.Update(w.judge.results[p].id, w.judge.results[p].status, now));
    case CacheOp(op) => ListsKept(w.store, judged, op);
    case ResultCrash => ListsKept(w.store, judged, H.Crash);
    case _ =>
  }

  lemma StoreStep(w: World, judged: Judging, e: Event)
    requires Enabled(w, judged, e) && H.Inv(w.store)
    ensures H.Inv(Next(w, judged, e).store)
  {
    match e
    case Create(row) => H.InvStep(w.store, H.Insert(row));
    case Apply(p, now) => H.InvStep(w.store, H.Update(w.judge.results[p].id, w.judge.results[p].status, now));
    case CacheOp(step) => H.InvStep(w.store, step);
    case ResultCrash => H.InvStep(w.store, H.Crash);
    case _ =>
  }

  lemma JudgeStep(w: World, judged: Judging, e: Event)
    requires Enabled(w, judged, e) && DI.Inv(w.judge)
    ensures DI.Inv(Next(w, judged, e).judge)
    ensures |Next(w, judged, e).judge.workers| == |w.judge.workers|
  {
    match e
    case Publish(id) => DI.InvStep(w.judge, D.Arrive(Submission(EventOf(w.store.table[H.Index(w.store.table, id)]))));
    case Noise => DI.InvStep(w.judge, D.Arrive(Malformed));
    case Judge(step) => DI.InvStep(w.judge, step);
    case _ =>
  }

  lemma InvStep(w: World, judged: Judging, e: Event)
    requires Inv(w, judged) && Enabled(w, judged, e) && forall ev :: !judged(ev, PENDING)
    ensures Inv(Next(w, judged, e), judged)
    ensures |Next(w, judged, e).judge.workers| == |w.judge.workers|
  {
    StoreStep(w, judged, e);
    JudgeStep(w, judged, e);
    TableStep(w, judged, e);
    PublishedStep(w, judged, e);
    ResultsStep(w, judged, e);
    AccountedStep(w, judged, e);
    ListsStep(w, judged, e);
  }

  lemma {:induction false} InvRun(ids: seq<string>, judged: Judging, es: seq<Event>, w: World)
    requires Reaches(ids, judged, es, w)
    ensures Inv(w, judged) && |w.judge.workers| == |ids|
  {
    if es == [] {
      DI.InvInit(ids);
    } else {
      var before := After(ids, judged, es[..|es| - 1]).value;
      InvRun(ids, judged, es[..|es| - 1], before);
      InvStep(before, judged, es[|es| - 1]);
    }
  }
}

/** End to end. */
module PipelineTheorems {
  import opened Topics
  import H = History
  import D = Dispatcher
  import DI = DispatcherInvariants
  import opened Pipeline
  import opened PipelineInvariants
  import VL = VerdictLab

  // The judge service inside the pipeline runs as it does alone, and so does the store with
  // its cache: what is proved of every run of either holds here.
  lemma {:induction false} Components(ids: seq<string>, judged: Judging, es: seq<Event>, w: World)
    returns (ds: seq<D.Event>, hs: seq<H.Event>)
    requires Reaches(ids, judged, es, w)
    ensures D.Reaches(ids, ds, w.judge) && H.After(hs) == Some(w.store)
  {
    if es == [] {
      ds, hs := [], [];
    } else {
      var e := es[|es| - 1];
      var before := After(ids, judged, es[..|es| - 1]).value;
      ds, hs := Components(ids, judged, es[..|es| - 1], before);
      var d, h := JudgePart(before, judged, e), StorePart(before, judged, e);
      assert (ds + d)[..|ds + d| - |d|] == ds && (hs + h)[..|hs + h| - |h|] == hs;
      if d == [] { assert ds + d == ds; }
      if h == [] { assert hs + h == hs; }
      ds, hs := ds + d, hs + h;
    }
  }

  ghost function JudgePart(w: World, judged: Judging, e: Event): (ds: seq<D.Event>)
    requires Enabled(w, judged, e)
    ensures |ds| <= 1
    ensures if ds == [] then Next(w, judged, e).judge == w.judge
            else D.Enabled(w.judge, ds[0]) && Next(w, judged, e).judge == D.Next(w.judge, ds[0])
  {
    match e
    case Publish(id) => [D.Arrive(Submission(EventOf(w.store.table[H.Index(w.store.table, id)])))]
    case Noise => [D.Arrive(Malformed)]
    case Judge(step) => [step]
    case _ => []
  }

  ghost function StorePart(w: World, judged: Judging, e: Event): (hs: seq<H.Event>)
    requires Enabled(w, judged, e)
    ensures |hs| <= 1
    ensures if hs == [] then Next(w, judged, e).store == w.store
            else H.Enabled(w.store, hs[0]) && Next(w, judged, e).store == H.Next(w.store, hs[0])
  {
    match e
    case Create(row) => [H.Insert(row)]
    case Apply(p, now) => [H.Update(w.judge.results[p].id, w.judge.results[p].status, now)]
    case CacheOp(op) => [op]
    case ResultCrash => [H.Crash]
    case _ => []
  }

  // Whatever is redelivered, duplicated, reordered or lost, each row is "Pending" or has a status
  // that judging its own problem, code and language can give, and so has every row of every list
  // cached or about to be.
  lemma StatusSafety(ids: seq<string>, judged: Judging, es: seq<Event>, w: World)
    requires Reaches(ids, judged, es, w)
    ensures forall i :: 0 <= i < |w.store.table| ==> var r := w.store.table[i];
      r.status == "Pending" || judged(SubmissionEvent(r.id, r.problem, r.code, r.language), r.status)
    ensures forall u, k :: u in w.store.cache && 0 <= k < |w.store.cache[u].items| ==>
      CanShow(w.store.table, judged, u, w.store.cache[u].items[k])
    ensures forall f, k :: f in w.store.fills && w.store.fills[f].Loaded? && 0 <= k < |w.store.fills[f].snap.items| ==>
      CanShow(w.store.table, judged, w.store.fills[f].user, w.store.fills[f].snap.items[k])
  {
    InvRun(ids, judged, es, w);
    forall user, x | ItemOk(w.store.table, judged, user, x) ensures CanShow(w.store.table, judged, user, x) {
      var i :| 0 <= i < |w.store.table| && w.store.table[i].id == x.id && w.store.table[i].user == user == x.user &&
        (x.status == PENDING || judged(EventOf(w.store.table[i]), x.status));
      assert w.store.table[i].id == x.id;
    }
  }

  // The user's history may show x: it is a row of that user, "Pending" or with a status that
  // judging the row can give.
  ghost predicate CanShow(table: seq<H.Row>, judged: Judging, user: string, x: H.Item) {
    exists i :: 0 <= i < |table| && table[i].id == x.id && table[i].user == user == x.user &&
      (x.status == "Pending" ||
       judged(SubmissionEvent(table[i].id, table[i].problem, table[i].code, table[i].language), x.status))
  }

  // One step: rows stay, only status and updated_at change, and never back to "Pending"; if
  // judging is deterministic a verdict never changes again.
  lemma StatusIsFinal(ids: seq<string>, judged: Judging, es: seq<Event>, w: World, e: Event)
    requires Reaches(ids, judged, es, w) && Enabled(w, judged, e)
    ensures var t, u := w.store.table, Next(w, judged, e).store.table;
      && Kept(t, u) && Onward(t, u)
      && ((forall ev, a, b :: judged(ev, a) && judged(ev, b) ==> a == b) ==>
            forall i :: 0 <= i < |t| && t[i].status != PENDING ==> u[i].status == t[i].status)
  {
    InvRun(ids, judged, es, w);
    TableStep(w, judged, e);
  }

  // With a fixed test list and programs that always answer alike, the status is the verdict.
  lemma StatusIsTheVerdict(ids: seq<string>, lab: VL.Lab, es: seq<Event>, w: World, i: nat)
    requires ids != [] && Distinct(ids) && i < |w.store.table|
    requires After(ids, (ev, status) => status == VL.VerdictOf(lab, ev), es) == Some(w)
    ensures var r := w.store.table[i];
      r.status == "Pending" || r.status == VL.VerdictOf(lab, SubmissionEvent(r.id, r.problem, r.code, r.language))
  {
    var judged := (ev, status) => status == VL.VerdictOf(lab, ev);
    forall ev ensures !judged(ev, PENDING) { VL.VerdictIsOneOf(lab, ev); }
    StatusSafety(ids, judged, es, w);
  }

  // A row agrees with the event in id, problem, code and language.
  ghost predicate SameSubmission(table: seq<H.Row>, ev: SubmissionEvent) {
    exists i :: 0 <= i < |table| && table[i].id == ev.id && table[i].problem == ev.problem &&
      table[i].code == ev.code && table[i].language == ev.language
  }

  // Every submission on the topic is some row's, field by field, and every result names a row,
  // so no UPDATE misses.
  lemma ReferentialSafety(ids: seq<string>, judged: Judging, es: seq<Event>, w: World)
    requires Reaches(ids, judged, es, w)
    ensures forall off :: 0 <= off < |w.judge.log| && w.judge.log[off].Submission? ==>
        SameSubmission(w.store.table, w.judge.log[off].event)
    ensures forall p :: 0 <= p < |w.judge.results| ==> H.Exists(w.store.table, w.judge.results[p].id)
    ensures forall p, now :: p in w.updates ==> Enabled(w, judged, Apply(p, now))
  {
    InvRun(ids, judged, es, w);
    forall off | 0 <= off < |w.judge.log| && w.judge.log[off].Submission?
      ensures SameSubmission(w.store.table, w.judge.log[off].event)
    {
      var i :| 0 <= i < |w.store.table| && EventOf(w.store.table[i]) == w.judge.log[off].event;
      assert w.store.table[i].id == w.judge.log[off].event.id;
    }
    forall p | 0 <= p < |w.judge.results| ensures H.Exists(w.store.table, w.judge.results[p].id) {
      assert Justified(w.store.table, judged, w.judge.results[p].id, w.judge.results[p].status);
    }
  }

  // The event ends the goroutine of result p without an update: the update fails, or the service
  // crashes having committed the result already.
  ghost predicate Loses(w: World, e: Event, p: nat) {
    e == ApplyFails(p) || (e.ResultCrash? && p in w.updates && p < w.committed)
  }

  ghost predicate LosesAt(ids: seq<string>, judged: Judging, es: seq<Event>, m: nat, p: nat) {
    m < |es| && After(ids, judged, es[..m]).Some? && Loses(After(ids, judged, es[..m]).value, es[m], p)
  }

  ghost predicate EverLoses(ids: seq<string>, judged: Judging, es: seq<Event>, p: nat) {
    exists m: nat :: LosesAt(ids, judged, es, m, p)
  }

  lemma LosesAtFront(ids: seq<string>, judged: Judging, es: seq<Event>, m: nat, p: nat)
    requires m < |es| - 1
    ensures LosesAt(ids, judged, es, m, p) <==> LosesAt(ids, judged, es[..|es| - 1], m, p)
  {
    assert es[..|es| - 1][..m] == es[..m];
  }

  lemma EverLosesStep(ids: seq<string>, judged: Judging, es: seq<Event>, p: nat)
    requires es != []
    ensures EverLoses(ids, judged, es, p) <==>
      EverLoses(ids, judged, es[..|es| - 1], p) || LosesAt(ids, judged, es, |es| - 1, p)
  {
    var front := es[..|es| - 1];
    if m: nat :| LosesAt(ids, judged, es, m, p) && m < |es| - 1 { LosesAtFront(ids, judged, es, m, p); }
    if m: nat :| LosesAt(ids, judged, front, m, p) { LosesAtFront(ids, judged, es, m, p); }
  }

  // What counts as a lost update.
  lemma {:induction false} LostIff(ids: seq<string>, judged: Judging, es: seq<Event>, w: World)
    requires Reaches(ids, judged, es, w)
    ensures forall p: nat :: p in w.lost <==> EverLoses(ids, judged, es, p)
  {
    if es != [] {
      var before := After(ids, judged, es[..|es| - 1]).value;
      LostIff(ids, judged, es[..|es| - 1], before);
      forall p: nat ensures p in w.lost <==> EverLoses(ids, judged, es, p) {
        EverLosesStep(ids, judged, es, p);
        LostStep(before, judged, es[|es| - 1], p);
      }
    }
  }

  lemma LostStep(w: World, judged: Judging, e: Event, p: nat)
    requires Enabled(w, judged, e)
    ensures p in Next(w, judged, e).lost <==> p in w.lost || Loses(w, e, p)
  {}

  // The ids of the records below the judge's watermark whose rows are still "Pending".
  ghost function Stuck(w: World): set<string> {
    set off: nat | off < w.judge.watermark && off < |w.judge.log| && w.judge.log[off].Submission? &&
      !Settled(w.store.table, w.judge.log[off].event.id) :: w.judge.log[off].event.id
  }

  function IdAt(log: seq<Message>, off: nat): string {
    if off < |log| && log[off].Submission? then log[off].event.id else ""
  }

  ghost function IdsAt(log: seq<Message>, offs: set<nat>): (ids: set<string>)
    ensures |ids| <= |offs| && forall off :: off in offs ==> IdAt(log, off) in ids
  {
    var f := (off: nat) => IdAt(log, off);
    ImageCardinality(offs, f);
    Image(offs, f)
  }

  function IdOf(results: seq<ResultEvent>, p: nat): string {
    if p < |results| then results[p].id else ""
  }

  ghost function IdsOf(results: seq<ResultEvent>, ps: set<nat>): (ids: set<string>)
    ensures |ids| <= |ps| && forall p :: p in ps ==> IdOf(results, p) in ids
  {
    var f := (p: nat) => IdOf(results, p);
    ImageCardinality(ps, f);
    Image(ps, f)
  }

  // The ids of the submissions below the judge's watermark that a worker is processing.
  ghost function InHandIds(w: World): set<string> {
    IdsAt(w.judge.log, DI.InFlight(w.judge))
  }

  // Once every result is consumed and no goroutine is running, the submissions the judge has
  // committed past but that stay "Pending", other than the n - 1 at most that it still has in
  // hand, are no more than what its crashes and failures can lose plus the updates the result
  // service lost.
  lemma StuckBound(ids: seq<string>, judged: Judging, es: seq<Event>, w: World)
    requires Reaches(ids, judged, es, w) && w.consumed == |w.judge.results| && w.updates == multiset{}
    ensures |Stuck(w) - InHandIds(w)| <= w.judge.crashes * (|ids| - 1) + w.judge.failures + |w.lost|
    ensures |InHandIds(w)| <= |ids| - 1 && (DI.NoneInProcess(w.judge) ==> InHandIds(w) == {})
    ensures |Stuck(w)| <= w.judge.crashes * (|ids| - 1) + w.judge.failures + (|ids| - 1) + |w.lost|
    ensures DI.NoneInProcess(w.judge) ==> |Stuck(w)| <= w.judge.crashes * (|ids| - 1) + w.judge.failures + |w.lost|
  {
    InvRun(ids, judged, es, w);
    DI.DroppedCount(w.judge);
    DI.InFlightCount(w.judge);
    StuckCount(w, judged);
    SubsetCardinality(Stuck(w), (Stuck(w) - InHandIds(w)) + InHandIds(w));
    DI.UnionCardinality(Stuck(w) - InHandIds(w), InHandIds(w));
  }

  // Without crashes, failed calls and lost updates every submission the judge has committed past
  // is being processed or has its verdict; once no worker has anything in hand, all have.
  lemma NothingStuck(ids: seq<string>, judged: Judging, es: seq<Event>, w: World)
    requires Reaches(ids, judged, es, w) && w.consumed == |w.judge.results| && w.updates == multiset{}
    requires w.judge.crashes == 0 && w.judge.failures == 0 && w.lost == {}
    ensures forall off: nat :: off < w.judge.watermark && off < |w.judge.log| && w.judge.log[off].Submission? ==>
              DI.InHand(w.judge.workers, off) || Settled(w.store.table, w.judge.log[off].event.id)
    ensures DI.NoneInProcess(w.judge) ==> Stuck(w) == {}
  {
    InvRun(ids, judged, es, w);
    DI.DroppedCount(w.judge);
    forall off: nat | off < w.judge.watermark && off < |w.judge.log| && w.judge.log[off].Submission?
      ensures DI.InHand(w.judge.workers, off) || Settled(w.store.table, w.judge.log[off].event.id)
    {
      assert DI.Dropped(w.judge) == {} && off !in DI.Dropped(w.judge);
      StuckBecause(w, judged, off);
    }
    StuckBound(ids, judged, es, w);
  }

  lemma StuckCount(w: World, judged: Judging)
    requires Inv(w, judged) && w.consumed == |w.judge.results| && w.updates == multiset{}
    ensures |Stuck(w) - InHandIds(w)| <= |DI.Dropped(w.judge)| + |w.lost|
  {
    var a := IdsAt(w.judge.log, DI.Dropped(w.judge));
    var b := IdsOf(w.judge.results, w.lost);
    forall id | id in Stuck(w) - InHandIds(w) ensures id in a + b {
      var off: nat :| off < w.judge.watermark && off < |w.judge.log| && w.judge.log[off].Submission? &&
        !Settled(w.store.table, w.judge.log[off].event.id) && w.judge.log[off].event.id == id;
      StuckBecause(w, judged, off);
      assert IdAt(w.judge.log, off) == id;
    }
    SubsetCardinality(Stuck(w) - InHandIds(w), a + b);
    DI.UnionCardinality(a, b);
  }

  // A submission below the watermark that has no verdict is nobody's, in hand, or its update is
  // lost.
  lemma StuckBecause(w: World, judged: Judging, off: nat)
    requires Inv(w, judged) && w.consumed == |w.judge.results| && w.updates == multiset{}
    requires off < w.judge.watermark && off < |w.judge.log| && w.judge.log[off].Submission?
    ensures || off in DI.Dropped(w.judge) || off in DI.InFlight(w.judge)
      || w.judge.log[off].event.id in IdsOf(w.judge.results, w.lost)
      || Settled(w.store.table, w.judge.log[off].event.id)
  {
    var id := w.judge.log[off].event.id;
    if off in w.judge.handled && !Settled(w.store.table, id) {
      assert DI.Answered(w.judge, off);
      var p :| 0 <= p < |w.judge.results| && w.judge.results[p].id == id;
      assert p in w.lost && IdOf(w.judge.results, p) == id;
    }
  }

  // ---- the order of the update goroutines ----

  datatype Change = Change(id: string, status: string, now: nat)

  function ApplyAll(table: seq<H.Row>, cs: seq<Change>): (t: seq<H.Row>)
    ensures |t| == |table|
  {
    if cs == [] then table else
    var c := cs[|cs| - 1];
    H.SetStatus(ApplyAll(table, cs[..|cs| - 1]), c.id, c.status, c.now)
  }

  lemma {:induction false} ApplyAllAt(table: seq<H.Row>, cs: seq<Change>, i: nat)
    requires i < |table| && forall j, k :: 0 <= j < k < |cs| && cs[j].id == cs[k].id ==> cs[j].status == cs[k].status
    ensures var r := ApplyAll(table, cs)[i];
      && r == table[i].(status := r.status, updated := r.updated)
      && (forall c :: c in cs && c.id == table[i].id ==> r.status == c.status)
      && ((forall c :: c in cs ==> c.id != table[i].id) ==> r == table[i])
  {
    if cs != [] {
      var last := |cs| - 1;
      ApplyAllAt(table, cs[..last], i);
      forall c | c in cs && c.id == table[i].id ensures ApplyAll(table, cs)[i].status == c.status {
        var k :| 0 <= k < |cs| && cs[k] == c;
        if cs[last].id != table[i].id { assert c in cs[..last]; }
      }
    }
  }

  // If results for the same submission agree, every order of the updates gives the same statuses.
  lemma OrderOfUpdates(table: seq<H.Row>, a: seq<Change>, b: seq<Change>, i: nat)
    requires i < |table| && multiset(a) == multiset(b)
    requires forall c, d :: c in a && d in a && c.id == d.id ==> c.status == d.status
    ensures ApplyAll(table, a)[i].status == ApplyAll(table, b)[i].status
  {
    forall c ensures c in a <==> c in b {
      assert c in a <==> c in multiset(a);
      assert c in b <==> c in multiset(b);
    }
    forall j, k | 0 <= j < k < |a| && a[j].id == a[k].id ensures a[j].status == a[k].status {
      assert a[j] in a && a[k] in a;
    }
    forall j, k | 0 <= j < k < |b| && b[j].id == b[k].id ensures b[j].status == b[k].status {
      assert b[j] in b && b[k] in b;
    }
    ApplyAllAt(table, a, i);
    ApplyAllAt(table, b, i);
    if c :| c in a && c.id == table[i].id {
      assert c in b;
    } else {
      forall c | c in b ensures c.id != table[i].id { assert c in a; }
    }
  }
}
