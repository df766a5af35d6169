/** The bound on the submissions that stay "Pending" is the best possible too: the judge's
    runs that lose most, inside the pipeline, followed by a crash of the result service that
    loses every update. */
module PipelineTightness {
  import opened Topics
  import H = History
  import D = Dispatcher
  import DI = DispatcherInvariants
  import DispatcherTheorems
  import DT = DispatcherTightness
  import opened Pipeline
  import opened PipelineInvariants
  import opened PipelineTheorems

  // Judging that may answer anything but "Pending".
  ghost function AnyVerdict(): Judging { (ev, status) => status != PENDING }

  lemma Go(ids: seq<string>, es: seq<Event>, w: World, e: Event) returns (es': seq<Event>, w': World)
    requires Reaches(ids, AnyVerdict(), es, w) && Enabled(w, AnyVerdict(), e)
    ensures w' == Next(w, AnyVerdict(), e) && Reaches(ids, AnyVerdict(), es', w')
  {
    es', w' := es + [e], Next(w, AnyVerdict(), e);
    assert es'[..|es'| - 1] == es;
  }

  // No result has been consumed, and the rows are those of earlier offsets.
  ghost predicate Unconsumed(w: World) {
    && w.consumed == w.committed == 0 && w.updates == multiset{} && w.lost == {}
    && AllPending(w)
    && forall i :: 0 <= i < |w.store.table| ==>
         |w.store.table[i].id| < |w.judge.log| && w.store.table[i].created < |w.judge.log|
  }

  ghost predicate AllPending(w: World) {
    forall i :: 0 <= i < |w.store.table| ==> w.store.table[i].status == PENDING
  }

  // ---- the judge's runs inside the pipeline ----

  // The submission of the next offset is inserted and published.
  lemma Submit(ids: seq<string>, es: seq<Event>, w: World) returns (es': seq<Event>, w': World)
    requires Reaches(ids, AnyVerdict(), es, w) && Unconsumed(w)
    ensures Reaches(ids, AnyVerdict(), es', w') && Unconsumed(w')
    ensures w'.judge == D.Next(w.judge, D.Arrive(DT.Sample(|w.judge.log|)))
  {
    var off := |w.judge.log|;
    var row := H.Row(DT.Name(off), "user", "problem", "code", "go", PENDING, off, off);
    es', w' := Go(ids, es, w, Create(row));
    assert w'.store.table == w.store.table + [row] && w'.store.table[|w.store.table|].id == row.id;
    es', w' := Go(ids, es', w', Publish(row.id));
  }

  lemma LiftStep(ids: seq<string>, es: seq<Event>, w: World, e: D.Event) returns (es': seq<Event>, w': World)
    requires Reaches(ids, AnyVerdict(), es, w) && Unconsumed(w) && D.Enabled(w.judge, e) && DT.Plain(w.judge, e)
    ensures Reaches(ids, AnyVerdict(), es', w') && Unconsumed(w') && w'.judge == D.Next(w.judge, e)
  {
    if !e.Arrive? {
      es', w' := Go(ids, es, w, Judge(e));
    } else if e.m.Malformed? {
      es', w' := Go(ids, es, w, Noise);
    } else {
      es', w' := Submit(ids, es, w);
    }
  }

  lemma {:induction false} Lift(ids: seq<string>, ds: seq<D.Event>, j: D.State) returns (es: seq<Event>, w: World)
    requires ids != [] && Distinct(ids) && DT.Runs(D.Init(ids), ds, j)
    ensures Reaches(ids, AnyVerdict(), es, w) && Unconsumed(w) && w.judge == j
  {
    if ds == [] {
      es, w := [], Start(ids);
    } else {
      var last := |ds| - 1;
      es, w := Lift(ids, ds[..last], D.After(D.Init(ids), ds[..last]).value);
      es, w := LiftStep(ids, es, w, ds[last]);
    }
  }

  // ---- the crash of the result service ----

  // k results are consumed and their goroutines are running.
  ghost predicate Consumed(w: World, w': World, k: nat) {
    && w'.judge == w.judge && w'.store == w.store && w'.lost == w.lost && w'.committed == w.committed
    && w'.consumed == k && Each(w'.updates, k)
  }

  // Each position below k once.
  ghost predicate Each(updates: multiset<nat>, k: nat) {
    forall p: nat :: updates[p] == if p < k then 1 else 0
  }

  lemma {:induction false} ConsumeMany(ids: seq<string>, es: seq<Event>, w: World, k: nat)
    returns (es': seq<Event>, w': World)
    requires Reaches(ids, AnyVerdict(), es, w) && Unconsumed(w) && k <= |w.judge.results|
    ensures Reaches(ids, AnyVerdict(), es', w') && Consumed(w, w', k)
  {
    if k == 0 {
      es', w' := es, w;
    } else {
      ghost var v;
      es', v := ConsumeMany(ids, es, w, k - 1);
      es', w' := Go(ids, es', v, Consume);
      assert Each(v.updates + multiset{v.consumed}, k);
    }
  }

  // The results are consumed and committed, and the service crashes before any update.
  lemma LoseAll(ids: seq<string>, es: seq<Event>, w: World) returns (es': seq<Event>, w': World)
    requires Reaches(ids, AnyVerdict(), es, w) && Unconsumed(w)
    ensures Reaches(ids, AnyVerdict(), es', w') && w'.judge == w.judge && AllPending(w')
    ensures w'.consumed == |w.judge.results| && w'.updates == multiset{} && |w'.lost| == |w.judge.results|
  {
    ghost var v;
    es', v := ConsumeMany(ids, es, w, |w.judge.results|);
    es', v := Go(ids, es', v, CommitResults);
    LostPositions(v.updates, |w.judge.results|);
    es', w' := Go(ids, es', v, ResultCrash);
    assert w'.lost == set p | p in v.updates && p < v.committed;
  }

  lemma LostPositions(updates: multiset<nat>, k: nat)
    requires Each(updates, k)
    ensures |set p | p in updates && p < k| == k
  {
    forall p: nat ensures p in updates <==> p < k { assert updates[p] == if p < k then 1 else 0; }
    assert (set p | p in updates && p < k) == DispatcherTheorems.Range(0, k);
  }

  // ---- counting ----

  lemma {:induction false} NamesCount(offs: set<nat>, names: set<string>)
    requires forall off :: off in offs ==> DT.Name(off) in names
    ensures |offs| <= |names|
  {
    if offs != {} {
      var off :| off in offs;
      forall x | x in offs - {off} ensures DT.Name(x) in names - {DT.Name(off)} {
        assert |DT.Name(x)| != |DT.Name(off)|;
      }
      NamesCount(offs - {off}, names - {DT.Name(off)});
    }
  }

  lemma StuckAtLeast(w: World, l: nat)
    requires AllPending(w) && DT.Answers(w.judge, l) && w.judge.watermark == |w.judge.log|
    ensures |DI.Unhandled(w.judge, w.judge.watermark)| + l <= |Stuck(w)|
  {
    var unhandled, answered := DI.Unhandled(w.judge, w.judge.watermark), DispatcherTheorems.Range(0, l);
    forall off: nat | off in unhandled + answered ensures DT.Name(off) in Stuck(w) { IsStuck(w, off); }
    NamesCount(unhandled + answered, Stuck(w));
    assert unhandled * answered == {};
  }

  lemma IsStuck(w: World, off: nat)
    requires AllPending(w) && off < w.judge.watermark && off < |w.judge.log| && w.judge.log[off] == DT.Sample(off)
    ensures DT.Name(off) in Stuck(w)
  {
    assert !Settled(w.store.table, w.judge.log[off].event.id);
  }

  // For every number of workers, crashes, failed calls, lost updates, and messages in hand, a
  // run that leaves exactly so many submissions "Pending" once the results are consumed.
  lemma StuckAttained(ids: seq<string>, c: nat, f: nat, k: nat, l: nat) returns (es: seq<Event>, w: World)
    requires ids != [] && Distinct(ids) && k < |ids|
    ensures Reaches(ids, AnyVerdict(), es, w) && w.consumed == |w.judge.results| && w.updates == multiset{}
    ensures w.judge.crashes == c && w.judge.failures == f && |w.lost| == l
    ensures |InHandIds(w)| == k && |Stuck(w) - InHandIds(w)| == c * (|ids| - 1) + f + l
  {
    var ds, j := DT.Losing(ids, c, f, k, l);
    es, w := Lift(ids, ds, j);
    es, w := LoseAll(ids, es, w);
    StuckBound(ids, AnyVerdict(), es, w);
    StuckAtLeast(w, l);
    DI.DroppedOrInFlight(j);
    SubsetCardinality(Stuck(w), (Stuck(w) - InHandIds(w)) + InHandIds(w));
    DI.UnionCardinality(Stuck(w) - InHandIds(w), InHandIds(w));
  }

  // In particular a crash of the result service alone leaves submissions "Pending", with no
  // crash or failure of the judge and nothing in its hands.
  lemma LostUpdatesStick(ids: seq<string>, l: nat) returns (es: seq<Event>, w: World)
    requires ids != [] && Distinct(ids)
    ensures Reaches(ids, AnyVerdict(), es, w) && w.consumed == |w.judge.results| && w.updates == multiset{}
    ensures w.judge.crashes == 0 && w.judge.failures == 0 && |w.lost| == |Stuck(w)| == l
  {
    es, w := StuckAttained(ids, 0, 0, 0, l);
    assert InHandIds(w) == {} && Stuck(w) - InHandIds(w) == Stuck(w);
  }
}
