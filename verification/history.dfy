/** The submissions table and the history cache as a step machine: each database statement
    and each cache command is one atomic step, and steps of different requests interleave. */
module History {
  import opened Topics

  datatype Row = Row(id: string, user: string, problem: string, code: string, language: string,
                     status: string, created: nat, updated: nat)

  // What a history lists of a row.
  datatype Item = Item(id: string, problem: string, user: string, language: string,
                       status: string, created: nat, updated: nat)

  function Show(r: Row): Item {
    Item(r.id, r.problem, r.user, r.language, r.status, r.created, r.updated)
  }

  // The rows of one user, newest first.  The table is kept in insertion order.
  function Truth(table: seq<Row>, user: string): seq<Item> {
    if table == [] then [] else
    var last := table[|table| - 1];
    (if last.user == user then [Show(last)] else []) + Truth(table[..|table| - 1], user)
  }

  // UPDATE submissions SET status, updated_at WHERE id
  function SetStatus(table: seq<Row>, id: string, status: string, now: nat): (t: seq<Row>)
    ensures |t| == |table|
    ensures forall i :: 0 <= i < |t| ==>
        t[i] == if table[i].id == id then table[i].(status := status, updated := now) else table[i]
  {
    if table == [] then [] else
    var last := table[|table| - 1];
    SetStatus(table[..|table| - 1], id, status, now) +
      [if last.id == id then last.(status := status, updated := now) else last]
  }

  ghost predicate UniqueIds(table: seq<Row>) {
    forall i, j :: 0 <= i < j < |table| ==> table[i].id != table[j].id
  }

  // created_at strictly increases with insertion.
  ghost predicate Ordered(table: seq<Row>) {
    forall i, j :: 0 <= i < j < |table| ==> table[i].created < table[j].created
  }

  ghost predicate Exists(table: seq<Row>, id: string) {
    exists i :: 0 <= i < |table| && table[i].id == id
  }

  function Index(table: seq<Row>, id: string): (i: nat)
    requires Exists(table, id)
    ensures i < |table| && table[i].id == id
  {
    if table[|table| - 1].id == id then |table| - 1 else
    assert Exists(table[..|table| - 1], id) by {
      var i :| 0 <= i < |table| && table[i].id == id;
      assert table[..|table| - 1][i].id == id;
    }
    Index(table[..|table| - 1], id)
  }

  // The list a query returned: the rows delivered before the iteration ended, how long the
  // history was, and whether a row it lists has been updated since.
  datatype Snapshot = Snapshot(items: seq<Item>, size: nat, overtaken: bool)

  // A cache miss on its way to the cache.
  datatype Filler = Missed(user: string) | Loaded(user: string, snap: Snapshot)

  datatype State = State(
    table: seq<Row>,
    cache: map<string, Snapshot>,
    fills: map<nat, Filler>,
    pending: multiset<string>)       // users whose update is applied and whose Del is still to come

  datatype Event =
    | Insert(row: Row)
    | Update(id: string, status: string, now: nat)
    | Del(user: string) | DelFails(user: string)
    | Miss(f: nat, user: string)     // no entry, or the cache cannot be read
    | Query(f: nat, delivered: nat)  // the iteration may end early without an error being noticed
    | Fill(f: nat) | Abandon(f: nat) // a request that fails, or whose Set fails, is abandoned
    | Expire(user: string)
    | Crash                          // the result service stops in the middle of everything

  const EMPTY := State([], map[], map[], multiset{})

  ghost predicate Lists(items: seq<Item>, id: string) {
    exists k :: 0 <= k < |items| && items[k].id == id
  }

  ghost function Touch(snap: Snapshot, id: string): Snapshot {
    if Lists(snap.items, id) then snap.(overtaken := true) else snap
  }

  ghost function TouchFiller(f: Filler, id: string): Filler {
    if f.Loaded? then f.(snap := Touch(f.snap, id)) else f
  }

  ghost predicate Enabled(s: State, e: Event) {
    match e
    case Insert(r) =>
      && r.status == PENDING && !Exists(s.table, r.id)
      && forall i :: 0 <= i < |s.table| ==> s.table[i].created < r.created
    case Update(id, _, _) => Exists(s.table, id)
    case Del(u) => u in s.pending
    case DelFails(u) => u in s.pending
    case Miss(f, u) => f !in s.fills
    case Query(f, n) => f in s.fills && s.fills[f].Missed? && n <= |Truth(s.table, s.fills[f].user)|
    case Fill(f) => f in s.fills && s.fills[f].Loaded?
    case Abandon(f) => f in s.fills
    case Expire(u) => u in s.cache
    case Crash => true
  }

  ghost function Next(s: State, e: Event): State
    requires Enabled(s, e)
  {
    match e
    case Insert(r) => s.(table := s.table + [r])
    case Update(id, status, now) =>
      s.(table := SetStatus(s.table, id, status, now),
         cache := map u | u in s.cache :: Touch(s.cache[u], id),
         fills := map f | f in s.fills :: TouchFiller(s.fills[f], id),
         pending := s.pending + multiset{s.table[Index(s.table, id)].user})
    case Del(u) => s.(cache := s.cache - {u}, pending := s.pending - multiset{u})
    case DelFails(u) => s.(pending := s.pending - multiset{u})
    case Miss(f, u) => s.(fills := s.fills[f := Missed(u)])
    case Query(f, n) =>
      var u := s.fills[f].user;
      var rows := Truth(s.table, u);
      s.(fills := s.fills[f := Loaded(u, Snapshot(rows[..n], |rows|, false))])
    case Fill(f) => s.(cache := s.cache[s.fills[f].user := s.fills[f].snap], fills := s.fills - {f})
    case Abandon(f) => s.(fills := s.fills - {f})
    case Expire(u) => s.(cache := s.cache - {u})
    case Crash => s.(fills := map[], pending := multiset{})
  }

  ghost function After(es: seq<Event>): Option<State> {
    if es == [] then Some(EMPTY) else
    var t := After(es[..|es| - 1]);
    if t.Some? && Enabled(t.value, es[|es| - 1]) then Some(Next(t.value, es[|es| - 1])) else None
  }

  // ---- the query ----

  // Truth is what ORDER BY created_at DESC returns: exactly the user's rows, strictly newest first.
  lemma {:induction false} TruthIsTheQuery(table: seq<Row>, user: string)
    requires Ordered(table)
    ensures forall i, j :: 0 <= i < j < |Truth(table, user)| ==>
        Truth(table, user)[i].created > Truth(table, user)[j].created
    ensures forall x :: x in Truth(table, user) <==>
        exists i :: 0 <= i < |table| && table[i].user == user && Show(table[i]) == x
  {
    if table != [] {
      var front, last := table[..|table| - 1], table[|table| - 1];
      TruthIsTheQuery(front, user);
      var rest := Truth(front, user);
      forall j | 0 <= j < |rest| ensures rest[j].created < last.created {
        assert rest[j] in rest;
      }
      forall x ensures x in Truth(table, user) <==>
          exists i :: 0 <= i < |table| && table[i].user == user && Show(table[i]) == x {
        if x in rest {
          var i :| 0 <= i < |front| && front[i].user == user && Show(front[i]) == x;
          assert table[i] == front[i];
        }
        if i :| 0 <= i < |table| && table[i].user == user && Show(table[i]) == x && i < |front| {
          assert front[i].user == user && Show(front[i]) == x;
        }
      }
    }
  }

  // u is t after an update of one of its rows, if it lists that row.
  ghost predicate Changed(t: seq<Item>, u: seq<Item>, id: string, status: string, now: nat) {
    && |u| == |t|
    && forall k :: 0 <= k < |t| ==> u[k] == if t[k].id == id then t[k].(status := status, updated := now) else t[k]
  }

  lemma {:induction false} TruthUpdated(table: seq<Row>, id: string, status: string, now: nat, user: string)
    ensures Changed(Truth(table, user), Truth(SetStatus(table, id, status, now), user), id, status, now)
  {
    if table != [] {
      var front := table[..|table| - 1];
      TruthUpdated(front, id, status, now, user);
      assert SetStatus(table, id, status, now)[..|table| - 1] == SetStatus(front, id, status, now);
    }
  }

  // The row behind an item of the truth.
  lemma {:induction false} RowOf(table: seq<Row>, user: string, k: nat) returns (i: nat)
    requires k < |Truth(table, user)|
    ensures i < |table| && table[i].user == user && Show(table[i]) == Truth(table, user)[k]
  {
    var last := |table| - 1;
    if table[last].user != user {
      i := RowOf(table[..last], user, k);
    } else if k == 0 {
      i := last;
    } else {
      i := RowOf(table[..last], user, k - 1);
    }
  }

  lemma TruthInsert(table: seq<Row>, r: Row, user: string)
    ensures Truth(table + [r], user) == (if r.user == user then [Show(r)] else []) + Truth(table, user)
  {
    assert (table + [r])[..|table|] == table;
  }

  // ---- what every step keeps ----

  // items are the first rows of what truth was when it had size rows: only newer rows are
  // missing at the front, and only undelivered ones at the back.
  ghost predicate Window(items: seq<Item>, size: nat, truth: seq<Item>) {
    && |items| <= size <= |truth|
    && forall k :: 0 <= k < |items| ==> items[k] == truth[|truth| - size + k]
  }

  // A list is current if it is a window of the truth, from whichever time.
  ghost predicate Current(items: seq<Item>, truth: seq<Item>) {
    exists size: nat :: Window(items, size, truth)
  }

  // The same submission, perhaps with another status.
  ghost predicate SameRow(x: Item, y: Item) {
    x == y.(status := x.status, updated := x.updated)
  }

  // A list names the rows it named when it was read; unless it is overtaken it is a window.
  ghost predicate GoodFor(snap: Snapshot, t: seq<Item>) {
    && |snap.items| <= snap.size <= |t|
    && (forall k :: 0 <= k < |snap.items| ==> SameRow(snap.items[k], t[|t| - snap.size + k]))
    && (!snap.overtaken ==> Window(snap.items, snap.size, t))
  }

  ghost predicate Good(s: State, user: string, snap: Snapshot) {
    GoodFor(snap, Truth(s.table, user))
  }

  ghost predicate Inv(s: State) {
    && UniqueIds(s.table) && Ordered(s.table)
    && (forall u :: u in s.cache ==> Good(s, u, s.cache[u]))
    && (forall f :: f in s.fills && s.fills[f].Loaded? ==> Good(s, s.fills[f].user, s.fills[f].snap))
  }

  // What becomes of a list that the step does not read or drop.
  ghost function Then(snap: Snapshot, e: Event): Snapshot {
    if e.Update? then Touch(snap, e.id) else snap
  }

  lemma GoodInsert(snap: Snapshot, x: seq<Item>, t: seq<Item>)
    requires GoodFor(snap, t)
    ensures GoodFor(snap, x + t)
  {}

  lemma GoodUpdate(snap: Snapshot, t: seq<Item>, u: seq<Item>, id: string, status: string, now: nat)
    requires GoodFor(snap, t) && Changed(t, u, id, status, now)
    ensures GoodFor(Touch(snap, id), u)
  {
    forall k | 0 <= k < |snap.items|
      ensures SameRow(snap.items[k], u[|t| - snap.size + k])
      ensures !Lists(snap.items, id) ==> u[|t| - snap.size + k] == t[|t| - snap.size + k]
    {
      assert SameRow(snap.items[k], t[|t| - snap.size + k]);
    }
  }

  lemma GoodStep(s: State, e: Event, user: string, snap: Snapshot)
    requires Enabled(s, e) && Good(s, user, snap)
    ensures Good(Next(s, e), user, Then(snap, e))
  {
    match e
    case Insert(r) =>
      TruthInsert(s.table, r, user);
      GoodInsert(snap, if r.user == user then [Show(r)] else [], Truth(s.table, user));
    case Update(id, status, now) =>
      TruthUpdated(s.table, id, status, now, user);
      GoodUpdate(snap, Truth(s.table, user), Truth(Next(s, e).table, user), id, status, now);
    case _ =>
  }

  lemma TableStep(s: State, e: Event)
    requires UniqueIds(s.table) && Ordered(s.table) && Enabled(s, e)
    ensures UniqueIds(Next(s, e).table) && Ordered(Next(s, e).table)
  {}

  lemma EntryStep(s: State, e: Event, user: string)
    requires Inv(s) && Enabled(s, e) && user in Next(s, e).cache
    ensures Good(Next(s, e), user, Next(s, e).cache[user])
  {
    GoodStep(s, e, user, if e.Fill? && s.fills[e.f].user == user then s.fills[e.f].snap else s.cache[user]);
  }

  lemma FillerStep(s: State, e: Event, f: nat)
    requires Inv(s) && Enabled(s, e) && f in Next(s, e).fills && Next(s, e).fills[f].Loaded?
    ensures Good(Next(s, e), Next(s, e).fills[f].user, Next(s, e).fills[f].snap)
  {
    if !e.Query? || e.f != f { GoodStep(s, e, s.fills[f].user, s.fills[f].snap); }
  }

  lemma InvStep(s: State, e: Event)
    requires Inv(s) && Enabled(s, e)
    ensures Inv(Next(s, e))
  {
    var t := Next(s, e);
    TableStep(s, e);
    forall u | u in t.cache ensures Good(t, u, t.cache[u]) { EntryStep(s, e, u); }
    forall f | f in t.fills && t.fills[f].Loaded? ensures Good(t, t.fills[f].user, t.fills[f].snap) {
      FillerStep(s, e, f);
    }
  }

  lemma {:induction false} InvRun(es: seq<Event>)
    requires After(es).Some?
    ensures Inv(After(es).value)
  {
    if es != [] {
      InvRun(es[..|es| - 1]);
      InvStep(After(es[..|es| - 1]).value, es[|es| - 1]);
    }
  }

  // ---- overtaken lists, by the order of events ----

  // After event q, the list's rows were updated.
  ghost predicate UpdatedSince(es: seq<Event>, q: nat, items: seq<Item>) {
    exists m :: q < m < |es| && es[m].Update? && Lists(items, es[m].id)
  }

  // snap is the list that event q read for this user.
  ghost predicate Read(es: seq<Event>, q: nat, user: string, snap: Snapshot) {
    q < |es| && es[q].Query? && After(es[..q]).Some? && Enabled(After(es[..q]).value, es[q]) &&
    (var s := After(es[..q]).value;
     && s.fills[es[q].f].user == user
     && snap.items == Truth(s.table, user)[..es[q].delivered] && snap.size == |Truth(s.table, user)|)
  }

  // ... and it is overtaken exactly if one of its rows was updated after q.
  ghost predicate WasRead(es: seq<Event>, user: string, snap: Snapshot) {
    exists q: nat :: Read(es, q, user, snap) && (snap.overtaken <==> UpdatedSince(es, q, snap.items))
  }

  lemma UpdatedSinceStep(es: seq<Event>, q: nat, items: seq<Item>)
    requires q < |es| - 1
    ensures var front, e := es[..|es| - 1], es[|es| - 1];
      UpdatedSince(es, q, items) <==> UpdatedSince(front, q, items) || (e.Update? && Lists(items, e.id))
  {
    var front, last := es[..|es| - 1], |es| - 1;
    if m :| q < m < |front| && front[m].Update? && Lists(items, front[m].id) { assert es[m] == front[m]; }
    if m :| q < m < |es| && es[m].Update? && Lists(items, es[m].id) && m < last { assert front[m] == es[m]; }
  }

  lemma WasReadStep(es: seq<Event>, user: string, snap: Snapshot)
    requires es != [] && WasRead(es[..|es| - 1], user, snap)
    ensures WasRead(es, user, Then(snap, es[|es| - 1]))
  {
    var front, e := es[..|es| - 1], es[|es| - 1];
    var q: nat :| Read(front, q, user, snap) && (snap.overtaken <==> UpdatedSince(front, q, snap.items));
    assert es[..q] == front[..q];
    assert Read(es, q, user, Then(snap, e));
    UpdatedSinceStep(es, q, snap.items);
  }

  // Every list in the cache or on its way there was read by one query of the run, and is
  // overtaken exactly if an update of a row it lists came after that query.
  lemma {:induction false} OvertakenIff(es: seq<Event>)
    requires After(es).Some?
    ensures var s := After(es).value;
      && (forall u :: u in s.cache ==> WasRead(es, u, s.cache[u]))
      && (forall f :: f in s.fills && s.fills[f].Loaded? ==> WasRead(es, s.fills[f].user, s.fills[f].snap))
  {
    if es != [] {
      var front, e := es[..|es| - 1], es[|es| - 1];
      var s, t := After(front).value, After(es).value;
      OvertakenIff(front);
      forall u, snap | WasRead(front, u, snap) ensures WasRead(es, u, Then(snap, e)) { WasReadStep(es, u, snap); }
      forall u | u in t.cache ensures WasRead(es, u, t.cache[u]) {
        if !e.Fill? || s.fills[e.f].user != u { assert t.cache[u] == Then(s.cache[u], e); }
      }
      forall f | f in t.fills && t.fills[f].Loaded? ensures WasRead(es, t.fills[f].user, t.fills[f].snap) {
        if e.Query? && e.f == f {
          assert Read(es, |front|, t.fills[f].user, t.fills[f].snap);
        } else {
          assert t.fills[f].snap == Then(s.fills[f].snap, e);
        }
      }
    }
  }

  // ---- overtaken lists, by their contents ----

  // The update stamps its row with a later time than the row has.
  ghost predicate Advances(s: State, e: Event) {
    e.Update? && Exists(s.table, e.id) ==> s.table[Index(s.table, e.id)].updated < e.now
  }

  ghost predicate ClockAdvances(es: seq<Event>) {
    es == [] ||
    (var front := es[..|es| - 1];
     ClockAdvances(front) && After(front).Some? && Advances(After(front).value, es[|es| - 1]))
  }

  // Item k is stamped earlier than its row.
  ghost predicate Older(items: seq<Item>, size: nat, t: seq<Item>, k: nat)
    requires |items| <= size <= |t|
  {
    k < |items| && items[k].updated < t[|t| - size + k].updated
  }

  ghost predicate SomeOlder(items: seq<Item>, size: nat, t: seq<Item>)
    requires |items| <= size <= |t|
  {
    exists k: nat :: Older(items, size, t, k)
  }

  ghost predicate NoneNewer(items: seq<Item>, size: nat, t: seq<Item>)
    requires |items| <= size <= |t|
  {
    forall k :: 0 <= k < |items| ==> items[k].updated <= t[|t| - size + k].updated
  }

  // No item is stamped later than its row, and an overtaken list has one stamped earlier.
  ghost predicate DatedFor(snap: Snapshot, t: seq<Item>) {
    && |snap.items| <= snap.size <= |t|
    && NoneNewer(snap.items, snap.size, t) && (snap.overtaken ==> SomeOlder(snap.items, snap.size, t))
  }

  ghost predicate Dated(s: State, user: string, snap: Snapshot) {
    DatedFor(snap, Truth(s.table, user))
  }

  lemma DatedInsert(snap: Snapshot, x: seq<Item>, t: seq<Item>)
    requires DatedFor(snap, t)
    ensures DatedFor(snap, x + t)
  {
    if k: nat :| Older(snap.items, snap.size, t, k) { assert Older(snap.items, snap.size, x + t, k); }
  }

  lemma DatedItem(snap: Snapshot, t: seq<Item>, u: seq<Item>, id: string, status: string, now: nat, k: nat)
    requires GoodFor(snap, t) && Changed(t, u, id, status, now) && k < |snap.items|
    requires var y := t[|t| - snap.size + k]; snap.items[k].updated <= y.updated && (y.id == id ==> y.updated < now)
    ensures snap.items[k].updated <= u[|u| - snap.size + k].updated
    ensures snap.items[k].id == id || Older(snap.items, snap.size, t, k) ==> Older(snap.items, snap.size, u, k)
  {
    assert SameRow(snap.items[k], t[|t| - snap.size + k]);
  }

  ghost predicate StampedBefore(t: seq<Item>, id: string, now: nat) {
    forall k :: 0 <= k < |t| && t[k].id == id ==> t[k].updated < now
  }

  lemma DatedUpdate(snap: Snapshot, t: seq<Item>, u: seq<Item>, id: string, status: string, now: nat)
    requires GoodFor(snap, t) && DatedFor(snap, t) && Changed(t, u, id, status, now)
    requires StampedBefore(t, id, now)
    ensures DatedFor(Touch(snap, id), u)
  {
    assert NoneNewer(snap.items, snap.size, u) by {
      forall k: nat | k < |snap.items| ensures snap.items[k].updated <= u[|u| - snap.size + k].updated {
        DatedItem(snap, t, u, id, status, now, k);
      }
    }
    if k: nat :| k < |snap.items| && snap.items[k].id == id {
      DatedItem(snap, t, u, id, status, now, k);
    } else if k: nat :| Older(snap.items, snap.size, t, k) {
      DatedItem(snap, t, u, id, status, now, k);
    }
  }

  lemma LaterThanRow(table: seq<Row>, user: string, id: string, now: nat)
    requires UniqueIds(table) && Exists(table, id) && table[Index(table, id)].updated < now
    ensures StampedBefore(Truth(table, user), id, now)
  {
    var t := Truth(table, user);
    forall k | 0 <= k < |t| && t[k].id == id ensures t[k].updated < now {
      var i := RowOf(table, user, k);
    }
  }

  lemma DatedStep(s: State, e: Event, user: string, snap: Snapshot)
    requires UniqueIds(s.table) && Enabled(s, e) && Advances(s, e) && Good(s, user, snap) && Dated(s, user, snap)
    ensures Dated(Next(s, e), user, Then(snap, e))
  {
    var t := Truth(s.table, user);
    match e
    case Insert(r) =>
      TruthInsert(s.table, r, user);
      DatedInsert(snap, if r.user == user then [Show(r)] else [], t);
    case Update(id, status, now) =>
      TruthUpdated(s.table, id, status, now, user);
      LaterThanRow(s.table, user, id, now);
      DatedUpdate(snap, t, Truth(Next(s, e).table, user), id, status, now);
    case _ =>
  }

  ghost predicate AllDated(s: State) {
    && (forall u :: u in s.cache ==> Dated(s, u, s.cache[u]))
    && (forall f :: f in s.fills && s.fills[f].Loaded? ==> Dated(s, s.fills[f].user, s.fills[f].snap))
  }

  lemma AllDatedStep(s: State, e: Event)
    requires Inv(s) && AllDated(s) && Enabled(s, e) && Advances(s, e)
    ensures AllDated(Next(s, e))
  {
    var t := Next(s, e);
    forall u, snap | Good(s, u, snap) && Dated(s, u, snap) ensures Dated(t, u, Then(snap, e)) {
      DatedStep(s, e, u, snap);
    }
    forall u | u in t.cache ensures Dated(t, u, t.cache[u]) {
      if !e.Fill? || s.fills[e.f].user != u { assert t.cache[u] == Then(s.cache[u], e); }
    }
  }

  lemma {:induction false} AllDatedRun(es: seq<Event>)
    requires After(es).Some? && ClockAdvances(es)
    ensures AllDated(After(es).value)
  {
    if es != [] {
      AllDatedRun(es[..|es| - 1]);
      InvRun(es[..|es| - 1]);
      AllDatedStep(After(es[..|es| - 1]).value, es[|es| - 1]);
    }
  }

  // A list with an item older than its row is no window, of whatever size.
  lemma OlderIsNoWindow(snap: Snapshot, t: seq<Item>, k: nat, size: nat)
    requires forall i, j :: 0 <= i < j < |t| ==> t[i].created > t[j].created
    requires GoodFor(snap, t) && Older(snap.items, snap.size, t, k)
    ensures !Window(snap.items, size, t)
  {
    if |snap.items| <= size <= |t| {
      var i, j := |t| - size + k, |t| - snap.size + k;
      assert SameRow(snap.items[k], t[j]);
      assert i != j ==> t[i].created != t[j].created;
      assert snap.items[k] != t[i];
    }
  }

  // A list that is not overtaken is current; and with dates, only such a list is.
  lemma CurrentIff(s: State, user: string, snap: Snapshot)
    requires Ordered(s.table) && Good(s, user, snap)
    ensures !snap.overtaken ==> Current(snap.items, Truth(s.table, user))
    ensures Dated(s, user, snap) ==> (Current(snap.items, Truth(s.table, user)) <==> !snap.overtaken)
  {
    var t := Truth(s.table, user);
    TruthIsTheQuery(s.table, user);
    if !snap.overtaken { assert Window(snap.items, snap.size, t); }
    if Dated(s, user, snap) && snap.overtaken {
      var k: nat :| Older(snap.items, snap.size, t, k);
      forall size: nat ensures !Window(snap.items, size, t) { OlderIsNoWindow(snap, t, k, size); }
    }
  }

  // ---- coherence ----

  // A row of the entry has been updated since it was read.
  ghost predicate Stale(s: State, user: string) {
    user in s.cache && s.cache[user].overtaken
  }

  // Every stale entry is about to be deleted.
  ghost predicate Covered(s: State) {
    forall u :: Stale(s, u) ==> u in s.pending
  }

  // A fill stores a list one of whose rows was updated after its query, when that user's Dels
  // are all done or lost; or the last outstanding Del for such an entry is lost.
  ghost predicate Uncovers(s: State, e: Event) {
    match e
    case Fill(f) => f in s.fills && s.fills[f].Loaded? && s.fills[f].snap.overtaken && s.fills[f].user !in s.pending
    case DelFails(u) => s.pending[u] == 1 && Stale(s, u)
    case Crash => exists u :: Stale(s, u)
    case _ => false
  }

  // An update marks only the entry of the user it owes a Del.
  lemma TouchedOwner(s: State, id: string, user: string)
    requires Inv(s) && Exists(s.table, id) && user in s.cache && Lists(s.cache[user].items, id)
    ensures s.table[Index(s.table, id)].user == user
  {
    var snap, t := s.cache[user], Truth(s.table, user);
    var k :| 0 <= k < |snap.items| && snap.items[k].id == id;
    assert SameRow(snap.items[k], t[|t| - snap.size + k]);
    var i := RowOf(s.table, user, |t| - snap.size + k);
  }

  lemma CoveredStep(s: State, e: Event)
    requires Inv(s) && Covered(s) && Enabled(s, e)
    ensures Covered(Next(s, e)) <==> !Uncovers(s, e)
  {
    var t := Next(s, e);
    match e
    case Update(id, status, now) =>
      forall v | Stale(t, v) ensures v in t.pending {
        if !Stale(s, v) { TouchedOwner(s, id, v); }
      }
    case Fill(f) =>
      var u := s.fills[f].user;
      assert Stale(t, u) <==> s.fills[f].snap.overtaken;
      forall v | v != u ensures Stale(t, v) <==> Stale(s, v) {}
    case DelFails(u) =>
      forall v ensures Stale(t, v) <==> Stale(s, v) {}
      if Uncovers(s, e) { assert Stale(t, u) && u !in t.pending; }
    case Crash =>
      forall v ensures Stale(t, v) <==> Stale(s, v) {}
    case _ =>
      forall v | Stale(t, v) ensures v in t.pending { assert Stale(s, v); }
  }

  // By contents: an entry whose user has no outstanding Del is current.
  ghost predicate Coherent(s: State) {
    forall u :: u in s.cache && u !in s.pending ==> Current(s.cache[u].items, Truth(s.table, u))
  }

  // ... in every state of the run.
  ghost predicate AlwaysCoherent(es: seq<Event>) {
    && After(es).Some? && Coherent(After(es).value)
    && (es != [] ==> AlwaysCoherent(es[..|es| - 1]))
  }

  // No step of the run uncovers.
  ghost predicate NeverUncovers(es: seq<Event>) {
    es == [] ||
    (var front := es[..|es| - 1];
     NeverUncovers(front) && After(front).Some? && !Uncovers(After(front).value, es[|es| - 1]))
  }

  lemma CoveredIsCoherent(s: State)
    requires Inv(s)
    ensures Covered(s) ==> Coherent(s)
    ensures AllDated(s) ==> (Covered(s) <==> Coherent(s))
  {
    forall u | u in s.cache
      ensures !Stale(s, u) ==> Current(s.cache[u].items, Truth(s.table, u))
      ensures AllDated(s) ==> (Current(s.cache[u].items, Truth(s.table, u)) <==> !Stale(s, u))
    {
      CurrentIff(s, u, s.cache[u]);
    }
  }

  lemma {:induction false} CoveredRun(es: seq<Event>)
    requires After(es).Some? && NeverUncovers(es)
    ensures Covered(After(es).value)
  {
    if es != [] {
      CoveredRun(es[..|es| - 1]);
      InvRun(es[..|es| - 1]);
      CoveredStep(After(es[..|es| - 1]).value, es[|es| - 1]);
    }
  }

  // If no step uncovers, every state of the run is coherent; and when every update stamps its
  // row with a later time, only then.
  lemma {:induction false} CoherentIff(es: seq<Event>)
    requires After(es).Some?
    ensures NeverUncovers(es) ==> AlwaysCoherent(es)
    ensures ClockAdvances(es) ==> (AlwaysCoherent(es) <==> NeverUncovers(es))
  {
    if es == [] {
      assert Coherent(EMPTY);
    } else {
      var front := es[..|es| - 1];
      CoherentIff(front);
      InvRun(front); InvRun(es);
      if ClockAdvances(es) { AllDatedRun(front); AllDatedRun(es); }
      CoveredIsCoherent(After(front).value);
      CoveredIsCoherent(After(es).value);
      if NeverUncovers(front) {
        CoveredRun(front);
        CoveredStep(After(front).value, es[|es| - 1]);
      }
    }
  }

  // In such a run, an entry whose user has no outstanding Del has the statuses of the
  // database, lacking only rows inserted since its query and rows never delivered.
  lemma CoherentEntries(es: seq<Event>, s: State, user: string)
    requires After(es) == Some(s) && NeverUncovers(es) && user in s.cache && user !in s.pending
    ensures Window(s.cache[user].items, s.cache[user].size, Truth(s.table, user))
    ensures |s.cache[user].items| == s.cache[user].size == |Truth(s.table, user)| ==>
              s.cache[user].items == Truth(s.table, user)
  {
    InvRun(es);
    CoveredRun(es);
    CurrentEntry(s, user);
  }

  lemma CurrentEntry(s: State, user: string)
    requires Inv(s) && Covered(s) && user in s.cache && user !in s.pending
    ensures Window(s.cache[user].items, s.cache[user].size, Truth(s.table, user))
    ensures |s.cache[user].items| == s.cache[user].size == |Truth(s.table, user)| ==>
              s.cache[user].items == Truth(s.table, user)
  {
    assert !Stale(s, user);
  }

  // The condition is needed: a fill that straddles an update leaves an old status in the
  // cache with nothing outstanding.
  lemma StraddlingFill(user: string) returns (es: seq<Event>, s: State)
    ensures After(es) == Some(s) && s.pending == multiset{} && s.fills == map[] && user in s.cache
    ensures |s.cache[user].items| == |Truth(s.table, user)| == 1
    ensures s.cache[user].items[0].status == PENDING && Truth(s.table, user)[0].status == "AC"
  {
    var r := Row("id", user, "problem", "code", "go", PENDING, 1, 1);
    es, s := Go([], EMPTY, Insert(r));
    es, s := Go(es, s, Miss(0, user));
    assert s.table == [r];
    OneRow(r);
    es, s := Go(es, s, Query(0, 1));
    assert s.table[0].id == r.id;
    es, s := Go(es, s, Update("id", "AC", 2));
    assert s.table == [r.(status := "AC", updated := 2)];
    OneRow(r.(status := "AC", updated := 2));
    es, s := Go(es, s, Del(user));
    es, s := Go(es, s, Fill(0));
  }

  // Nor does the converse hold without the clock: an update that writes the same status at the
  // same time again overtakes a list that remains current.
  lemma SameTimeAgain(user: string) returns (es: seq<Event>)
    ensures AlwaysCoherent(es) && !NeverUncovers(es)
  {
    var done := Row("id", user, "problem", "code", "go", "AC", 1, 2);
    ghost var s;
    OneRow(done);
    es, s := UpdatedTo([], EMPTY, done);
    es, s := GoCoherent(es, s, Miss(0, user));
    es, s := GoCoherent(es, s, Query(0, 1));
    var list := Snapshot([Show(done)], 1, false);
    assert s == State([done], map[], map[0 := Loaded(user, list)], multiset{});
    es, s := OvertakenAgain(es, s, done, list);
    StoredAnyway(es, s, done, list.(overtaken := true));
    es := es + [Fill(0)];
  }

  // The row is inserted and judged.
  lemma UpdatedTo(es: seq<Event>, s: State, done: Row) returns (es': seq<Event>, t: State)
    requires s == EMPTY && After(es) == Some(s) && AlwaysCoherent(es)
    requires done.status == "AC" && done.created == 1
    ensures After(es') == Some(t) && AlwaysCoherent(es') && t == State([done], map[], map[], multiset{})
  {
    var r := done.(status := PENDING, updated := 1);
    es', t := GoCoherent(es, s, Insert(r));
    assert t == State([r], map[], map[], multiset{});
    es', t := JudgedTo(es', t, r, done);
  }

  lemma JudgedTo(es: seq<Event>, s: State, r: Row, done: Row) returns (es': seq<Event>, t: State)
    requires After(es) == Some(s) && AlwaysCoherent(es) && s == State([r], map[], map[], multiset{})
    requires done == r.(status := done.status, updated := done.updated)
    ensures After(es') == Some(t) && AlwaysCoherent(es') && t == State([done], map[], map[], multiset{})
  {
    assert s.table[0].id == done.id;
    es', t := GoCoherent(es, s, Update(done.id, done.status, done.updated));
    assert t.table == [done];
    es', t := GoCoherent(es', t, Del(done.user));
  }

  // It is updated to what it is.
  lemma OvertakenAgain(es: seq<Event>, s: State, done: Row, list: Snapshot) returns (es': seq<Event>, t: State)
    requires After(es) == Some(s) && AlwaysCoherent(es) && list.items == [Show(done)]
    requires s == State([done], map[], map[0 := Loaded(done.user, list)], multiset{})
    ensures After(es') == Some(t) && AlwaysCoherent(es')
    ensures t == State([done], map[], map[0 := Loaded(done.user, list.(overtaken := true))], multiset{})
  {
    assert s.table[0].id == list.items[0].id == done.id;
    es', t := GoCoherent(es, s, Update(done.id, done.status, done.updated));
    assert t.table == [done];
    es', t := GoCoherent(es', t, Del(done.user));
  }

  lemma StoredAnyway(es: seq<Event>, s: State, done: Row, list: Snapshot)
    requires After(es) == Some(s) && AlwaysCoherent(es) && list == Snapshot([Show(done)], 1, true)
    requires s == State([done], map[], map[0 := Loaded(done.user, list)], multiset{})
    ensures AlwaysCoherent(es + [Fill(0)]) && !NeverUncovers(es + [Fill(0)])
  {
    OneRow(done);
    assert Window(list.items, 1, Truth(s.table, done.user));
    assert Uncovers(s, Fill(0));
    var es', t := GoCoherent(es, s, Fill(0));
    assert es'[..|es'| - 1] == es;
  }

  lemma GoCoherent(es: seq<Event>, s: State, e: Event) returns (es': seq<Event>, t: State)
    requires After(es) == Some(s) && AlwaysCoherent(es) && Enabled(s, e) && Coherent(Next(s, e))
    ensures t == Next(s, e) && After(es') == Some(t) && AlwaysCoherent(es') && es' == es + [e]
  {
    es', t := Go(es, s, e);
    assert es'[..|es|] == es;
  }

  lemma OneRow(r: Row)
    ensures Truth([r], r.user) == [Show(r)]
  {
    assert [r][..0] == [];
  }

  lemma Go(es: seq<Event>, s: State, e: Event) returns (es': seq<Event>, t: State)
    requires After(es) == Some(s) && Enabled(s, e)
    ensures t == Next(s, e) && After(es') == Some(t) && es' == es + [e]
  {
    es', t := es + [e], Next(s, e);
    assert es'[..|es|] == es;
  }
}
