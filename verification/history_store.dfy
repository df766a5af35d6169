/** The result service's store and the submission service's insert, one whole operation at a
    time, as compositions of the machine's steps. */
module HistoryStore {
  import opened Topics
  import opened History

  // items are the oldest rows of truth: only the newest may be missing.
  ghost predicate Suffix(items: seq<Item>, truth: seq<Item>) {
    |items| <= |truth| && items == truth[|truth| - |items|..]
  }

  lemma Keeps(m: State, e: Event)
    requires Inv(m) && Enabled(m, e)
    ensures Inv(Next(m, e))
    ensures Covered(m) && !Uncovers(m, e) ==> Covered(Next(m, e))
  {
    InvStep(m, e);
    if Covered(m) { CoveredStep(m, e); }
  }

  // Nothing is outstanding.
  ghost predicate Quiet(m: State) {
    Inv(m) && m.fills == map[] && m.pending == multiset{}
  }

  ghost function ReadThrough(m: State, user: string, n: nat): (t: State)
    requires Quiet(m) && n <= |Truth(m.table, user)|
    ensures t.cache == m.cache[user := Snapshot(Truth(m.table, user)[..n], |Truth(m.table, user)|, false)]
    ensures t.table == m.table && t.fills == map[] && t.pending == multiset{}
  {
    Next(Next(Next(m, Miss(0, user)), Query(0, n)), Fill(0))
  }

  // A miss that nothing interrupts.
  lemma ReadThroughIsQuiet(m: State, user: string, n: nat)
    requires Quiet(m) && n <= |Truth(m.table, user)|
    ensures Quiet(ReadThrough(m, user, n))
    ensures Covered(m) ==> Covered(ReadThrough(m, user, n))
  {
    Keeps(m, Miss(0, user));
    var m1 := Next(m, Miss(0, user));
    Keeps(m1, Query(0, n));
    var m2 := Next(m1, Query(0, n));
    Keeps(m2, Fill(0));
  }

  lemma OthersUntouched(m: State, id: string)
    requires Inv(m) && Exists(m.table, id)
    ensures forall u :: u in m.cache && u != m.table[Index(m.table, id)].user ==> Touch(m.cache[u], id) == m.cache[u]
  {
    forall u | u in m.cache && Lists(m.cache[u].items, id) ensures u == m.table[Index(m.table, id)].user {
      TouchedOwner(m, id, u);
    }
  }

  // An update that nothing interrupts, with its Del.
  ghost function WriteThrough(m: State, id: string, status: string, now: nat): (t: State)
    requires Quiet(m) && Exists(m.table, id)
    ensures t.table == SetStatus(m.table, id, status, now) && t.cache == m.cache - {m.table[Index(m.table, id)].user}
    ensures t.fills == map[] && t.pending == multiset{}
  {
    OthersUntouched(m, id);
    Next(Next(m, Update(id, status, now)), Del(m.table[Index(m.table, id)].user))
  }

  lemma WriteThroughIsQuiet(m: State, id: string, status: string, now: nat)
    requires Quiet(m) && Exists(m.table, id)
    ensures Quiet(WriteThrough(m, id, status, now))
    ensures Covered(m) ==> Covered(WriteThrough(m, id, status, now))
  {
    Keeps(m, Update(id, status, now));
    Keeps(Next(m, Update(id, status, now)), Del(m.table[Index(m.table, id)].user));
  }

  // The same when the Del fails.
  ghost function WriteOnly(m: State, id: string, status: string, now: nat): (t: State)
    requires Quiet(m) && Exists(m.table, id)
    ensures t.table == SetStatus(m.table, id, status, now) && t.cache.Keys == m.cache.Keys
    ensures forall u :: u in m.cache ==> t.cache[u].items == m.cache[u].items && t.cache[u].size == m.cache[u].size
    ensures t.fills == map[] && t.pending == multiset{}
  {
    Next(Next(m, Update(id, status, now)), DelFails(m.table[Index(m.table, id)].user))
  }

  // The cache stays covered exactly if the user's entry, if any, does not list the row.
  lemma DelFailsIff(m: State, id: string, status: string, now: nat)
    requires Quiet(m) && Exists(m.table, id)
    ensures Quiet(WriteOnly(m, id, status, now))
    ensures Covered(m) ==>
      var u := m.table[Index(m.table, id)].user;
      (Covered(WriteOnly(m, id, status, now)) <==> !(u in m.cache && Lists(m.cache[u].items, id)))
  {
    var u := m.table[Index(m.table, id)].user;
    var m1 := Next(m, Update(id, status, now));
    Keeps(m, Update(id, status, now));
    Keeps(m1, DelFails(u));
    if Covered(m) {
      assert !Stale(m, u);
      CoveredStep(m1, DelFails(u));
    }
  }

  class Store {
    var table: seq<Row>
    var cache: map<string, seq<Item>>
    ghost var model: State

    // Between two operations nothing is outstanding.
    ghost predicate Consistent() reads this {
      && table == model.table
      && cache.Keys == model.cache.Keys && (forall u :: u in cache ==> cache[u] == model.cache[u].items)
      && Quiet(model)
    }

    // ... and every entry is current, unless a Del has failed.
    ghost predicate Valid() reads this {
      Consistent() && Covered(model)
    }

    // Every entry came from an iteration that delivered all its rows.
    ghost predicate Whole() reads this {
      forall u :: u in model.cache ==> |model.cache[u].items| == model.cache[u].size
    }

    constructor ()
      ensures Valid() && Whole() && table == [] && model == EMPTY
    {
      table, cache, model := [], map[], EMPTY;
    }

    // The serial cache relation: in every valid store each entry is a current part of the
    // truth, lacking only newest rows if every iteration was whole.
    lemma Entries(user: string)
      requires Valid() && user in cache
      ensures Window(cache[user], model.cache[user].size, Truth(table, user))
      ensures Whole() ==> Suffix(cache[user], Truth(table, user))
    {
      CurrentEntry(model, user);
    }

    method CreateSubmission(uuid: string, user: string, problem: string, code: string, language: string, now: nat)
      requires Consistent() && !Exists(table, uuid)
      requires forall i :: 0 <= i < |table| ==> table[i].created < now
      modifies this
      ensures Consistent() && (old(Valid()) ==> Valid()) && (old(Whole()) ==> Whole()) && cache == old(cache)
      ensures var r := Row(uuid, user, problem, code, language, PENDING, now, now);
        table == old(table) + [r] && model == Next(old(model), Insert(r))
      ensures Truth(table, user) == [Item(uuid, problem, user, language, PENDING, now, now)] + old(Truth(table, user))
    {
      var r := Row(uuid, user, problem, code, language, PENDING, now, now);
      Keeps(model, Insert(r));
      TruthInsert(table, r, user);
      model := Next(model, Insert(r));
      table := table + [r];
    }

    // Err when the statement fails or matches no row; a failed Del is logged and ignored.
    method UpdateSubmissionStatus(id: string, status: string, now: nat, dbFails: bool, delSucceeds: bool)
      returns (ok: bool)
      requires Consistent()
      modifies this
      ensures Consistent() && (old(Whole()) ==> Whole())
      ensures ok <==> !dbFails && old(Exists(table, id))
      ensures !ok ==> table == old(table) && cache == old(cache) && model == old(model)
      ensures ok ==> table == SetStatus(old(table), id, status, now)
      ensures ok && delSucceeds ==> model == WriteThrough(old(model), id, status, now)
      ensures ok && !delSucceeds ==> model == WriteOnly(old(model), id, status, now)
      ensures ok && delSucceeds ==> cache == old(cache) - {old(table)[Index(old(table), id)].user}
      ensures ok && !delSucceeds ==> cache == old(cache)
      ensures old(Valid()) && (!ok || delSucceeds) ==> Valid()
      ensures old(Valid()) && ok && !delSucceeds ==>
        var user := old(table)[Index(old(table), id)].user;
        (Valid() <==> !(user in old(cache) && Lists(old(cache)[user], id)))
    {
      if dbFails { return false; }
      var found, user := ReturningUser(id);
      if !found { return false; }
      if delSucceeds { UpdateAndDel(id, status, now, user); } else { UpdateOnly(id, status, now); }
      ok := true;
    }

    // The statement and a Del that succeeds.
    method UpdateAndDel(id: string, status: string, now: nat, user: string)
      requires Consistent() && Exists(table, id) && user == table[Index(table, id)].user
      modifies this
      ensures Consistent() && (old(Whole()) ==> Whole()) && (old(Valid()) ==> Valid())
      ensures table == SetStatus(old(table), id, status, now) && cache == old(cache) - {user}
      ensures model == WriteThrough(old(model), id, status, now)
    {
      WriteThroughIsQuiet(model, id, status, now);
      model := WriteThrough(model, id, status, now);
      table := SetStatus(table, id, status, now);
      cache := cache - {user};
    }

    // The statement and a Del that fails.
    method UpdateOnly(id: string, status: string, now: nat)
      requires Consistent() && Exists(table, id)
      modifies this
      ensures Consistent() && (old(Whole()) ==> Whole())
      ensures table == SetStatus(old(table), id, status, now) && cache == old(cache)
      ensures model == WriteOnly(old(model), id, status, now)
      ensures var user := old(table)[Index(old(table), id)].user;
        old(Valid()) ==> (Valid() <==> !(user in old(cache) && Lists(old(cache)[user], id)))
    {
      DelFailsIff(model, id, status, now);
      model := WriteOnly(model, id, status, now);
      table := SetStatus(table, id, status, now);
    }

    // The RETURNING user_id of the statement.
    method ReturningUser(id: string) returns (found: bool, user: string)
      ensures found <==> Exists(table, id)
      ensures found ==> user == table[Index(table, id)].user
    {
      found, user := false, "";
      for i := 0 to |table|
        invariant found <==> Exists(table[..i], id)
        invariant found ==> user == table[Index(table[..i], id)].user
      {
        assert table[..i + 1][..i] == table[..i];
        if table[i].id == id {
          assert table[..i + 1][i].id == id;
          found, user := true, table[i].user;
        } else if found {
          var k := Index(table[..i], id);
          assert table[..i + 1][k].id == id;
        }
      }
      assert table[..|table|] == table;
    }

    method Expire(user: string)
      requires Consistent()
      modifies this
      ensures Consistent() && (old(Valid()) ==> Valid()) && (old(Whole()) ==> Whole())
      ensures table == old(table) && cache == old(cache) - {user}
    {
      if user in cache {
        Keeps(model, Event.Expire(user));
        model := Next(model, Event.Expire(user));
      }
      cache := cache - {user};
    }

    // A readable entry is returned as it is.  Otherwise the query decides; its list is stored
    // if the cache can be written, and returned in any case.
    method GetUserSubmissions(user: string, getFails: bool, reply: QueryReply, setFails: bool)
      returns (r: Option<seq<Item>>)
      requires Consistent() && (reply.Delivered? ==> reply.rows <= |Truth(table, user)|)
      modifies this
      ensures Consistent() && (old(Valid()) ==> Valid()) && table == old(table)
      ensures var hit := !getFails && user in old(cache);
        && (r.None? <==> !hit && !reply.Delivered?)
        && (hit ==> r == Some(old(cache)[user]))
        && (!hit && reply.Delivered? ==> r == Some(Truth(table, user)[..reply.rows]))
        && (if hit || !reply.Delivered? || setFails then cache == old(cache) && model == old(model)
            else cache == old(cache)[user := r.value] && model == ReadThrough(old(model), user, reply.rows))
      ensures old(Valid() && Whole()) && (reply.Delivered? ==> reply.rows == |Truth(table, user)|) ==>
        Whole() && (r.Some? ==> Suffix(r.value, Truth(table, user)))
    {
      if !getFails && user in cache {
        if Valid() { Entries(user); }
        return Some(cache[user]);
      }
      if !reply.Delivered? { return None; }
      var submissions := ScanRows(Truth(table, user), reply.rows);
      if !setFails {
        ReadThroughIsQuiet(model, user, reply.rows);
        cache := cache[user := submissions];
        model := ReadThrough(model, user, reply.rows);
      }
      r := Some(submissions);
    }
  }

  // What the query and the iteration over its rows come to: an error, or some first rows; the
  // code does not ask whether the iteration ended because of an error.
  datatype QueryReply = QueryError | ScanError | Delivered(rows: nat)

  // The loop over the rows of the query.
  method ScanRows(rows: seq<Item>, delivered: nat) returns (submissions: seq<Item>)
    requires delivered <= |rows|
    ensures submissions == rows[..delivered]
  {
    submissions := [];
    for i := 0 to delivered
      invariant submissions == rows[..i]
    {
      submissions := submissions + [rows[i]];
    }
  }

  // One operation of some request, whatever becomes of it.  Creation is at later + 1 units
  // after the latest one.
  datatype Operation =
    | Creation(uuid: string, user: string, problem: string, code: string, language: string, later: nat)
    | StatusUpdate(id: string, status: string, now: nat, dbFails: bool, delSucceeds: bool)
    | Reading(user: string, getFails: bool, reply: QueryReply, setFails: bool)
    | Expiry(user: string)

  // The table after an operation.
  ghost function Applied(t: seq<Row>, op: Operation): seq<Row> {
    match op
    case Creation(uuid, user, problem, code, language, later) =>
      if Exists(t, uuid) then t else
      t + [Row(uuid, user, problem, code, language, PENDING, NextTime(t) + later, NextTime(t) + later)]
    case StatusUpdate(id, status, now, dbFails, _) => if dbFails then t else SetStatus(t, id, status, now)
    case Reading(_, _, _, _) => t
    case Expiry(_) => t
  }

  ghost function AppliedAll(table: seq<Row>, ops: seq<Operation>): seq<Row> {
    if ops == [] then table else Applied(AppliedAll(table, ops[..|ops| - 1]), ops[|ops| - 1])
  }

  function NextTime(table: seq<Row>): nat {
    if table == [] then 0 else table[|table| - 1].created + 1
  }

  // The query of this table can deliver no more rows than it has.
  function AtMost(reply: QueryReply, rows: nat): QueryReply {
    if reply.Delivered? && rows < reply.rows then Delivered(rows) else reply
  }

  // What a read returns that the database answers.
  function FromDatabase(truth: seq<Item>, reply: QueryReply): (submissions: Option<seq<Item>>)
    ensures submissions.None? <==> !reply.Delivered?
    ensures reply.Delivered? && |truth| <= reply.rows ==> submissions == Some(truth)
  {
    assert truth[..|truth|] == truth;
    var r := AtMost(reply, |truth|);
    if r.Delivered? then Some(truth[..r.rows]) else None
  }

  method Perform(s: Store, op: Operation)
    requires s.Consistent()
    modifies s
    ensures s.Consistent()
    ensures s.table == Applied(old(s.table), op)
    ensures forall u :: u in s.cache ==> u in old(s.cache) || (op.Reading? && op.user == u)
  {
    match op
    case Creation(uuid, user, problem, code, language, later) =>
      var taken, _ := s.ReturningUser(uuid);
      if !taken { s.CreateSubmission(uuid, user, problem, code, language, NextTime(s.table) + later); }
      assert s.table == Applied(old(s.table), op);
    case StatusUpdate(id, status, now, dbFails, delSucceeds) =>
      var ok := s.UpdateSubmissionStatus(id, status, now, dbFails, delSucceeds);
      assert s.table == Applied(old(s.table), op) by { if !dbFails && !ok { SetNone(s.table, id, status, now); } }
    case Reading(user, getFails, reply, setFails) =>
      var r := s.GetUserSubmissions(user, getFails, AtMost(reply, |Truth(s.table, user)|), setFails);
    case Expiry(user) =>
      s.Expire(user);
  }

  lemma SetNone(table: seq<Row>, id: string, status: string, now: nat)
    requires !Exists(table, id)
    ensures SetStatus(table, id, status, now) == table
  {}

  ghost predicate Reads(ops: seq<Operation>, user: string) {
    exists op :: op in ops && op.Reading? && op.user == user
  }

  method PerformAll(s: Store, ops: seq<Operation>)
    requires s.Consistent()
    modifies s
    ensures s.Consistent() && s.table == AppliedAll(old(s.table), ops)
    ensures forall u :: u in s.cache ==> u in old(s.cache) || Reads(ops, u)
  {
    for i := 0 to |ops|
      invariant s.Consistent() && s.table == AppliedAll(old(s.table), ops[..i])
      invariant forall u :: u in s.cache ==> u in old(s.cache) || Reads(ops[..i], u)
    {
      Perform(s, ops[i]);
      assert ops[..i + 1] == ops[..i] + [ops[i]];
    }
    assert ops[..|ops|] == ops;
  }

  // After an update of one of the user's submissions, whatever other operations follow, the
  // next read of that user is answered by the database: an error if the query fails, and else
  // the rows delivered of the current list, all of it if they all are.
  method ReadAfterUpdate(s: Store, id: string, status: string, now: nat, ops: seq<Operation>,
                         getFails: bool, reply: QueryReply, setFails: bool)
    returns (submissions: Option<seq<Item>>)
    requires s.Consistent() && Exists(s.table, id)
    requires !Reads(ops, s.table[Index(s.table, id)].user)
    modifies s
    ensures s.Consistent() && s.table == AppliedAll(SetStatus(old(s.table), id, status, now), ops)
    ensures submissions == FromDatabase(Truth(s.table, old(s.table)[Index(old(s.table), id)].user), reply)
  {
    var found, user := s.ReturningUser(id);
    var ok := s.UpdateSubmissionStatus(id, status, now, false, true);
    PerformAll(s, ops);
    submissions := s.GetUserSubmissions(user, getFails, AtMost(reply, |Truth(s.table, user)|), setFails);
  }
}
