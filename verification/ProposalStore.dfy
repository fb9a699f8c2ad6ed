/** The proposals table: a map by primary key together with the order of insertion, the statements the
    store runs on it, and the AGENT_PROPOSALS counter that set_status increments. */
module ProposalStore {
  import opened Basics
  import opened Timestamps

  datatype Json = Null | Bool(b: bool) | Num(n: int) | Str(s: string) | Arr(items: seq<Json>) | Obj(fields: map<string, Json>)

  datatype Status = Pending | Applied | Rejected | Failed

  /** A row's uuid4; only its identity matters. */
  type RowId = nat

  /** The columns that only INSERT writes. */
  datatype Proposed = Proposed(
    agentId: string, runId: nat, action: string, arguments: Json, rationale: string, createdAt: Stamp)

  datatype Record = Record(id: RowId, proposed: Proposed, status: Status, error: Option<string>)

  datatype Table = Table(rows: map<RowId, Record>, order: seq<RowId>, counted: multiset<Status>)

  const EMPTY_TABLE := Table(map[], [], multiset{})

  /** The primary key is the id, each row was inserted once, and stored times are real times. */
  ghost predicate Sound(tb: Table) {
    && (forall id :: id in tb.rows ==> tb.rows[id].id == id && Valid(tb.rows[id].proposed.createdAt))
    && (forall id :: id in tb.order <==> id in tb.rows)
    && (forall i, j :: 0 <= i < j < |tb.order| ==> tb.order[i] != tb.order[j])
  }

  function Insert(tb: Table, r: Record): Table {
    tb.(rows := tb.rows[r.id := r], order := tb.order + [r.id])
  }

  /** The committed UPDATE of `set_status`. */
  function Commit(tb: Table, id: RowId, status: Status, error: Option<string>): Table {
    if id in tb.rows then tb.(rows := tb.rows[id := tb.rows[id].(status := status, error := error)]) else tb
  }

  /** The increment that follows once the connection is closed. */
  function Count(tb: Table, status: Status): Table {
    tb.(counted := tb.counted + multiset{status})
  }

  /** A whole `set_status`. */
  function SetStatus(tb: Table, id: RowId, status: Status, error: Option<string>): Table {
    if id in tb.rows then Count(Commit(tb, id, status, error), status) else tb
  }

  /** Where a statement raises, if it does: before its commit, or after it, while the connection closes. */
  datatype Fault = NoFault | BeforeCommit(message: string) | AfterCommit(message: string) {
    function Message(): Option<string> {
      match this
      case NoFault => None
      case BeforeCommit(m) => Some(m)
      case AfterCommit(m) => Some(m)
    }
  }

  predicate Wanted(r: Record, agent: Option<string>) {
    r.status == Pending && (agent.Some? ==> r.proposed.agentId == agent.value)
  }

  predicate IsWanted(rows: map<RowId, Record>, r: Record, agent: Option<string>) {
    r.id in rows && rows[r.id] == r && Wanted(r, agent)
  }

  function Times(b: bool): nat { if b then 1 else 0 }

  /** The rows the WHERE clause keeps, in the order of the scan. */
  function Select(rows: map<RowId, Record>, order: seq<RowId>, agent: Option<string>): seq<Record> {
    if order == [] then []
    else
      var rest := Select(rows, order[1..], agent);
      if order[0] in rows && Wanted(rows[order[0]], agent) then [rows[order[0]]] + rest else rest
  }

  /** ORDER BY created_at: a stable sort on the stored text. */
  function OrderByCreated(rs: seq<Record>): seq<Record> {
    if rs == [] then [] else Place(rs[0], OrderByCreated(rs[1..]))
  }

  function Place(r: Record, rs: seq<Record>): seq<Record> {
    if rs == [] || !Less(Iso(rs[0].proposed.createdAt), Iso(r.proposed.createdAt)) then [r] + rs
    else [rs[0]] + Place(r, rs[1..])
  }

  function Pendings(tb: Table, agent: Option<string>): seq<Record> {
    OrderByCreated(Select(tb.rows, tb.order, agent))
  }

  ghost predicate OldestFirst(rs: seq<Record>) {
    forall i, j :: 0 <= i <= j < |rs| ==> Instant(rs[i].proposed.createdAt) <= Instant(rs[j].proposed.createdAt)
  }

  lemma {:induction false} SelectIsWhere(rows: map<RowId, Record>, order: seq<RowId>, agent: Option<string>)
    requires forall id :: id in rows ==> rows[id].id == id
    requires forall i, j :: 0 <= i < j < |order| ==> order[i] != order[j]
    ensures forall r :: multiset(Select(rows, order, agent))[r] == Times(r.id in order && IsWanted(rows, r, agent))
  {
    if order != [] {
      SelectIsWhere(rows, order[1..], agent);
      var rest := Select(rows, order[1..], agent);
      assert order[0] !in order[1..];
      assert order == [order[0]] + order[1..];
      forall r: Record ensures multiset(Select(rows, order, agent))[r] == Times(r.id in order && IsWanted(rows, r, agent)) {
        if order[0] in rows && Wanted(rows[order[0]], agent) {
          assert multiset([rows[order[0]]] + rest) == multiset{rows[order[0]]} + multiset(rest);
        }
      }
    }
  }

  /** r is a row of the table, pending, and of this agent, if one is asked for. */
  predicate PendingFor(rows: map<RowId, Record>, r: Record, agent: Option<string>) {
    r.id in rows && rows[r.id] == r && r.status == Pending && (agent == None || agent == Some(r.proposed.agentId))
  }

  lemma OldestInFront(r: Record, rs: seq<Record>)
    requires OldestFirst(rs) && forall x :: x in rs ==> Instant(r.proposed.createdAt) <= Instant(x.proposed.createdAt)
    ensures OldestFirst([r] + rs)
  {
    hide Instant;
  }

  lemma {:induction false} PlaceAdds(r: Record, rs: seq<Record>)
    ensures multiset(Place(r, rs)) == multiset{r} + multiset(rs)
  {
    hide Iso, Less;
    if rs != [] {
      assert rs == [rs[0]] + rs[1..];
      PlaceAdds(r, rs[1..]);
    }
  }

  lemma {:induction false} PlaceOrders(r: Record, rs: seq<Record>)
    requires Valid(r.proposed.createdAt) && forall x :: x in rs ==> Valid(x.proposed.createdAt)
    requires OldestFirst(rs)
    ensures OldestFirst(Place(r, rs))
  {
    if rs != [] {
      TextOrderIsTimeOrder(rs[0].proposed.createdAt, r.proposed.createdAt);
      FirstIsOldest(rs);
      hide Iso, Less, Instant, Valid;
      if Less(Iso(rs[0].proposed.createdAt), Iso(r.proposed.createdAt)) {
        assert OldestFirst(rs[1..]);
        PlaceOrders(r, rs[1..]);
        hide OldestFirst;
        PlaceAdds(r, rs[1..]);
        InFrontOfPlaced(rs[0], r, rs[1..]);
      } else {
        hide OldestFirst;
        OldestInFront(r, rs);
      }
    }
  }

  lemma InFrontOfPlaced(first: Record, r: Record, rs: seq<Record>)
    requires Instant(first.proposed.createdAt) <= Instant(r.proposed.createdAt) && OldestFirst(Place(r, rs))
    requires forall x :: x in rs ==> Instant(first.proposed.createdAt) <= Instant(x.proposed.createdAt)
    ensures OldestFirst([first] + Place(r, rs))
  {
    hide Instant, OldestFirst;
    PlaceAdds(r, rs);
    hide Place;
    forall x | x in Place(r, rs) ensures Instant(first.proposed.createdAt) <= Instant(x.proposed.createdAt) {
      assert x in multiset(Place(r, rs));
    }
    OldestInFront(first, Place(r, rs));
  }

  lemma FirstIsOldest(rs: seq<Record>)
    requires OldestFirst(rs) && rs != []
    ensures forall x :: x in rs ==> Instant(rs[0].proposed.createdAt) <= Instant(x.proposed.createdAt)
  {
    hide Instant;
  }

  lemma {:induction false} OrderByKeeps(rs: seq<Record>)
    requires forall x :: x in rs ==> Valid(x.proposed.createdAt)
    ensures multiset(OrderByCreated(rs)) == multiset(rs) && OldestFirst(OrderByCreated(rs))
  {
    hide Iso, Less, Instant, Valid;
    if rs != [] {
      assert rs == [rs[0]] + rs[1..];
      OrderByKeeps(rs[1..]);
      forall x | x in OrderByCreated(rs[1..]) ensures Valid(x.proposed.createdAt) {
        assert x in multiset(OrderByCreated(rs[1..]));
      }
      PlaceAdds(rs[0], OrderByCreated(rs[1..]));
      PlaceOrders(rs[0], OrderByCreated(rs[1..]));
    }
  }

  /** `list_pending` returns every pending row of the agent exactly once and nothing else, oldest first in
      time although the statement orders by text. */
  lemma PendingsListed(tb: Table, agent: Option<string>)
    requires Sound(tb)
    ensures forall r :: multiset(Pendings(tb, agent))[r] == if PendingFor(tb.rows, r, agent) then 1 else 0
    ensures OldestFirst(Pendings(tb, agent))
  {
    hide Instant, Valid;
    var selected := Select(tb.rows, tb.order, agent);
    SelectIsWhere(tb.rows, tb.order, agent);
    forall x | x in selected ensures Valid(x.proposed.createdAt) {
      assert multiset(selected)[x] > 0;
      assert x.id in tb.rows && tb.rows[x.id] == x;
    }
    OrderByKeeps(selected);
  }

  function Matching(rows: map<RowId, Record>, order: seq<RowId>, agent: Option<string>): set<RowId> {
    set id | id in order && id in rows && Wanted(rows[id], agent)
  }

  lemma MatchingCons(rows: map<RowId, Record>, first: RowId, rest: seq<RowId>, agent: Option<string>)
    requires first !in rest
    ensures |Matching(rows, [first] + rest, agent)| ==
      |Matching(rows, rest, agent)| + if first in rows && Wanted(rows[first], agent) then 1 else 0
  {
    var all, fewer := Matching(rows, [first] + rest, agent), Matching(rows, rest, agent);
    hide Wanted;
    assert forall id :: id in [first] + rest <==> id == first || id in rest;
    if first in rows && Wanted(rows[first], agent) {
      assert all == fewer + {first};
    } else {
      assert all == fewer;
    }
  }

  lemma {:induction false} SelectCounts(rows: map<RowId, Record>, order: seq<RowId>, agent: Option<string>)
    requires forall i, j :: 0 <= i < j < |order| ==> order[i] != order[j]
    ensures |Select(rows, order, agent)| == |Matching(rows, order, agent)|
  {
    if order != [] {
      SelectCounts(rows, order[1..], agent);
      assert order[0] !in order[1..] && order == [order[0]] + order[1..];
      MatchingCons(rows, order[0], order[1..], agent);
      hide Matching, Wanted;
    }
  }

  /** An agent's pending rows. */
  function PendingIds(tb: Table, agent: string): set<RowId> {
    set id | id in tb.rows && tb.rows[id].status == Pending && tb.rows[id].proposed.agentId == agent
  }

  /** How many rows `list_pending` gives. */
  lemma PendingsCount(tb: Table, agent: string)
    requires Sound(tb)
    ensures |Pendings(tb, Some(agent))| == |PendingIds(tb, agent)|
  {
    hide Instant, Valid, Iso;
    SelectCounts(tb.rows, tb.order, Some(agent));
    OrderByKeepsLength(Select(tb.rows, tb.order, Some(agent)));
    assert Matching(tb.rows, tb.order, Some(agent)) == PendingIds(tb, agent);
    hide Select, OrderByCreated;
  }

  lemma {:induction false} OrderByKeepsLength(rs: seq<Record>)
    ensures |OrderByCreated(rs)| == |rs|
  {
    if rs != [] {
      OrderByKeepsLength(rs[1..]);
      PlaceAdds(rs[0], OrderByCreated(rs[1..]));
      hide Place;
      assert |multiset(OrderByCreated(rs))| == |OrderByCreated(rs)|;
    }
  }

  lemma InsertSound(tb: Table, r: Record)
    requires Sound(tb) && r.id !in tb.rows && Valid(r.proposed.createdAt)
    ensures Sound(Insert(tb, r))
  {
    hide Valid;
    assert r.id !in tb.order;
  }

  lemma CommitSound(tb: Table, id: RowId, status: Status, error: Option<string>)
    requires Sound(tb)
    ensures Sound(Commit(tb, id, status, error))
  {
    hide Valid;
  }

  class SqliteProposalStore {
    var rows: map<RowId, Record>
    var order: seq<RowId>
    var counted: multiset<Status>

    ghost function View(): Table
      reads this
    {
      Table(rows, order, counted)
    }

    ghost predicate Ok()
      reads this
    {
      Sound(View())
    }

    constructor ()
      ensures Ok() && View() == EMPTY_TABLE
    {
      rows, order, counted := map[], [], multiset{};
    }

    /** Inserts a pending row; `id` is the fresh uuid4 and `now` the current time.  A fault after the
        commit raises although the row is there. */
    method Add(id: RowId, now: Stamp, agentId: string, runId: nat, action: string, arguments: Json, rationale: string, fault: Fault)
      returns (added: Result<Record, string>)
      requires Ok() && id !in rows && Valid(now)
      modifies this
      ensures Ok()
      ensures var r := Record(id, Proposed(agentId, runId, action, arguments, rationale, now), Pending, None);
        && added == (if fault.NoFault? then Success(r) else Failure(fault.message))
        && View() == (if fault.BeforeCommit? then old(View()) else Insert(old(View()), r))
    {
      var r := Record(id, Proposed(agentId, runId, action, arguments, rationale, now), Pending, None);
      if fault.BeforeCommit? {
        return Failure(fault.message);
      }
      InsertSound(View(), r);
      rows := rows[id := r];
      order := order + [id];
      if fault.AfterCommit? {
        return Failure(fault.message);
      }
      added := Success(r);
    }

    method ListPending(agent: Option<string>) returns (records: seq<Record>)
      requires Ok()
      ensures records == Pendings(View(), agent)
      ensures forall r :: r in records <==> PendingFor(rows, r, agent)
      ensures OldestFirst(records)
    {
      PendingsListed(View(), agent);
      records := OrderByCreated(Select(rows, order, agent));
      assert forall r :: r in records <==> r in multiset(records);
    }

    method Get(id: RowId) returns (record: Option<Record>)
      requires Ok()
      ensures record == if id in rows then Some(rows[id]) else None
      ensures record.Some? ==> record.value.id == id
    {
      record := if id in rows then Some(rows[id]) else None;
    }

    /** The increment comes after the connection is closed, so a fault after the commit leaves a changed
        row that was not counted. */
    method UpdateStatus(id: RowId, status: Status, error: Option<string>, fault: Fault) returns (raised: Option<string>)
      requires Ok()
      modifies this
      ensures Ok() && raised == fault.Message()
      ensures View() == match fault
        case NoFault => SetStatus(old(View()), id, status, error)
        case BeforeCommit(_) => old(View())
        case AfterCommit(_) => Commit(old(View()), id, status, error)
      ensures id !in old(rows) || fault.BeforeCommit? ==> View() == old(View())
      ensures id in old(rows) && !fault.BeforeCommit? ==>
        rows == old(rows)[id := old(rows)[id].(status := status, error := error)] && order == old(order)
      ensures id in old(rows) ==> counted == if fault.NoFault? then old(counted) + multiset{status} else old(counted)
    {
      CommitSound(View(), id, status, error);
      if fault.BeforeCommit? {
        return Some(fault.message);
      }
      var matched := id in rows;
      if matched {
        rows := rows[id := rows[id].(status := status, error := error)];
      }
      if fault.AfterCommit? {
        return Some(fault.message);
      }
      if matched {
        counted := counted + multiset{status};
      }
      raised := None;
    }
  }
}
