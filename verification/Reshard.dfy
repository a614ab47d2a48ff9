/**
 * The resharding tool: scan every old database, copy the roles whose place changes, verify each
 * copy and optionally delete the source row. Databases are named by their DSN, so a destination
 * may also be one of the scanned sources. A statement that fails, with or without effect, ends the
 * run; a row stream that breaks off does not, and the roles it had not reached are passed over.
 * Roles do not interfere, so the run is specified role by role.
 */
module Reshard {
  import opened Roles
  import opened Shard

  datatype RoleRow = RoleRow(snap: string, version: int, epoch: int)

  type Table = map<int, RoleRow>
  type Sites = map<string, Table>

  /** The rows of one role, by database. */
  type Rows = map<string, RoleRow>

  function Read(sites: Sites, dsn: string): Table {
    if dsn in sites then sites[dsn] else map[]
  }

  function RowsOf(sites: Sites, id: int): Rows {
    map d | d in sites && id in sites[d] :: sites[d][id]
  }

  datatype Plan = Plan(
    oldDSNs: seq<string>, newDSNs: seq<string>, oldOf: int -> int, newOf: int -> int, batch: nat, deleteSource: bool)

  /** Index into a DSN list; negative when the route is, and then indexing panics. */
  function Index(route: int -> int, id: int, n: nat): int {
    if n == 0 then -1 else Rem(route(id), n)
  }

  function Site(dsns: seq<string>, i: int): string {
    if 0 <= i < |dsns| then dsns[i] else ""
  }

  function SourceOf(plan: Plan, id: int): string { Site(plan.oldDSNs, Index(plan.oldOf, id, |plan.oldDSNs|)) }

  function HomeOf(plan: Plan, id: int): string { Site(plan.newDSNs, Index(plan.newOf, id, |plan.newDSNs|)) }

  /** The scan selects a role when its index changes. */
  predicate Selected(plan: Plan, id: int) {
    Index(plan.oldOf, id, |plan.oldDSNs|) != Index(plan.newOf, id, |plan.newDSNs|)
  }

  /** A selected role is passed over when its two places are the same database. */
  predicate Moving(plan: Plan, id: int) {
    Selected(plan, id) && SourceOf(plan, id) != HomeOf(plan, id)
  }

  /* ---------- what the tool does to one role ---------- */

  /** The row of `pool` written over whatever is at the home. */
  function Copied(plan: Plan, id: int, rows: Rows, pool: string): Rows
    requires pool in rows
  {
    rows[HomeOf(plan, id) := rows[pool].(epoch := rows[pool].epoch + 1)]
  }

  /** The role's rows after its row in `pool` was read and treated. */
  function Treated(plan: Plan, id: int, rows: Rows, pool: string): Rows {
    if pool !in rows || !Moving(plan, id) then rows
    else if plan.deleteSource && pool != HomeOf(plan, id) then Copied(plan, id, rows, pool) - {pool}
    else Copied(plan, id, rows, pool)
  }

  /** Which rows the scan of each old database reaches before its stream ends, by position and role. */
  type Reach = (nat, int) -> bool

  /** The role's rows after the first p old databases. */
  function After(plan: Plan, reach: Reach, id: int, rows: Rows, p: nat): Rows
    requires p <= |plan.oldDSNs|
  {
    if p == 0 then rows
    else
      var before := After(plan, reach, id, rows, p - 1);
      if reach(p - 1, id) then Treated(plan, id, before, plan.oldDSNs[p - 1]) else before
  }

  /** Where a run may stop: between two databases, or with the copy made and the source not deleted. */
  ghost predicate StopsAt(plan: Plan, reach: Reach, id: int, rows: Rows, now: Rows) {
    exists p :: 0 <= p <= |plan.oldDSNs| && Between(plan, reach, id, rows, now, p)
  }

  predicate Between(plan: Plan, reach: Reach, id: int, rows: Rows, now: Rows, p: nat)
    requires p <= |plan.oldDSNs|
  {
    var before := After(plan, reach, id, rows, p);
    now == before || (p < |plan.oldDSNs| && plan.oldDSNs[p] in before && now == Copied(plan, id, before, plan.oldDSNs[p]))
  }

  predicate SameData(a: RoleRow, b: RoleRow) { a.snap == b.snap && a.version == b.version }

  /** The role is still stored, and every stored row has the snapshot and version of a row it had. */
  predicate Kept(rows: Rows, now: Rows) {
    (rows != map[] ==> now != map[]) && forall d :: d in now ==> exists e :: e in rows && SameData(now[d], rows[e])
  }

  lemma CopyKeeps(plan: Plan, id: int, rows: Rows, pool: string)
    requires pool in rows
    ensures Kept(rows, Copied(plan, id, rows, pool))
  {
    assert HomeOf(plan, id) in Copied(plan, id, rows, pool);
  }

  lemma TreatKeeps(plan: Plan, id: int, rows: Rows, pool: string)
    ensures Kept(rows, Treated(plan, id, rows, pool))
  {
    if pool in rows && Moving(plan, id) {
      CopyKeeps(plan, id, rows, pool);
      assert HomeOf(plan, id) in Treated(plan, id, rows, pool);
    }
  }

  lemma KeptTransitive(a: Rows, b: Rows, c: Rows)
    requires Kept(a, b) && Kept(b, c)
    ensures Kept(a, c)
  {
  }

  lemma {:induction false} AfterKeeps(plan: Plan, reach: Reach, id: int, rows: Rows, p: nat)
    requires p <= |plan.oldDSNs|
    ensures Kept(rows, After(plan, reach, id, rows, p))
  {
    if p > 0 {
      AfterKeeps(plan, reach, id, rows, p - 1);
      TreatKeepsOrigin(plan, id, rows, After(plan, reach, id, rows, p - 1), plan.oldDSNs[p - 1]);
    } else {
      KeptItself(rows);
    }
  }

  lemma KeptItself(rows: Rows)
    ensures Kept(rows, rows)
  {
  }

  lemma TreatKeepsOrigin(plan: Plan, id: int, rows: Rows, before: Rows, pool: string)
    requires Kept(rows, before)
    ensures Kept(rows, Treated(plan, id, before, pool))
  {
    TreatKeeps(plan, id, before, pool);
    KeptTransitive(rows, before, Treated(plan, id, before, pool));
  }

  /** Wherever a run stops, the role is not lost. */
  lemma StopKeeps(plan: Plan, reach: Reach, id: int, rows: Rows, now: Rows)
    requires StopsAt(plan, reach, id, rows, now)
    ensures Kept(rows, now)
  {
    var p :| 0 <= p <= |plan.oldDSNs| && Between(plan, reach, id, rows, now, p);
    AfterKeeps(plan, reach, id, rows, p);
    var before := After(plan, reach, id, rows, p);
    if now != before {
      CopyKeeps(plan, id, before, plan.oldDSNs[p]);
      KeptTransitive(rows, before, now);
    }
  }

  /** Some scan among the first p reaches a row that the role had at the start. */
  predicate Touched(plan: Plan, reach: Reach, id: int, rows: Rows, p: nat)
    requires p <= |plan.oldDSNs|
  {
    exists q :: 0 <= q < p && reach(q, id) && plan.oldDSNs[q] in rows
  }

  predicate TouchedAt(plan: Plan, reach: Reach, id: int, d: string, p: nat)
    requires p <= |plan.oldDSNs|
  {
    exists q :: 0 <= q < p && reach(q, id) && plan.oldDSNs[q] == d
  }

  lemma TouchedMore(plan: Plan, reach: Reach, id: int, rows: Rows, p: nat)
    requires 0 < p <= |plan.oldDSNs|
    ensures Touched(plan, reach, id, rows, p)
         <==> Touched(plan, reach, id, rows, p - 1) || (reach(p - 1, id) && plan.oldDSNs[p - 1] in rows)
  {
  }

  lemma TouchedAtMore(plan: Plan, reach: Reach, id: int, d: string, p: nat)
    requires 0 < p <= |plan.oldDSNs|
    ensures TouchedAt(plan, reach, id, d, p)
         <==> TouchedAt(plan, reach, id, d, p - 1) || (reach(p - 1, id) && plan.oldDSNs[p - 1] == d)
  {
  }

  /** Away from its home a role's row stays as it was, until its scan reaches it and it is deleted. */
  lemma {:induction false} ElsewhereIff(plan: Plan, reach: Reach, id: int, rows: Rows, d: string, p: nat)
    requires p <= |plan.oldDSNs| && d != HomeOf(plan, id)
    ensures var now := After(plan, reach, id, rows, p);
            && (d in now <==> d in rows && !(plan.deleteSource && Moving(plan, id) && TouchedAt(plan, reach, id, d, p)))
            && (d in now ==> now[d] == rows[d])
  {
    if p > 0 {
      ElsewhereIff(plan, reach, id, rows, d, p - 1);
      TouchedAtMore(plan, reach, id, d, p);
    }
  }

  /** A role is at its home after a run if and only if it was there before, or it moves and the scan of
      some database that had it reached its row. */
  lemma {:induction false} HomeIff(plan: Plan, reach: Reach, id: int, rows: Rows, p: nat)
    requires p <= |plan.oldDSNs|
    ensures HomeOf(plan, id) in After(plan, reach, id, rows, p)
         <==> HomeOf(plan, id) in rows || (Moving(plan, id) && Touched(plan, reach, id, rows, p))
  {
    if p > 0 {
      var pool, home := plan.oldDSNs[p - 1], HomeOf(plan, id);
      HomeIff(plan, reach, id, rows, p - 1);
      TouchedMore(plan, reach, id, rows, p);
      if pool != home {
        ElsewhereIff(plan, reach, id, rows, pool, p - 1);
        if pool in rows && TouchedAt(plan, reach, id, pool, p - 1) {
          TouchedThere(plan, reach, id, rows, pool, p - 1);
        }
      }
    }
  }

  lemma TouchedThere(plan: Plan, reach: Reach, id: int, rows: Rows, d: string, p: nat)
    requires p <= |plan.oldDSNs| && d in rows && TouchedAt(plan, reach, id, d, p)
    ensures Touched(plan, reach, id, rows, p)
  {
    var q :| 0 <= q < p && reach(q, id) && plan.oldDSNs[q] == d;
    assert reach(q, id) && plan.oldDSNs[q] in rows;
  }

  /* ---------- when the newest row is lost ---------- */

  /** After a role stored at its source and its home was moved, only the source's data is left. */
  lemma {:induction false} SourceWins(plan: Plan, reach: Reach, id: int, rows: Rows, source: string, p: nat)
    requires p <= |plan.oldDSNs| && Moving(plan, id) && source != HomeOf(plan, id)
    requires rows.Keys == {source, HomeOf(plan, id)}
    ensures var now, home := After(plan, reach, id, rows, p), HomeOf(plan, id);
            && now.Keys <= {source, home} && home in now
            && (source in now ==> now[source] == rows[source])
            && SameData(now[home], if TouchedAt(plan, reach, id, source, p) then rows[source] else rows[home])
  {
    if p > 0 {
      SourceWins(plan, reach, id, rows, source, p - 1);
      TouchedAtMore(plan, reach, id, source, p);
      ElsewhereIff(plan, reach, id, rows, source, p - 1);
    }
  }

  predicate HasVersion(rows: Rows, version: int) { exists d :: d in rows && rows[d].version == version }

  /** A role is stored at its source and, newer or not, at its home. The home's version survives the run
      if and only if the source has that version too or its row was not reached: the tool overwrites the
      home without looking at it. */
  lemma HomeVersionSurvivesIff(plan: Plan, reach: Reach, id: int, rows: Rows, source: string)
    requires Moving(plan, id) && source != HomeOf(plan, id) && rows.Keys == {source, HomeOf(plan, id)}
    ensures HasVersion(After(plan, reach, id, rows, |plan.oldDSNs|), rows[HomeOf(plan, id)].version)
         <==> rows[source].version == rows[HomeOf(plan, id)].version
              || !TouchedAt(plan, reach, id, source, |plan.oldDSNs|)
  {
    var now, home := After(plan, reach, id, rows, |plan.oldDSNs|), HomeOf(plan, id);
    SourceWins(plan, reach, id, rows, source, |plan.oldDSNs|);
    assert home in now;
    forall d | d in now ensures d == source || d == home {}
  }

  /* ---------- one role in the databases ---------- */

  function Inserted(sites: Sites, dst: string, id: int, row: RoleRow): Sites {
    sites[dst := Read(sites, dst)[id := row]]
  }

  function Deleted(sites: Sites, pool: string, id: int): Sites {
    sites[pool := Read(sites, pool) - {id}]
  }

  lemma InsertedRows(sites: Sites, dst: string, id: int, row: RoleRow, j: int)
    ensures RowsOf(Inserted(sites, dst, id, row), j) == if j == id then RowsOf(sites, j)[dst := row] else RowsOf(sites, j)
  {
  }

  lemma DeletedRows(sites: Sites, pool: string, id: int, j: int)
    ensures RowsOf(Deleted(sites, pool, id), j) == if j == id then RowsOf(sites, j) - {pool} else RowsOf(sites, j)
  {
  }

  /** Nobody but `id` is affected. */
  ghost predicate OnlyRole(id: int, before: Sites, after: Sites) {
    forall j :: j != id ==> RowsOf(after, j) == RowsOf(before, j)
  }

  /** No statement fails, every index is legal, and with deletion no moving role's home is scanned. */
  ghost predicate Smooth(plan: Plan, net: nat -> Net) {
    && (forall n :: net(n) == Answered)
    && Routable(plan) && plan.oldDSNs != [] && plan.newDSNs != []
    && (plan.deleteSource ==> forall id :: Moving(plan, id) ==> HomeOf(plan, id) !in plan.oldDSNs)
  }

  /** Routes never give a negative index. */
  ghost predicate Routable(plan: Plan) {
    forall id :: plan.oldOf(id) >= 0 && plan.newOf(id) >= 0
  }

  /** What the treatment of one row may leave: nothing done, the copy only, or all of it. */
  predicate Partly(plan: Plan, id: int, rows: Rows, now: Rows, pool: string) {
    now == rows || now == Treated(plan, id, rows, pool) || (pool in rows && now == Copied(plan, id, rows, pool))
  }

  /** Copy one scanned row to its home, read it back, and delete the scanned row if asked to. `net`
      says how each statement meets the network. */
  method MoveOne(plan: Plan, sites: Sites, pool: string, id: int, row: RoleRow, net: nat -> Net, at: nat)
    returns (ok: bool, after: Sites, next: nat)
    requires pool in plan.oldDSNs && Selected(plan, id) && id in Read(sites, pool) && row == Read(sites, pool)[id]
    ensures OnlyRole(id, sites, after)
    ensures if ok then RowsOf(after, id) == Treated(plan, id, RowsOf(sites, id), pool)
            else Partly(plan, id, RowsOf(sites, id), RowsOf(after, id), pool)
    ensures ok && Moving(plan, id) && plan.deleteSource ==> pool != HomeOf(plan, id)
    ensures Smooth(plan, net) ==> ok
  {
    after, next := sites, at;
    var dst := Index(plan.newOf, id, |plan.newDSNs|);
    var src := Index(plan.oldOf, id, |plan.oldDSNs|);
    if !(0 <= dst < |plan.newDSNs|) || !(0 <= src < |plan.oldDSNs|) { return false, after, next; }
    if plan.oldDSNs[src] == plan.newDSNs[dst] { return true, after, next; }
    var home := plan.newDSNs[dst];
    if net(next) == NeverRan { return false, after, next; }
    after := Inserted(after, home, id, row.(epoch := row.epoch + 1));
    forall j ensures RowsOf(after, j) == if j == id then Copied(plan, id, RowsOf(sites, id), pool) else RowsOf(sites, j) {
      InsertedRows(sites, home, id, row.(epoch := row.epoch + 1), j);
    }
    if net(next) != Answered { return false, after, next; }
    next := next + 1;
    if net(next) != Answered { return false, after, next; }
    next := next + 1;
    var copied := Read(after, home)[id];
    if copied.version != row.version || copied.epoch != row.epoch + 1 || copied.snap != row.snap {
      return false, after, next;
    }
    if plan.deleteSource {
      if net(next) == NeverRan { return false, after, next; }
      var source := Read(after, pool);
      var affected := id in source && source[id].version == row.version && source[id].epoch == row.epoch;
      assert pool != home ==> affected;
      if affected {
        ghost var copies := after;
        after := Deleted(after, pool, id);
        forall j ensures RowsOf(after, j) == if j == id then RowsOf(copies, j) - {pool} else RowsOf(copies, j) {
          DeletedRows(copies, pool, id, j);
        }
      }
      if net(next) != Answered || !affected { return false, after, next; }
      next := next + 1;
    }
    return true, after, next;
  }

  /* ---------- one database ---------- */

  datatype Scanned = Scanned(id: int, row: RoleRow)

  predicate OncePerRole(rows: seq<Scanned>) {
    forall i, j :: 0 <= i < j < |rows| ==> rows[i].id != rows[j].id
  }

  lemma Inhabited(ids: set<int>)
    requires ids != {}
    ensures exists id :: id in ids
  {
    if forall id :: id !in ids {
      assert false;
    }
  }

  /** The rows of one database that the stream gives before it ends or breaks off, in some order. */
  method Scan(table: Table, reached: int -> bool) returns (rows: seq<Scanned>)
    ensures OncePerRole(rows)
    ensures forall x :: x in rows <==> x.id in table && table[x.id] == x.row && reached(x.id)
  {
    rows := [];
    var todo: set<int> := table.Keys;
    while todo != {}
      invariant todo <= table.Keys && OncePerRole(rows)
      invariant forall x :: x in rows <==> x.id in table && x.id !in todo && table[x.id] == x.row && reached(x.id)
      decreases todo
    {
      Inhabited(todo);
      var id :| id in todo;
      if reached(id) {
        assert forall i :: 0 <= i < |rows| ==> rows[i] in rows;
        rows := rows + [Scanned(id, table[id])];
      }
      todo := todo - {id};
    }
  }

  method Select(plan: Plan, rows: seq<Scanned>) returns (toMove: seq<Scanned>)
    requires OncePerRole(rows)
    ensures OncePerRole(toMove) && forall x :: x in toMove <==> x in rows && Selected(plan, x.id)
  {
    toMove := [];
    var i := 0;
    while i < |rows|
      invariant i <= |rows| && OncePerRole(toMove)
      invariant forall x :: x in toMove <==> x in rows[..i] && Selected(plan, x.id)
    {
      if Index(plan.oldOf, rows[i].id, |plan.oldDSNs|) != Index(plan.newOf, rows[i].id, |plan.newDSNs|) {
        assert forall k :: 0 <= k < |toMove| ==> toMove[k] in toMove;
        toMove := toMove + [rows[i]];
      }
      assert rows[..i + 1] == rows[..i] + [rows[i]];
      i := i + 1;
    }
    assert rows[..i] == rows;
  }

  function IdsOf(rows: seq<Scanned>): set<int> { set x | x in rows :: x.id }

  /** The roles of `done` were treated, the others not yet. */
  ghost predicate Progress(plan: Plan, pool: string, first: Sites, now: Sites, done: set<int>) {
    forall j :: RowsOf(now, j) == if j in done then Treated(plan, j, RowsOf(first, j), pool) else RowsOf(first, j)
  }

  /** The roles of `ids` were treated, or not, or stopped half way, and no other was touched. */
  ghost predicate Stopped(plan: Plan, pool: string, first: Sites, now: Sites, ids: set<int>) {
    forall j :: if j in ids then Partly(plan, j, RowsOf(first, j), RowsOf(now, j), pool)
                else RowsOf(now, j) == RowsOf(first, j)
  }

  /** The scanned rows are what the database held, of selected roles, one each. */
  ghost predicate Genuine(plan: Plan, first: Sites, pool: string, toMove: seq<Scanned>) {
    pool in plan.oldDSNs && OncePerRole(toMove)
    && forall x :: x in toMove ==> Selected(plan, x.id) && pool in RowsOf(first, x.id) && RowsOf(first, x.id)[pool] == x.row
  }

  method MoveNext(plan: Plan, ghost first: Sites, sites: Sites, pool: string, toMove: seq<Scanned>, k: nat,
                  net: nat -> Net, at: nat)
    returns (ok: bool, after: Sites, next: nat)
    requires k < |toMove| && Genuine(plan, first, pool, toMove) && Progress(plan, pool, first, sites, IdsOf(toMove[..k]))
    ensures if ok then Progress(plan, pool, first, after, IdsOf(toMove[..k + 1])) else Stopped(plan, pool, first, after, IdsOf(toMove))
    ensures Smooth(plan, net) ==> ok
  {
    var x := toMove[k];
    NotYet(toMove, k);
    assert x in toMove;
    assert RowsOf(sites, x.id) == RowsOf(first, x.id);
    assert IdsOf(toMove[..k]) <= IdsOf(toMove);
    ok, after, next := MoveOne(plan, sites, pool, x.id, x.row, net, at);
  }

  /** The k-th role is not among the first k, and completes the first k + 1. */
  lemma NotYet(toMove: seq<Scanned>, k: nat)
    requires k < |toMove| && OncePerRole(toMove)
    ensures toMove[k].id !in IdsOf(toMove[..k])
    ensures IdsOf(toMove[..k + 1]) == IdsOf(toMove[..k]) + {toMove[k].id}
  {
    assert toMove[..k + 1] == toMove[..k] + [toMove[k]];
  }

  method MoveBatch(plan: Plan, ghost first: Sites, sites: Sites, pool: string, toMove: seq<Scanned>, start: nat, end: nat,
                   net: nat -> Net, at: nat)
    returns (ok: bool, after: Sites, next: nat)
    requires start <= end <= |toMove| && Genuine(plan, first, pool, toMove)
    requires Progress(plan, pool, first, sites, IdsOf(toMove[..start]))
    ensures if ok then Progress(plan, pool, first, after, IdsOf(toMove[..end])) else Stopped(plan, pool, first, after, IdsOf(toMove))
    ensures Smooth(plan, net) ==> ok
  {
    after, next, ok := sites, at, true;
    var k := start;
    while k < end
      invariant start <= k <= end && ok
      invariant Progress(plan, pool, first, after, IdsOf(toMove[..k]))
    {
      ok, after, next := MoveNext(plan, first, after, pool, toMove, k, net, next);
      if !ok { return; }
      k := k + 1;
    }
  }

  /** The batches of one database. */
  method MoveAll(plan: Plan, sites: Sites, pool: string, toMove: seq<Scanned>, net: nat -> Net, at: nat)
    returns (ok: bool, after: Sites, next: nat)
    requires plan.batch > 0 && Genuine(plan, sites, pool, toMove)
    ensures if ok then Progress(plan, pool, sites, after, IdsOf(toMove)) else Stopped(plan, pool, sites, after, IdsOf(toMove))
    ensures Smooth(plan, net) ==> ok
  {
    after, next, ok := sites, at, true;
    var i := 0;
    while i < |toMove|
      invariant ok && Progress(plan, pool, sites, after, IdsOf(if i <= |toMove| then toMove[..i] else toMove))
      decreases |toMove| - i
    {
      var end := if i + plan.batch > |toMove| then |toMove| else i + plan.batch;
      ok, after, next := MoveBatch(plan, sites, after, pool, toMove, i, end, net, next);
      if !ok { return; }
      assert end == |toMove| ==> toMove[..end] == toMove;
      i := i + plan.batch;
    }
    assert i == |toMove| ==> toMove[..i] == toMove;
  }

  /* ---------- the whole run ---------- */

  /** Every role is where its own specification has it after p databases. */
  ghost predicate AfterPools(plan: Plan, reach: Reach, first: Sites, now: Sites, p: nat)
    requires p <= |plan.oldDSNs|
  {
    forall id :: RowsOf(now, id) == After(plan, reach, id, RowsOf(first, id), p)
  }

  ghost predicate AllStopAt(plan: Plan, reach: Reach, first: Sites, now: Sites) {
    forall id :: StopsAt(plan, reach, id, RowsOf(first, id), RowsOf(now, id))
  }

  lemma RowsAtPool(sites: Sites, pool: string, id: int)
    ensures pool in RowsOf(sites, id) <==> id in Read(sites, pool)
    ensures id in Read(sites, pool) ==> RowsOf(sites, id)[pool] == Read(sites, pool)[id]
  {
  }

  /** A role of the database that was not scanned, or not selected, is not treated. */
  lemma PoolIsTreated(plan: Plan, reach: Reach, first: Sites, before: Sites, after: Sites, p: nat, toMove: seq<Scanned>)
    requires p < |plan.oldDSNs| && AfterPools(plan, reach, first, before, p)
    requires forall x :: x in toMove <==>
               x.id in Read(before, plan.oldDSNs[p]) && Read(before, plan.oldDSNs[p])[x.id] == x.row
               && reach(p, x.id) && Selected(plan, x.id)
    requires Progress(plan, plan.oldDSNs[p], before, after, IdsOf(toMove))
    ensures AfterPools(plan, reach, first, after, p + 1)
  {
    forall id ensures RowsOf(after, id) == After(plan, reach, id, RowsOf(first, id), p + 1) {
      RowsAtPool(before, plan.oldDSNs[p], id);
      if reach(p, id) && Selected(plan, id) && id in Read(before, plan.oldDSNs[p]) {
        assert Scanned(id, Read(before, plan.oldDSNs[p])[id]) in toMove;
      }
    }
  }

  lemma PoolIsStopped(plan: Plan, reach: Reach, first: Sites, before: Sites, after: Sites, p: nat, toMove: seq<Scanned>)
    requires p < |plan.oldDSNs| && AfterPools(plan, reach, first, before, p)
    requires forall x :: x in toMove ==> reach(p, x.id)
    requires Stopped(plan, plan.oldDSNs[p], before, after, IdsOf(toMove))
    ensures AllStopAt(plan, reach, first, after)
  {
    forall id ensures StopsAt(plan, reach, id, RowsOf(first, id), RowsOf(after, id)) {
      if id in IdsOf(toMove) && RowsOf(after, id) == Treated(plan, id, RowsOf(before, id), plan.oldDSNs[p]) {
        assert Between(plan, reach, id, RowsOf(first, id), RowsOf(after, id), p + 1);
      } else {
        assert Between(plan, reach, id, RowsOf(first, id), RowsOf(after, id), p);
      }
    }
  }

  lemma PoolsStop(plan: Plan, reach: Reach, first: Sites, now: Sites, p: nat)
    requires p <= |plan.oldDSNs| && AfterPools(plan, reach, first, now, p)
    ensures AllStopAt(plan, reach, first, now)
  {
    forall id ensures StopsAt(plan, reach, id, RowsOf(first, id), RowsOf(now, id)) {
      assert Between(plan, reach, id, RowsOf(first, id), RowsOf(now, id), p);
    }
  }

  method DoPool(plan: Plan, reach: Reach, ghost first: Sites, sites: Sites, p: nat, net: nat -> Net, at: nat)
    returns (ok: bool, after: Sites, next: nat)
    requires plan.batch > 0 && p < |plan.oldDSNs| && AfterPools(plan, reach, first, sites, p)
    ensures if ok then AfterPools(plan, reach, first, after, p + 1) else AllStopAt(plan, reach, first, after)
    ensures Smooth(plan, net) ==> ok
  {
    PoolsStop(plan, reach, first, sites, p);
    if net(at) != Answered { return false, sites, at; }
    var rows := Scan(Read(sites, plan.oldDSNs[p]), id => reach(p, id));
    var toMove := Select(plan, rows);
    ScannedAreGenuine(plan, sites, plan.oldDSNs[p], toMove);
    ok, after, next := MoveAll(plan, sites, plan.oldDSNs[p], toMove, net, at + 1);
    if ok {
      PoolIsTreated(plan, reach, first, sites, after, p, toMove);
    } else {
      PoolIsStopped(plan, reach, first, sites, after, p, toMove);
    }
  }

  lemma ScannedAreGenuine(plan: Plan, sites: Sites, pool: string, toMove: seq<Scanned>)
    requires pool in plan.oldDSNs && OncePerRole(toMove)
    requires forall x :: x in toMove ==> x.id in Read(sites, pool) && Read(sites, pool)[x.id] == x.row && Selected(plan, x.id)
    ensures Genuine(plan, sites, pool, toMove)
  {
    forall x | x in toMove ensures pool in RowsOf(sites, x.id) && RowsOf(sites, x.id)[pool] == x.row {
      RowsAtPool(sites, pool, x.id);
    }
  }

  /** Every role is still stored, with the snapshot and version of rows it had. */
  ghost predicate NoneLost(first: Sites, now: Sites) {
    forall id :: Kept(RowsOf(first, id), RowsOf(now, id))
  }

  /** The role is at its home. */
  predicate AtHome(plan: Plan, sites: Sites, id: int) { HomeOf(plan, id) in RowsOf(sites, id) }

  /** The role moves, and the scan of some old database that had it reached its row. */
  predicate Reached(plan: Plan, reach: Reach, sites: Sites, id: int) {
    Moving(plan, id) && Touched(plan, reach, id, RowsOf(sites, id), |plan.oldDSNs|)
  }

  /**
   * `reach` says which rows each scan gives before its stream ends; a scan that breaks off is taken for
   * complete. At every exit, wherever a statement failed and whether or not it took effect, every role
   * is still stored with the snapshot and version of a row it had. After a run that succeeds, every
   * role's rows are exactly those of its specification: it is at its home in the new layout if and only
   * if it was there before, or it moves and a scan reached it; and it is gone from a database other than
   * its home exactly if deletion is on, it moves and the scan of that database reached it. Without
   * deletion no row is ever removed. A run in which no statement fails succeeds, unless with deletion it
   * scans the home of a moving role.
   */
  method RunExecute(plan: Plan, reach: Reach, sites: Sites, net: nat -> Net) returns (ok: bool, after: Sites)
    requires plan.batch > 0
    ensures NoneLost(sites, after)
    ensures if ok then AfterPools(plan, reach, sites, after, |plan.oldDSNs|) else AllStopAt(plan, reach, sites, after)
    ensures ok ==> forall id :: AtHome(plan, after, id) <==> AtHome(plan, sites, id) || Reached(plan, reach, sites, id)
    ensures ok ==> forall id, d :: d != HomeOf(plan, id) ==>
              (d in RowsOf(after, id) <==> d in RowsOf(sites, id) && !Removed(plan, reach, id, d))
    ensures !plan.deleteSource ==> forall id :: RowsOf(sites, id).Keys <= RowsOf(after, id).Keys
    ensures ok ==> plan.oldDSNs != [] && plan.newDSNs != []
    ensures Smooth(plan, net) ==> ok
  {
    PoolsStop(plan, reach, sites, sites, 0);
    if |plan.oldDSNs| == 0 || |plan.newDSNs| == 0 {
      StopsAreSafe(plan, reach, sites, sites);
      return false, sites;
    }
    ok, after := DoPools(plan, reach, sites, net);
    if ok {
      PoolsStop(plan, reach, sites, after, |plan.oldDSNs|);
      SuccessMeans(plan, reach, sites, after);
    }
    StopsAreSafe(plan, reach, sites, after);
  }

  /** The loop over the old databases. */
  method DoPools(plan: Plan, reach: Reach, sites: Sites, net: nat -> Net) returns (ok: bool, after: Sites)
    requires plan.batch > 0
    ensures if ok then AfterPools(plan, reach, sites, after, |plan.oldDSNs|) else AllStopAt(plan, reach, sites, after)
    ensures Smooth(plan, net) ==> ok
  {
    ok, after := true, sites;
    var p, next := 0, 0;
    while p < |plan.oldDSNs|
      invariant p <= |plan.oldDSNs| && ok && AfterPools(plan, reach, sites, after, p)
    {
      ok, after, next := DoPool(plan, reach, sites, after, p, net, next);
      if !ok { return; }
      p := p + 1;
    }
  }

  /** What success means for every role, at its home and elsewhere. */
  lemma SuccessMeans(plan: Plan, reach: Reach, first: Sites, now: Sites)
    requires AfterPools(plan, reach, first, now, |plan.oldDSNs|)
    ensures forall id :: AtHome(plan, now, id) <==> AtHome(plan, first, id) || Reached(plan, reach, first, id)
    ensures forall id, d :: d != HomeOf(plan, id) ==>
              (d in RowsOf(now, id) <==> d in RowsOf(first, id) && !Removed(plan, reach, id, d))
  {
    forall id ensures AtHome(plan, now, id) <==> AtHome(plan, first, id) || Reached(plan, reach, first, id) {
      HomeIff(plan, reach, id, RowsOf(first, id), |plan.oldDSNs|);
    }
    forall id, d | d != HomeOf(plan, id)
      ensures d in RowsOf(now, id) <==> d in RowsOf(first, id) && !Removed(plan, reach, id, d)
    {
      ElsewhereIff(plan, reach, id, RowsOf(first, id), d, |plan.oldDSNs|);
    }
  }

  /** With deletion, a moving role leaves every database whose scan reached it. */
  predicate Removed(plan: Plan, reach: Reach, id: int, d: string) {
    plan.deleteSource && Moving(plan, id) && TouchedAt(plan, reach, id, d, |plan.oldDSNs|)
  }

  lemma CopyOnlyRemovesNothing(plan: Plan, reach: Reach, first: Sites, now: Sites)
    requires AllStopAt(plan, reach, first, now) && !plan.deleteSource
    ensures forall id :: RowsOf(first, id).Keys <= RowsOf(now, id).Keys
  {
    forall id ensures RowsOf(first, id).Keys <= RowsOf(now, id).Keys {
      var p :| 0 <= p <= |plan.oldDSNs| && Between(plan, reach, id, RowsOf(first, id), RowsOf(now, id), p);
      CopiesGrow(plan, reach, id, RowsOf(first, id), p);
    }
  }

  lemma {:induction false} CopiesGrow(plan: Plan, reach: Reach, id: int, rows: Rows, p: nat)
    requires p <= |plan.oldDSNs| && !plan.deleteSource
    ensures rows.Keys <= After(plan, reach, id, rows, p).Keys
  {
    if p > 0 {
      CopiesGrow(plan, reach, id, rows, p - 1);
    }
  }

  lemma StopsLoseNobody(plan: Plan, reach: Reach, first: Sites, now: Sites)
    requires AllStopAt(plan, reach, first, now)
    ensures NoneLost(first, now)
  {
    forall id ensures Kept(RowsOf(first, id), RowsOf(now, id)) {
      StopKeeps(plan, reach, id, RowsOf(first, id), RowsOf(now, id));
    }
  }

  /** What holds wherever a run stops. */
  lemma StopsAreSafe(plan: Plan, reach: Reach, first: Sites, now: Sites)
    requires AllStopAt(plan, reach, first, now)
    ensures NoneLost(first, now)
    ensures !plan.deleteSource ==> forall id :: RowsOf(first, id).Keys <= RowsOf(now, id).Keys
  {
    StopsLoseNobody(plan, reach, first, now);
    if !plan.deleteSource {
      CopyOnlyRemovesNothing(plan, reach, first, now);
    }
  }

  /* ---------- layouts ---------- */

  /** An index common to both lists names the same database. */
  predicate Aligned(plan: Plan) {
    forall i :: 0 <= i < |plan.oldDSNs| && i < |plan.newDSNs| ==> plan.oldDSNs[i] == plan.newDSNs[i]
  }

  /** Every scan of an old database gives all its rows. */
  ghost predicate AllRead(plan: Plan, reach: Reach) {
    forall p, id :: 0 <= p < |plan.oldDSNs| ==> reach(p, id)
  }

  lemma AlignedMoves(plan: Plan, sites: Sites, id: int)
    requires plan.oldDSNs != [] && plan.newDSNs != [] && plan.oldOf(id) >= 0 && plan.newOf(id) >= 0 && Aligned(plan)
    requires SourceOf(plan, id) in RowsOf(sites, id)
    ensures AtHome(plan, sites, id) || Moving(plan, id)
    ensures SourceOf(plan, id) in plan.oldDSNs
  {
    assert 0 <= Index(plan.oldOf, id, |plan.oldDSNs|) < |plan.oldDSNs|;
    assert 0 <= Index(plan.newOf, id, |plan.newDSNs|) < |plan.newDSNs|;
  }

  /** Lists that agree where they overlap: after success a role that started where the old route says is
      home if and only if it was home before or a scan reached it; so all are, if every scan was read to
      its end. */
  method ReshardAligned(plan: Plan, reach: Reach, sites: Sites, net: nat -> Net) returns (ok: bool, after: Sites)
    requires plan.batch > 0 && Routable(plan) && Aligned(plan)
    ensures NoneLost(sites, after)
    ensures ok ==> forall id :: SourceOf(plan, id) in RowsOf(sites, id) ==>
              (AtHome(plan, after, id)
               <==> AtHome(plan, sites, id) || Touched(plan, reach, id, RowsOf(sites, id), |plan.oldDSNs|))
    ensures ok && AllRead(plan, reach) ==> forall id :: SourceOf(plan, id) in RowsOf(sites, id) ==> AtHome(plan, after, id)
  {
    ok, after := RunExecute(plan, reach, sites, net);
    if ok {
      forall id | SourceOf(plan, id) in RowsOf(sites, id)
        ensures AtHome(plan, after, id)
                <==> AtHome(plan, sites, id) || Touched(plan, reach, id, RowsOf(sites, id), |plan.oldDSNs|)
        ensures AllRead(plan, reach) ==> AtHome(plan, after, id)
      {
        AlignedMoves(plan, sites, id);
        if AllRead(plan, reach) {
          ReadIsTouched(plan, reach, id, RowsOf(sites, id), SourceOf(plan, id));
        }
      }
    }
  }

  lemma ReadIsTouched(plan: Plan, reach: Reach, id: int, rows: Rows, d: string)
    requires AllRead(plan, reach) && d in plan.oldDSNs && d in rows
    ensures Touched(plan, reach, id, rows, |plan.oldDSNs|)
  {
    var q :| 0 <= q < |plan.oldDSNs| && plan.oldDSNs[q] == d;
    assert reach(q, id) && plan.oldDSNs[q] in rows;
  }

  /** The tool with modulus routing, counts equal to the list lengths and lists that agree where they
      overlap: success puts every role at its shard in the new layout, if every scan was read to its end. */
  method ReshardByModulus(oldDSNs: seq<string>, newDSNs: seq<string>, batch: nat, deleteSource: bool,
                          reach: Reach, sites: Sites, net: nat -> Net)
    returns (ok: bool, after: Sites)
    requires batch > 0
    requires forall i :: 0 <= i < |oldDSNs| && i < |newDSNs| ==> oldDSNs[i] == newDSNs[i]
    ensures NoneLost(sites, after)
    ensures ok ==> oldDSNs != [] && newDSNs != []
    ensures ok ==> forall id :: oldDSNs[ForRole(id, |oldDSNs|)] in RowsOf(sites, id)
                                && (forall p :: 0 <= p < |oldDSNs| ==> reach(p, id)) ==>
              newDSNs[ForRole(id, |newDSNs|)] in RowsOf(after, id)
  {
    var plan := Plan(oldDSNs, newDSNs, id => ForRole(id, |oldDSNs|), id => ForRole(id, |newDSNs|), batch, deleteSource);
    if |oldDSNs| == 0 || |newDSNs| == 0 {
      forall id ensures Kept(RowsOf(sites, id), RowsOf(sites, id)) {
        KeptItself(RowsOf(sites, id));
      }
      return false, sites;
    }
    ok, after := ReshardAligned(plan, reach, sites, net);
    if ok {
      forall id | oldDSNs[ForRole(id, |oldDSNs|)] in RowsOf(sites, id) && forall p :: 0 <= p < |oldDSNs| ==> reach(p, id)
        ensures newDSNs[ForRole(id, |newDSNs|)] in RowsOf(after, id)
      {
        ModulusSites(plan, id);
        var p := ForRole(id, |oldDSNs|);
        assert reach(p, id) && plan.oldDSNs[p] in RowsOf(sites, id);
      }
    }
  }

  lemma ModulusSites(plan: Plan, id: int)
    requires plan.oldDSNs != [] && plan.newDSNs != []
    requires plan.oldOf(id) == ForRole(id, |plan.oldDSNs|) && plan.newOf(id) == ForRole(id, |plan.newDSNs|)
    ensures SourceOf(plan, id) == plan.oldDSNs[ForRole(id, |plan.oldDSNs|)]
    ensures HomeOf(plan, id) == plan.newDSNs[ForRole(id, |plan.newDSNs|)]
  {
    RemOfSmall(ForRole(id, |plan.oldDSNs|), |plan.oldDSNs|);
    RemOfSmall(ForRole(id, |plan.newDSNs|), |plan.newDSNs|);
  }

  lemma RemOfSmall(a: int, n: int)
    requires 0 <= a < n
    ensures Rem(a, n) == a
  {
  }

  /* ---------- runs that report success ---------- */

  /** A role that does not move, or is reached by no scan, stays where it is. */
  lemma {:induction false} UntouchedStays(plan: Plan, reach: Reach, id: int, rows: Rows, p: nat)
    requires p <= |plan.oldDSNs|
    requires !Moving(plan, id) || forall q :: 0 <= q < p ==> !reach(q, id)
    ensures After(plan, reach, id, rows, p) == rows
  {
    if p > 0 {
      UntouchedStays(plan, reach, id, rows, p - 1);
    }
  }

  /** One old database A, the given new ones, modulus routing. */
  function FromA(newDSNs: seq<string>, deleteSource: bool): Plan {
    Plan(["A"], newDSNs, id => ForRole(id, 1), id => ForRole(id, |newDSNs|), 500, deleteSource)
  }

  /** From A to A and B only roles of B move. */
  lemma AToAB(deleteSource: bool, net: nat -> Net)
    requires forall n :: net(n) == Answered
    ensures var plan := FromA(["A", "B"], deleteSource);
            Aligned(plan) && Smooth(plan, net) && Moving(plan, 1) && HomeOf(plan, 1) == "B"
  {
    var plan := FromA(["A", "B"], deleteSource);
    assert forall id :: Moving(plan, id) ==> HomeOf(plan, id) == "B";
  }

  lemma AToB(net: nat -> Net)
    requires forall n :: net(n) == Answered
    ensures var plan := FromA(["B"], false);
            Smooth(plan, net) && forall id :: !Moving(plan, id) && HomeOf(plan, id) == "B"
  {
  }

  /** A run in which no statement fails, as one role sees it. */
  method RunSmoothly(plan: Plan, reach: Reach, sites: Sites, id: int) returns (ok: bool, after: Sites)
    requires plan.batch > 0 && Smooth(plan, n => Answered)
    ensures ok && RowsOf(after, id) == After(plan, reach, id, RowsOf(sites, id), |plan.oldDSNs|)
  {
    ok, after := RunExecute(plan, reach, sites, n => Answered);
  }

  /** One old database and one new one: no index changes, so the tool reports success and has copied nobody. */
  method ReshardToAnotherServer(row: RoleRow) returns (ok: bool, after: Sites)
    ensures ok && RowsOf(after, 7) == map["A" := row]
  {
    var plan, reach := FromA(["B"], false), (p, id) => true;
    var sites: Sites := map["A" := map[7 := row]];
    AToB(n => Answered);
    UntouchedStays(plan, reach, 7, map["A" := row], 1);
    ok, after := RunSmoothly(plan, reach, sites, 7);
    assert RowsOf(sites, 7) == map["A" := row];
  }

  /** Lists that agree, one database added, and a row stream that breaks off before its first row: the
      tool reports success and role 1, which belongs to the new database, is not there. */
  method CutScanMovesNobody(row: RoleRow) returns (ok: bool, after: Sites)
    ensures ok && RowsOf(after, 1) == map["A" := row]
  {
    var plan, reach := FromA(["A", "B"], false), (p, id) => false;
    var sites: Sites := map["A" := map[1 := row]];
    AToAB(false, n => Answered);
    UntouchedStays(plan, reach, 1, map["A" := row], 1);
    ok, after := RunSmoothly(plan, reach, sites, 1);
    assert RowsOf(sites, 1) == map["A" := row];
  }

  /** A role copied to its new database and written there since, then a second run that deletes sources:
      the older row replaces the newer one and is all that is left. */
  method SecondRunDropsNewerRow(older: RoleRow, newer: RoleRow) returns (ok: bool, after: Sites)
    requires older.version < newer.version
    ensures ok && RowsOf(after, 1) == map["B" := older.(epoch := older.epoch + 1)]
  {
    var plan, reach := FromA(["A", "B"], true), (p, id) => true;
    var sites: Sites := map["A" := map[1 := older], "B" := map[1 := newer]];
    AToAB(true, n => Answered);
    OnePoolTreated(plan, reach, 1, map["A" := older, "B" := newer]);
    ok, after := RunSmoothly(plan, reach, sites, 1);
    assert RowsOf(sites, 1) == map["A" := older, "B" := newer];
  }

  lemma OnePoolTreated(plan: Plan, reach: Reach, id: int, rows: Rows)
    requires |plan.oldDSNs| == 1 && reach(0, id)
    ensures After(plan, reach, id, rows, 1) == Treated(plan, id, rows, plan.oldDSNs[0])
  {
    assert After(plan, reach, id, rows, 0) == rows;
  }
}
