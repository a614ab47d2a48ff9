/**
 * The publisher of one Game replica: lease a batch of pending outbox rows over all pools, send
 * each to the stream and mark it, stopping at the first failure. A batch is a sequence of the
 * lease, send and mark steps of module Projection.
 */
module Outbox {
  import P = Projection

  /** One row of a pool's table; its id is its position. */
  datatype Entry = Entry(event: string, published: bool, availableAt: int)

  type Pool = seq<Entry>

  const LEASE_SECONDS := 30
  const DEFAULT_LIMIT := 100

  /* ---------- leasing ---------- */

  predicate Leasable(e: Entry, now: int) { !e.published && e.availableAt <= now }

  function Leasables(pool: Pool, now: int): nat {
    if pool == [] then 0
    else Leasables(pool[..|pool| - 1], now) + if Leasable(pool[|pool| - 1], now) then 1 else 0
  }

  /** The ids one UPDATE ... ORDER BY id LIMIT n takes. */
  function Picks(pool: Pool, now: int, n: nat): seq<nat> {
    if pool == [] then []
    else
      var p := Picks(pool[..|pool| - 1], now, n);
      if |p| < n && Leasable(pool[|pool| - 1], now) then p + [|pool| - 1] else p
  }

  /** A row is taken exactly when it is pending and fewer than n pending rows come before it; every
      row is taken once and the batch is as large as the limit allows. */
  lemma {:induction false} PicksAreTheFirst(pool: Pool, now: int, n: nat)
    ensures var p := Picks(pool, now, n);
            && |p| == (if Leasables(pool, now) <= n then Leasables(pool, now) else n)
            && (forall k :: 0 <= k < |p| ==> p[k] < |pool| && Leasable(pool[p[k]], now))
            && (forall k, l :: 0 <= k < l < |p| ==> p[k] < p[l])
            && (forall i :: 0 <= i < |pool| ==>
                  (i in p <==> Leasable(pool[i], now) && Leasables(pool[..i], now) < n))
  {
    if pool != [] {
      var front := pool[..|pool| - 1];
      PicksAreTheFirst(front, now, n);
      forall i | 0 <= i < |front| ensures front[..i] == pool[..i] && front[i] == pool[i] {}
    }
  }

  function Claimed(pool: Pool, now: int, n: nat): Pool {
    seq(|pool|, i requires 0 <= i < |pool| =>
      if i in Picks(pool, now, n) then pool[i].(availableAt := now + LEASE_SECONDS) else pool[i])
  }

  /** A reservation moves the lease of the rows it takes to thirty seconds from now and changes nothing else. */
  lemma ClaimLeasesItsPicks(pool: Pool, now: int, n: nat, i: nat)
    requires i < |pool|
    ensures |Claimed(pool, now, n)| == |pool|
    ensures Claimed(pool, now, n)[i].event == pool[i].event && Claimed(pool, now, n)[i].published == pool[i].published
    ensures Claimed(pool, now, n)[i].availableAt
         == if Leasable(pool[i], now) && Leasables(pool[..i], now) < n then now + 30 else pool[i].availableAt
  {
    PicksAreTheFirst(pool, now, n);
  }

  /** A row that was taken and not published in the meantime can be taken again from the end of its lease
      on, and not before. */
  lemma LeaseRunsOut(pool: Pool, now: int, n: nat, i: nat, later: int)
    requires i in Picks(pool, now, n)
    ensures i < |pool|
    ensures (exists m :: i in Picks(Claimed(pool, now, n), later, m)) <==> later >= now + 30
  {
    PicksAreTheFirst(pool, now, n);
    var claimed := Claimed(pool, now, n);
    forall m ensures i in Picks(claimed, later, m) <==> Leasable(claimed[i], later) && Leasables(claimed[..i], later) < m {
      PicksAreTheFirst(claimed, later, m);
    }
    var m := Leasables(claimed[..i], later) + 1;
    assert later >= now + 30 ==> i in Picks(claimed, later, m);
  }

  /** What anybody may do to a pool's table. */
  datatype PoolStep = Take(now: int, n: nat) | MarkId(id: nat) | Append(entry: Entry)

  function After(pool: Pool, step: PoolStep): Pool {
    match step
    case Take(now, n) => Claimed(pool, now, n)
    case MarkId(id) => if id < |pool| then pool[id := pool[id].(published := true)] else pool
    case Append(e) => pool + [e]
  }

  function AfterAll(pool: Pool, steps: seq<PoolStep>): Pool {
    if steps == [] then pool else After(AfterAll(pool, steps[..|steps| - 1]), steps[|steps| - 1])
  }

  /** Row i is published, or leased until `end` or longer. */
  predicate Held(pool: Pool, i: nat, end: int) {
    i < |pool| && (pool[i].published || pool[i].availableAt >= end)
  }

  lemma HeldStays(pool: Pool, i: nat, end: int, step: PoolStep)
    requires Held(pool, i, end) && (step.Take? ==> step.now < end)
    ensures Held(After(pool, step), i, end)
  {
    if step.Take? {
      PicksAreTheFirst(pool, step.now, step.n);
    }
  }

  lemma {:induction false} HeldThroughout(pool: Pool, i: nat, end: int, steps: seq<PoolStep>)
    requires Held(pool, i, end)
    requires forall k :: 0 <= k < |steps| && steps[k].Take? ==> steps[k].now < end
    ensures Held(AfterAll(pool, steps), i, end)
  {
    if steps != [] {
      var front := steps[..|steps| - 1];
      assert forall k :: 0 <= k < |front| ==> front[k] == steps[k];
      HeldThroughout(pool, i, end, front);
      HeldStays(AfterAll(pool, front), i, end, steps[|steps| - 1]);
    }
  }

  /** Until its lease ends no later reservation takes a row that was taken, whatever reservations, marks
      and new rows come in between. */
  lemma NoDoubleClaim(pool: Pool, now: int, n: nat, i: nat, between: seq<PoolStep>, later: int, m: nat)
    requires i in Picks(pool, now, n) && later < now + LEASE_SECONDS
    requires forall k :: 0 <= k < |between| && between[k].Take? ==> between[k].now < now + LEASE_SECONDS
    ensures i !in Picks(AfterAll(Claimed(pool, now, n), between), later, m)
  {
    PicksAreTheFirst(pool, now, n);
    HeldThroughout(Claimed(pool, now, n), i, now + LEASE_SECONDS, between);
    PicksAreTheFirst(AfterAll(Claimed(pool, now, n), between), later, m);
  }

  /* ---------- a batch ---------- */

  /** A row as the publisher holds it: pool, id and event. */
  datatype Row = Row(pool: nat, id: nat, event: string)

  function Tagged(pool: Pool, index: nat, ids: seq<nat>): seq<Row> {
    seq(|ids|, k requires 0 <= k < |ids| =>
      Row(index, ids[k], if ids[k] < |pool| then pool[ids[k]].event else ""))
  }

  function PerPool(limit: int, pools: nat): nat {
    var n := if limit <= 0 then DEFAULT_LIMIT else limit;
    if pools > 1 then (n + pools - 1) / pools else n
  }

  /** The pools' shares cover the limit, and no share is larger than that takes; without a limit it is a hundred. */
  lemma SharesCoverLimit(limit: int, pools: nat)
    requires pools > 0
    ensures var n, share := if limit <= 0 then 100 else limit, PerPool(limit, pools);
            share > 0 && pools * share >= n && pools * (share - 1) < n
  {
    var n := if limit <= 0 then DEFAULT_LIMIT else limit;
    if pools > 1 {
      var share := (n + pools - 1) / pools;
      assert n + pools - 1 == pools * share + (n + pools - 1) % pools;
    }
  }

  /** Where a reservation fails, if it does, and whether the failing statement had taken effect. */
  datatype Fault = NoFault | FaultAt(pool: nat, executed: bool)

  /** What happens to one event: all well, or the first failing call, which may have taken effect. */
  datatype Fate = Fine | SendFailed(reached: bool) | MarkFailed(reached: bool)

  /** The first k pools leased. */
  function ClaimedUpTo(pools: seq<Pool>, now: int, n: nat, k: nat): seq<Pool> {
    seq(|pools|, p requires 0 <= p < |pools| => if p < k then Claimed(pools[p], now, n) else pools[p])
  }

  /** The rows taken from the first k pools, listed by id; the statement itself gives them in any order,
      and the lemmas about a batch hold for its rows in any order. */
  function Reserved(pools: seq<Pool>, now: int, n: nat, k: nat): seq<Row>
    requires k <= |pools|
  {
    if k == 0 then [] else Reserved(pools, now, n, k - 1) + Tagged(pools[k - 1], k - 1, Picks(pools[k - 1], now, n))
  }

  /** The tables and the events that have a message in the stream. */
  datatype World = World(pools: seq<Pool>, messages: set<string>)

  function MarkRow(pools: seq<Pool>, pool: nat, id: nat): seq<Pool> {
    if pool < |pools| && id < |pools[pool]| then pools[pool := pools[pool][id := pools[pool][id].(published := true)]]
    else pools
  }

  /** The named row becomes published and keeps its event and its lease; every other row of every pool is
      as it was, and so is everything if there is no such row. Marking again changes nothing. */
  lemma MarkPublishesOneRow(pools: seq<Pool>, pool: nat, id: nat)
    ensures var after := MarkRow(pools, pool, id);
            && |after| == |pools| && (forall p :: 0 <= p < |pools| ==> |after[p]| == |pools[p]|)
            && (forall p, i :: 0 <= p < |pools| && 0 <= i < |pools[p]| && (p != pool || i != id) ==> after[p][i] == pools[p][i])
            && (pool < |pools| && id < |pools[pool]| ==>
                  && after[pool][id].published && after[pool][id].event == pools[pool][id].event
                  && after[pool][id].availableAt == pools[pool][id].availableAt)
            && MarkRow(after, pool, id) == after
  {
    var after := MarkRow(pools, pool, id);
    if pool < |pools| && id < |pools[pool]| {
      assert after[pool][id := after[pool][id]] == after[pool];
      assert after[pool := after[pool]] == after;
    }
  }

  /** Send, wait for the acknowledgement, then mark. */
  function One(w: World, r: Row, fate: Fate): World {
    var sent := if fate == SendFailed(false) then w else w.(messages := w.messages + {r.event});
    if fate == Fine || fate == MarkFailed(true) then sent.(pools := MarkRow(sent.pools, r.pool, r.id)) else sent
  }

  /** The events from the k-th on, up to the first failure. */
  function Batch(w: World, rows: seq<Row>, fates: nat -> Fate, k: nat): World
    decreases |rows| - k
  {
    if k >= |rows| then w
    else if fates(k) != Fine then One(w, rows[k], fates(k))
    else Batch(One(w, rows[k], Fine), rows, fates, k + 1)
  }

  function WholeBatch(w: World, now: int, fault: Fault, fates: nat -> Fate): World {
    var n := PerPool(DEFAULT_LIMIT, |w.pools|);
    if Faulty(fault, |w.pools|) then
      w.(pools := ClaimedUpTo(w.pools, now, n, fault.pool + if fault.executed then 1 else 0))
    else
      Batch(w.(pools := ClaimedUpTo(w.pools, now, n, |w.pools|)), Reserved(w.pools, now, n, |w.pools|), fates, 0)
  }

  class OutboxRepo {
    var pools: seq<Pool>

    constructor (pools: seq<Pool>)
      ensures this.pools == pools
    {
      this.pools := pools;
    }

    /** Every pool gives its first pending rows up to its share of the limit, and exactly those are
        leased. A failure at one pool returns nothing and leaves the leases of the pools before it. */
    method ReserveOutbox(now: int, limit: int, fault: Fault) returns (ok: bool, rows: seq<Row>)
      modifies this
      ensures ok == !Faulty(fault, |old(pools)|)
      ensures var n := PerPool(limit, |old(pools)|);
              if ok then rows == Reserved(old(pools), now, n, |old(pools)|) && pools == ClaimedUpTo(old(pools), now, n, |old(pools)|)
              else rows == [] && pools == ClaimedUpTo(old(pools), now, n, fault.pool + if fault.executed then 1 else 0)
    {
      rows := [];
      var n := PerPool(limit, |pools|);
      ghost var was := pools;
      var p := 0;
      while p < |pools|
        invariant p <= |pools| == |was|
        invariant pools == ClaimedUpTo(was, now, n, p) && rows == Reserved(was, now, n, p)
        invariant fault.FaultAt? ==> p <= fault.pool
      {
        assert pools[p] == was[p];
        if fault.FaultAt? && fault.pool == p {
          if fault.executed {
            pools := pools[p := Claimed(pools[p], now, n)];
          }
          return false, [];
        }
        rows := rows + Tagged(pools[p], p, Picks(pools[p], now, n));
        pools := pools[p := Claimed(pools[p], now, n)];
        p := p + 1;
      }
      return true, rows;
    }

    /** Marks one row and nothing else; an unknown pool is refused. */
    method MarkOutboxPublished(pool: int, id: nat) returns (ok: bool)
      modifies this
      ensures ok == (0 <= pool < |old(pools)|)
      ensures pools == if ok then MarkRow(old(pools), pool, id) else old(pools)
    {
      if pool < 0 || pool >= |pools| { return false; }
      pools := MarkRow(pools, pool, id);
      return true;
    }
  }

  class Stream {
    var messages: set<string>

    constructor ()
      ensures messages == {}
    {
      messages := {};
    }
  }

  method PublishOne(repo: OutboxRepo, stream: Stream, r: Row, fate: Fate) returns (ok: bool)
    requires r.pool < |repo.pools|
    modifies repo, stream
    ensures ok == fate.Fine?
    ensures World(repo.pools, stream.messages) == One(World(old(repo.pools), old(stream.messages)), r, fate)
  {
    if fate != SendFailed(false) {
      stream.messages := stream.messages + {r.event};
    }
    if fate.SendFailed? { return false; }
    if fate != MarkFailed(false) {
      var _ := repo.MarkOutboxPublished(r.pool, r.id);
    }
    return fate.Fine?;
  }

  /** The publish loop. */
  method PublishAll(repo: OutboxRepo, stream: Stream, rows: seq<Row>, fates: nat -> Fate) returns (ok: bool)
    requires forall r :: r in rows ==> r.pool < |repo.pools|
    modifies repo, stream
    ensures World(repo.pools, stream.messages) == Batch(World(old(repo.pools), old(stream.messages)), rows, fates, 0)
    ensures ok <==> forall i :: 0 <= i < |rows| ==> fates(i).Fine?
  {
    ok := true;
    var k := 0;
    while k < |rows|
      invariant k <= |rows| && |repo.pools| == |old(repo.pools)|
      invariant Batch(World(repo.pools, stream.messages), rows, fates, k)
             == Batch(World(old(repo.pools), old(stream.messages)), rows, fates, 0)
      invariant ok && forall i :: 0 <= i < k ==> fates(i).Fine?
    {
      assert rows[k] in rows;
      ok := PublishOne(repo, stream, rows[k], fates(k));
      if !ok { return; }
      k := k + 1;
    }
  }

  predicate Faulty(fault: Fault, pools: nat) { fault.FaultAt? && fault.pool < pools }

  /** One round of the publisher is `WholeBatch`, and it reports success only if every call succeeded. */
  method PublishOutboxBatch(repo: OutboxRepo, stream: Stream, now: int, fault: Fault, fates: nat -> Fate)
    returns (ok: bool)
    modifies repo, stream
    ensures World(repo.pools, stream.messages) == WholeBatch(World(old(repo.pools), old(stream.messages)), now, fault, fates)
    ensures var n := PerPool(DEFAULT_LIMIT, |old(repo.pools)|);
            ok <==> !Faulty(fault, |old(repo.pools)|)
                    && forall i :: 0 <= i < |Reserved(old(repo.pools), now, n, |old(repo.pools)|)| ==> fates(i).Fine?
  {
    ReservedAreReal(repo.pools, now, PerPool(DEFAULT_LIMIT, |repo.pools|), |repo.pools|);
    var rows;
    ok, rows := repo.ReserveOutbox(now, DEFAULT_LIMIT, fault);
    if !ok { return; }
    ok := PublishAll(repo, stream, rows, fates);
  }

  /* ---------- what a batch keeps ---------- */

  predicate Real(pools: seq<Pool>, r: Row) {
    r.pool < |pools| && r.id < |pools[r.pool]| && pools[r.pool][r.id].event == r.event
  }

  predicate Marked(pools: seq<Pool>, r: Row) {
    Real(pools, r) && pools[r.pool][r.id].published
  }

  /** The reserved rows are exactly the picked ones, real, pending, and each there once. */
  lemma {:induction false} ReservedAreReal(pools: seq<Pool>, now: int, n: nat, k: nat)
    requires k <= |pools|
    ensures var rows := Reserved(pools, now, n, k);
            && (forall r :: r in rows ==> r.pool < k && Real(pools, r) && !Marked(pools, r) && r.id in Picks(pools[r.pool], now, n))
            && (forall i, j :: 0 <= i < j < |rows| ==> rows[i] != rows[j])
            && (forall p, i :: 0 <= p < k && i in Picks(pools[p], now, n) ==>
                  i < |pools[p]| && Row(p, i, pools[p][i].event) in rows)
  {
    if k > 0 {
      ReservedAreReal(pools, now, n, k - 1);
      PicksAreTheFirst(pools[k - 1], now, n);
      TaggedAreReal(pools, k - 1, Picks(pools[k - 1], now, n));
      DistinctConcat(Reserved(pools, now, n, k - 1), Tagged(pools[k - 1], k - 1, Picks(pools[k - 1], now, n)));
    }
  }

  lemma TaggedAreReal(pools: seq<Pool>, p: nat, ids: seq<nat>)
    requires p < |pools| && forall k :: 0 <= k < |ids| ==> ids[k] < |pools[p]|
    requires forall k, l :: 0 <= k < l < |ids| ==> ids[k] < ids[l]
    ensures var rows := Tagged(pools[p], p, ids);
            && (forall r :: r in rows ==> r.pool == p && r.id in ids && Real(pools, r))
            && (forall i :: i in ids ==> Row(p, i, pools[p][i].event) in rows)
            && (forall i, j :: 0 <= i < j < |rows| ==> rows[i] != rows[j])
  {
    var rows := Tagged(pools[p], p, ids);
    assert forall i :: 0 <= i < |rows| ==> rows[i] == Row(p, ids[i], pools[p][ids[i]].event);
  }

  lemma DistinctConcat(a: seq<Row>, b: seq<Row>)
    requires forall i, j :: 0 <= i < j < |a| ==> a[i] != a[j]
    requires forall i, j :: 0 <= i < j < |b| ==> b[i] != b[j]
    requires forall r :: r in a ==> r !in b
    ensures forall i, j :: 0 <= i < j < |a + b| ==> (a + b)[i] != (a + b)[j]
  {
    forall i, j | 0 <= i < j < |a + b| ensures (a + b)[i] != (a + b)[j] {
      if i < |a| <= j {
        assert a[i] in a && b[j - |a|] in b;
      }
    }
  }

  /** Only leases differ. */
  predicate SameMarks(a: seq<Pool>, b: seq<Pool>) {
    |a| == |b| && forall p :: 0 <= p < |a| ==>
      |a[p]| == |b[p]| && forall i :: 0 <= i < |a[p]| ==> a[p][i].event == b[p][i].event && a[p][i].published == b[p][i].published
  }

  lemma ClaimsKeepMarks(pools: seq<Pool>, now: int, n: nat, k: nat)
    ensures SameMarks(pools, ClaimedUpTo(pools, now, n, k))
  {
  }

  /* ---------- the batch as steps of the whole system ---------- */

  /** No event has two rows. */
  ghost predicate OneRowEach(pools: seq<Pool>) {
    forall r, q: Row :: Real(pools, r) && Real(pools, q) && r.event == q.event ==> r == q
  }

  /** Marks and events of the rows are those of the system's outbox. */
  ghost predicate ShowsRows(s: P.State, pools: seq<Pool>) {
    forall r: Row :: Real(pools, r) ==> r.event in s.core.db.outbox && (Marked(pools, r) <==> r.event in s.published)
  }

  ghost predicate ShowsStream(s: P.State, messages: set<string>) {
    forall e :: e in messages <==> P.HasMessage(s.messages, e)
  }

  /** The system state that tables and stream stand for. */
  ghost predicate Shows(s: P.State, w: World) {
    OneRowEach(w.pools) && ShowsRows(s, w.pools) && ShowsStream(s, w.messages)
  }

  /** The steps for one event: nothing, a send, or a send and a mark. */
  function Steps(w: nat, r: Row, fate: Fate): seq<P.Step> {
    match fate
    case Fine => [P.Send(w, r.event, true, false), P.Mark(w, r.event, true)]
    case SendFailed(reached) => if reached then [P.Send(w, r.event, false, false)] else []
    case MarkFailed(reached) =>
      if reached then [P.Send(w, r.event, true, false), P.Mark(w, r.event, false)]
      else [P.Send(w, r.event, true, false)]
  }

  function BatchSteps(w: nat, rows: seq<Row>, fates: nat -> Fate, k: nat): seq<P.Step>
    decreases |rows| - k
  {
    if k >= |rows| then []
    else Steps(w, rows[k], fates(k)) + if fates(k) == Fine then BatchSteps(w, rows, fates, k + 1) else []
  }

  function LeaseSteps(w: nat, rows: seq<Row>): seq<P.Step> {
    if rows == [] then []
    else LeaseSteps(w, rows[..|rows| - 1])
         + [P.Expire(rows[|rows| - 1].event)] + [P.Lease(w, rows[|rows| - 1].event)]
  }

  /** Everything but the message of one event and the publisher's hands is as before. */
  predicate SameOutbox(s: P.State, t: P.State) { t.core == s.core && t.published == s.published }

  lemma SendShows(cfg: P.Config, s: P.State, messages: set<string>, w: nat, e: string, answered: bool)
    requires ShowsStream(s, messages) && (w, e) in s.hand && e in s.core.db.outbox
    ensures var t := P.Next(cfg, s, P.Send(w, e, answered, false));
            && SameOutbox(s, t) && ShowsStream(t, messages + {e})
            && t.hand == s.hand - {(w, e)} && (answered ==> (w, e) in t.sent)
  {
    var t := P.Next(cfg, s, P.Send(w, e, answered, false));
    forall x ensures x in messages + {e} <==> P.HasMessage(t.messages, x) {
      if P.HasMessage(s.messages, x) {
        P.HasMessageStays(s.messages, t.messages, x);
      }
      assert t.messages[|s.messages|].event == e;
    }
  }

  lemma MarkShows(cfg: P.Config, s: P.State, pools: seq<Pool>, w: nat, r: Row, answered: bool)
    requires OneRowEach(pools) && ShowsRows(s, pools) && Real(pools, r) && (w, r.event) in s.sent
    ensures var t := P.Next(cfg, s, P.Mark(w, r.event, answered));
            && t.core == s.core && t.messages == s.messages && t.hand == s.hand
            && OneRowEach(MarkRow(pools, r.pool, r.id)) && ShowsRows(t, MarkRow(pools, r.pool, r.id))
  {
    var t, after := P.Next(cfg, s, P.Mark(w, r.event, answered)), MarkRow(pools, r.pool, r.id);
    assert forall q: Row :: Real(after, q) <==> Real(pools, q);
    forall q: Row | Real(after, q) ensures q.event in t.core.db.outbox && (Marked(after, q) <==> q.event in t.published) {
      assert Real(pools, q);
      assert q.event == r.event ==> q == r;
    }
  }

  lemma SameRowsStayReal(pools: seq<Pool>, pool: nat, id: nat)
    ensures forall q: Row :: Real(MarkRow(pools, pool, id), q) <==> Real(pools, q)
    ensures forall q: Row :: Marked(pools, q) ==> Marked(MarkRow(pools, pool, id), q)
  {
  }

  /** One event of the batch, as steps. */
  lemma OneShows(cfg: P.Config, s: P.State, world: World, w: nat, r: Row, fate: Fate)
    requires Shows(s, world) && Real(world.pools, r) && (w, r.event) in s.hand
    ensures var t := P.Run(cfg, s, Steps(w, r, fate));
            Shows(t, One(world, r, fate)) && forall e :: e != r.event && (w, e) in s.hand ==> (w, e) in t.hand
  {
    var send := P.Send(w, r.event, !fate.SendFailed?, false);
    var sent := P.Next(cfg, s, send);
    P.RunSnoc(cfg, s, [], send);
    assert [] + [send] == [send];
    SendShows(cfg, s, world.messages, w, r.event, !fate.SendFailed?);
    if fate == Fine || fate == MarkFailed(true) {
      var mark := P.Mark(w, r.event, fate.Fine?);
      P.RunSnoc(cfg, s, [send], mark);
      assert [send] + [mark] == [send, mark];
      MarkShows(cfg, sent, world.pools, w, r, fate.Fine?);
    }
  }

  /** A whole loop of the publisher, as steps. */
  lemma {:induction false} BatchShows(cfg: P.Config, s: P.State, world: World, w: nat, rows: seq<Row>, fates: nat -> Fate, k: nat)
    requires Shows(s, world)
    requires forall j :: k <= j < |rows| ==> Real(world.pools, rows[j]) && (w, rows[j].event) in s.hand
    requires forall i, j :: 0 <= i < j < |rows| ==> rows[i] != rows[j]
    ensures Shows(P.Run(cfg, s, BatchSteps(w, rows, fates, k)), Batch(world, rows, fates, k))
    decreases |rows| - k
  {
    if k < |rows| {
      var first := Steps(w, rows[k], fates(k));
      OneShows(cfg, s, world, w, rows[k], fates(k));
      if fates(k) == Fine {
        var t, next := P.Run(cfg, s, first), One(world, rows[k], Fine);
        SameRowsStayReal(world.pools, rows[k].pool, rows[k].id);
        forall j | k + 1 <= j < |rows| ensures Real(next.pools, rows[j]) && (w, rows[j].event) in t.hand {
          assert rows[j] != rows[k];
        }
        BatchShows(cfg, t, next, w, rows, fates, k + 1);
        P.RunConcat(cfg, s, first, BatchSteps(w, rows, fates, k + 1));
      } else {
        assert first + [] == first;
      }
    }
  }

  /** Leasing pending rows puts them into the publisher's hands and touches no mark and no message. */
  lemma {:induction false} LeasesShow(cfg: P.Config, s: P.State, pools: seq<Pool>, w: nat, rows: seq<Row>)
    requires ShowsRows(s, pools) && forall r :: r in rows ==> Real(pools, r) && !Marked(pools, r)
    ensures var t := P.Run(cfg, s, LeaseSteps(w, rows));
            SameOutbox(s, t) && t.messages == s.messages && forall r :: r in rows ==> (w, r.event) in t.hand
  {
    if rows != [] {
      var front, last := rows[..|rows| - 1], rows[|rows| - 1];
      assert rows == front + [last];
      LeasesShow(cfg, s, pools, w, front);
      P.RunSnoc(cfg, s, LeaseSteps(w, front), P.Expire(last.event));
      P.RunSnoc(cfg, s, LeaseSteps(w, front) + [P.Expire(last.event)], P.Lease(w, last.event));
      assert last in rows;
    }
  }

  lemma ClaimsShow(s: P.State, pools: seq<Pool>, claimed: seq<Pool>)
    requires SameMarks(pools, claimed) && OneRowEach(pools) && ShowsRows(s, pools)
    ensures OneRowEach(claimed) && ShowsRows(s, claimed)
    ensures forall r: Row :: (Real(claimed, r) <==> Real(pools, r)) && (Marked(claimed, r) <==> Marked(pools, r))
  {
    forall r: Row ensures (Real(claimed, r) <==> Real(pools, r)) && (Marked(claimed, r) <==> Marked(pools, r)) {}
  }

  /** One round of any publisher, whatever fails in it, is a run of the system's lease, send and mark
      steps, so everything proved for all runs of the system is kept by the publisher. */
  lemma PublisherIsSystemRun(cfg: P.Config, s: P.State, world: World, w: nat, now: int, fault: Fault, fates: nat -> Fate)
    requires Shows(s, world)
    ensures exists steps :: Shows(P.Run(cfg, s, steps), WholeBatch(world, now, fault, fates))
  {
    var n := PerPool(DEFAULT_LIMIT, |world.pools|);
    if Faulty(fault, |world.pools|) {
      var k := fault.pool + if fault.executed then 1 else 0;
      ClaimsKeepMarks(world.pools, now, n, k);
      ClaimsShow(s, world.pools, ClaimedUpTo(world.pools, now, n, k));
      assert Shows(P.Run(cfg, s, []), WholeBatch(world, now, fault, fates));
    } else {
      LeasedBatchIsRun(cfg, s, world, w, now, n, fates);
    }
  }

  lemma LeasedBatchIsRun(cfg: P.Config, s: P.State, world: World, w: nat, now: int, n: nat, fates: nat -> Fate)
    requires Shows(s, world)
    ensures var claimed := world.(pools := ClaimedUpTo(world.pools, now, n, |world.pools|));
            exists steps :: Shows(P.Run(cfg, s, steps), Batch(claimed, Reserved(world.pools, now, n, |world.pools|), fates, 0))
  {
    var rows := Reserved(world.pools, now, n, |world.pools|);
    var claimed := world.(pools := ClaimedUpTo(world.pools, now, n, |world.pools|));
    ReservedAreReal(world.pools, now, n, |world.pools|);
    LeasesShow(cfg, s, world.pools, w, rows);
    var t := P.Run(cfg, s, LeaseSteps(w, rows));
    ClaimsKeepMarks(world.pools, now, n, |world.pools|);
    ClaimsShow(t, world.pools, claimed.pools);
    BatchShows(cfg, t, claimed, w, rows, fates, 0);
    P.RunConcat(cfg, s, LeaseSteps(w, rows), BatchSteps(w, rows, fates, 0));
  }

  /** In a reachable state no mark runs ahead of the stream. */
  lemma NoMarkAheadOfStream(cfg: P.Config, steps: seq<P.Step>, world: World, r: Row)
    requires Shows(P.Run(cfg, P.Start, steps), world) && Marked(world.pools, r)
    ensures r.event in world.messages
  {
    P.PublishedWasSent(cfg, steps, r.event);
  }

  /** A batch sends nothing but its rows, and marks all of them if nothing fails. */
  lemma {:induction false} BatchSendsItsRows(world: World, rows: seq<Row>, fates: nat -> Fate, k: nat)
    requires k <= |rows| && forall r :: r in rows ==> Real(world.pools, r)
    ensures var after := Batch(world, rows, fates, k);
            && world.messages <= after.messages
            && (forall e :: e in after.messages ==> e in world.messages || exists r :: r in rows && r.event == e)
            && (forall q: Row :: Marked(world.pools, q) ==> Marked(after.pools, q))
            && ((forall i :: k <= i < |rows| ==> fates(i).Fine?) ==> forall i :: k <= i < |rows| ==> Marked(after.pools, rows[i]))
    decreases |rows| - k
  {
    if k < |rows| {
      assert rows[k] in rows;
      SameRowsStayReal(world.pools, rows[k].pool, rows[k].id);
      if fates(k) == Fine {
        BatchSendsItsRows(One(world, rows[k], Fine), rows, fates, k + 1);
      }
    }
  }
}
