/**
 * The entry points of one Game process: find or acquire the actor of a role, run one task on it,
 * and drop the actor when its task was answered "stale role".
 */
module Managers {
  import opened Base
  import opened Roles
  import opened Shard
  import opened Actors

  /** The four kinds of work that enter through the manager. */
  datatype Work =
    | Message(cmd: int, act: int, arg: string)
    | Saving(mutation: Mutation)
    | Passing
    | Granting(source: string, bundle: Bundle, reload: Net)

  /** Tables, actor and reply after one piece of work. */
  function RunWork(db: Db, role: int, c: Cell, work: Work, net: Net): After {
    match work
    case Message(cmd, act, arg) =>
      if MutatingAct(cmd, act) then RunSaved(db, role, c, ActMutation(act, arg), net)
      else After(db, c, if SupportedAct(cmd, act) then Ok(()) else Err(NotFound))
    case Saving(m) => RunSaved(db, role, c, m, net)
    case Passing => RunPass(db, role, c, net)
    case Granting(source, b, reload) =>
      var g := RunGrant(db, role, c, source, b, net);
      if g.Settled? then g.out else RunReload(db, role, c, reload)
  }

  /** Memory and row agree on snapshot, version and epoch. */
  predicate Level(db: Db, role: int, c: Cell) {
    role in db.rows && Decode(db.rows[role]) == c
  }

  predicate ReadOnly(work: Work) { work.Message? && !MutatingAct(work.cmd, work.act) }

  predicate Legal(c: Cell) { c.version >= 1 && c.epoch >= 1 && c.mem.level >= 1 }

  lemma SavingIsAtomic(db: Db, role: int, c: Cell, m: Mutation, net: Net)
    requires Legal(c) && (Matches(db, role, c) ==> Level(db, role, c))
    ensures var out := RunSaved(db, role, c, m, net);
            && (out.reply.Err? ==> out.cell == c)
            && (out.reply.Err? && net != AnswerLost ==> out.db == db)
            && (out.reply.Ok? ==> Level(out.db, role, out.cell) && out.db != db)
  {
    var out := RunSaved(db, role, c, m, net);
    if out.reply.Ok? {
      assert out.db.rows[role].version == db.rows[role].version + 1;
    }
  }

  lemma PassingIsAtomic(db: Db, role: int, c: Cell, net: Net)
    requires Legal(c)
    ensures var out := RunPass(db, role, c, net);
            && (out.reply.Err? ==> out.cell == c)
            && (out.reply.Err? && net != AnswerLost ==> out.db == db)
            && (out.reply.Ok? ==> Level(out.db, role, out.cell) && out.db != db)
  {
    var out := RunPass(db, role, c, net);
    if out.reply.Ok? {
      assert out.db.rows[role].version == db.rows[role].version + 1;
    }
  }

  /** A grant, or its duplicate. */
  lemma GrantingIsAtomic(db: Db, role: int, c: Cell, source: string, b: Bundle, reload: Net, net: Net)
    requires Legal(c)
    ensures var out := RunWork(db, role, c, Granting(source, b, reload), net);
            && (out.reply.Err? ==> out.cell == c)
            && (out.reply.Err? && net != AnswerLost ==> out.db == db)
            && (out.reply.Ok? ==> Level(out.db, role, out.cell)
                                  && (out.db != db || (role, source) in db.ledger))
  {
    var out := RunWork(db, role, c, Granting(source, b, reload), net);
    if out.reply.Ok? && out.db.rows != db.rows {
      assert out.db.rows[role].version == db.rows[role].version + 1;
    }
  }

  /** Work is all or nothing. A failure leaves the memory as it was, and the tables too unless the
      commit was executed and only its answer lost. A success means that the memory is what the row
      stores, and that something was committed unless the work only reads or its source was booked
      before. */
  lemma WorkIsAtomic(db: Db, role: int, c: Cell, work: Work, net: Net)
    requires Legal(c) && (Matches(db, role, c) ==> Level(db, role, c))
    ensures var out := RunWork(db, role, c, work, net);
            && (out.reply.Err? ==> out.cell == c)
            && (out.reply.Err? && net != AnswerLost ==> out.db == db)
            && (ReadOnly(work) ==> out.cell == c && out.db == db)
            && (out.reply.Ok? && !ReadOnly(work) ==>
                  && Level(out.db, role, out.cell)
                  && (out.db != db || (work.Granting? && (role, work.source) in db.ledger)))
  {
    match work
    case Message(cmd, act, arg) => SavingIsAtomic(db, role, c, ActMutation(act, arg), net);
    case Saving(m) => SavingIsAtomic(db, role, c, m, net);
    case Passing => PassingIsAtomic(db, role, c, net);
    case Granting(source, b, reload) => GrantingIsAtomic(db, role, c, source, b, reload, net);
  }

  method DoWork(a: Actor, repo: RoleRepo, work: Work, net: Net) returns (r: Result<(), Failure>)
    requires a.Valid()
    modifies a, a.inv, a.skills, a.quests, a.questProg, repo
    ensures a.Valid() && a.closed == old(a.closed) && fresh(a.Dicts() - old(a.Dicts()))
    ensures After(repo.db, a.Holds(), r) == RunWork(old(repo.db), a.id, old(a.Holds()), work, net)
  {
    match work {
      case Message(cmd, act, arg) => r := HandleTask(a, repo, cmd, act, arg, net);
      case Saving(m) => r := SavedTask(a, repo, m, net);
      case Passing => r := PassTask(a, repo, net);
      case Granting(source, b, reload) => { var _, reply := GrantTask(a, repo, source, b, net, reload); r := reply; }
    }
  }

  /** Finding the actor: what is refused before the tables are asked, and what an acquire answers. */
  function Enter(db: Db, role: int, owned: bool, cached: Option<Cell>, net: Net): (Db, Result<Cell, Failure>) {
    if role <= 0 then (db, Err(InvalidRole))
    else if !owned then (db, Err(WrongShard))
    else if cached.Some? then (db, Ok(cached.value))
    else if net.NeverRan? then (db, Err(Unavailable))
    else
      var (db', acquired) := Acquire(db, role);
      (db', if acquired.Ok? && net.AnswerLost? then Err(Unavailable) else acquired)
  }

  /** A whole call: tables, what stays cached for the role, and the reply. */
  function Serve(db: Db, role: int, owned: bool, cached: Option<Cell>, work: Work, acquire: Net, net: Net)
    : (Db, Option<Cell>, Result<(), Failure>)
  {
    var (db', got) := Enter(db, role, owned, cached, acquire);
    if got.Err? then (db', cached, Err(got.error))
    else
      var out := RunWork(db', role, got.value, work, net);
      (out.db, if out.reply == Err(StaleRole) then None else Some(out.cell), out.reply)
  }

  /** A role that is not owned here, and no role at all, is refused without asking the tables. */
  lemma StrangersAreRefused(db: Db, role: int, owned: bool, cached: Option<Cell>, work: Work, acquire: Net, net: Net)
    requires role <= 0 || !owned
    ensures Serve(db, role, owned, cached, work, acquire, net)
         == (db, cached, Err(if role <= 0 then InvalidRole else WrongShard))
  {
  }

  /** A cached actor is used as it is; without one the row is acquired first, under a new epoch. */
  lemma ServedCell(db: Db, role: int, cached: Option<Cell>, work: Work, acquire: Net, net: Net)
    requires role > 0
    ensures cached.Some? ==>
              var out := RunWork(db, role, cached.value, work, net);
              var (db', left, r) := Serve(db, role, true, cached, work, acquire, net);
              db' == out.db && r == out.reply && (r == Err(StaleRole) <==> left == None) && (left.Some? ==> left.value == out.cell)
    ensures cached.None? && acquire.Answered? && role !in db.rows ==>
              Serve(db, role, true, cached, work, acquire, net) == (db, None, Err(NotFound))
    ensures cached.None? && acquire.Answered? && role in db.rows ==>
              var (fresh', c) := Acquire(db, role);
              c.Ok? && Serve(db, role, true, cached, work, acquire, net) == Serve(fresh', role, true, Some(c.value), work, acquire, net)
    ensures cached.None? && acquire.NeverRan? ==> Serve(db, role, true, cached, work, acquire, net) == (db, None, Err(Unavailable))
    ensures cached.None? && acquire.AnswerLost? && role in db.rows ==>
              Serve(db, role, true, cached, work, acquire, net) == (Acquire(db, role).0, None, Err(Unavailable))
  {
  }

  /** After a stale reply the same call, made again with nothing failing, acquires the role anew and
      commits: staleness heals itself. */
  lemma StaleCallHeals(db: Db, role: int, c: Cell, m: Mutation, net: Net)
    requires role > 0 && role in db.rows && db.rows[role].version >= 1 && db.rows[role].epoch >= 1
    requires var (db', left, r) := Serve(db, role, true, Some(c), Saving(m), Answered, net); r == Err(StaleRole)
    requires Mutate(Decode(db.rows[role]).mem, m).Ok?
    ensures var (db', left, _) := Serve(db, role, true, Some(c), Saving(m), Answered, net);
            var (db'', now, r) := Serve(db', role, true, left, Saving(m), Answered, Answered);
            && db' == db && left == None && r == Ok(()) && now.Some?
            && now.value.mem == Mutate(Decode(db.rows[role]).mem, m).value && db''.rows[role].doc == Encode(now.value.mem)
  {
    var (db1, c1) := Acquire(db, role);
    assert Matches(db1, role, c1.value);
  }

  /** Every role is owned by exactly one shard of a deployment. */
  lemma OneOwner(role: int, count: int, shard: int)
    requires count > 1 && 0 <= shard < count
    ensures OwnedBy(role, ForRole(role, count), count) && 0 <= ForRole(role, count) < count
    ensures OwnedBy(role, shard, count) <==> shard == ForRole(role, count)
  {
  }

  predicate OwnedBy(role: int, shardId: int, shardCount: int) {
    shardCount <= 1 || ForRole(role, shardCount) == shardId
  }

  lemma ServeFound(db: Db, role: int, owned: bool, cached: Option<Cell>, work: Work, acquire: Net, net: Net, db': Db, c: Cell)
    requires Enter(db, role, owned, cached, acquire) == (db', Ok(c))
    ensures var out := RunWork(db', role, c, work, net);
            Serve(db, role, owned, cached, work, acquire, net)
            == (out.db, if out.reply == Err(StaleRole) then None else Some(out.cell), out.reply)
  {
  }

  /** The cache of live actors of one process. */
  class Manager {
    const shardId: int
    const shardCount: int
    var players: map<int, Actor>

    constructor (shardId: int, shardCount: int)
      ensures Valid() && players == map[] && this.shardId == shardId && this.shardCount == shardCount
    {
      this.shardId, this.shardCount, players := shardId, shardCount, map[];
    }

    predicate Valid()
      reads this, players.Values
    {
      forall r :: r in players ==> players[r].id == r && players[r].Valid() && !players[r].closed
    }

    /** What work on `role` may touch besides the manager and the tables. */
    ghost function Touched(role: int): set<object>
      reads this, players.Values
    {
      if role in players then {players[role]} + players[role].Dicts() else {}
    }

    predicate Owns(role: int) { OwnedBy(role, shardId, shardCount) }

    ghost function Cached(role: int): Option<Cell>
      reads this, players.Values, Touched(role)
    {
      if role in players then Some(players[role].Holds()) else None
    }

    /** Reuse the cached actor, or acquire the role and cache a new one. */
    method Get(repo: RoleRepo, role: int, net: Net) returns (r: Result<Actor, Failure>)
      requires Valid()
      modifies this, repo
      ensures Valid()
      ensures (repo.db, if r.Ok? then Ok(r.value.Holds()) else Err(r.error))
           == Enter(old(repo.db), role, Owns(role), old(Cached(role)), net)
      ensures players == if r.Ok? then old(players)[role := r.value] else old(players)
      ensures r.Ok? && role in old(players) ==> r.value == old(players)[role]
      ensures r.Ok? && role !in old(players) ==> fresh(r.value) && fresh(r.value.Dicts())
    {
      if role <= 0 {
        return Err(InvalidRole);
      }
      if !Owns(role) {
        return Err(WrongShard);
      }
      if role in players {
        return Ok(players[role]);
      }
      if net.NeverRan? {
        return Err(Unavailable);
      }
      var (db, acquired) := Acquire(repo.db, role);
      repo.db := db;
      if acquired.Err? {
        return Err(acquired.error);
      }
      if net.AnswerLost? {
        return Err(Unavailable);
      }
      var a := new Actor(role, acquired.value);
      players := players[role := a];
      return Ok(a);
    }

    /** A stale actor leaves the cache and its mailbox closes; any other reply keeps it. */
    method DropIfStale(role: int, a: Actor, reply: Result<(), Failure>)
      modifies this, a
      ensures var drop := reply == Err(StaleRole) && role in old(players) && old(players)[role] == a;
              && players == (if drop then old(players) - {role} else old(players))
              && a.closed == (drop || old(a.closed))
      ensures a.Holds() == old(a.Holds()) && a.Dicts() == old(a.Dicts())
    {
      if reply == Err(StaleRole) && role in players && players[role] == a {
        players := players - {role};
        a.closed := true;
      }
    }

    /** Work on a cached actor: a stale reply always leaves the role uncached, so the next call
        acquires it again; every other reply leaves it cached. */
    method RunCached(repo: RoleRepo, role: int, work: Work, net: Net) returns (r: Result<(), Failure>)
      requires Valid() && role in players
      modifies this, repo, players[role], players[role].inv, players[role].skills
      modifies players[role].quests, players[role].questProg
      ensures Valid()
      ensures players == if r == Err(StaleRole) then old(players) - {role} else old(players)
      ensures old(players)[role].closed == (r == Err(StaleRole))
      ensures After(repo.db, old(players)[role].Holds(), r)
           == RunWork(old(repo.db), role, old(players[role].Holds()), work, net)
    {
      var a := players[role];
      ghost var before := a.Holds();
      r := DoWork(a, repo, work, net);
      assert After(repo.db, a.Holds(), r) == RunWork(old(repo.db), role, before, work, net);
      assert forall x :: x in players && x != role ==> players[x] != a;
      DropIfStale(role, a, r);
    }

    /** HandleMsg, WithPlayerSaved, WithPlayerOutbox and ApplyGrant: find the actor, run the work, drop
        the actor if it turned out stale. */
    method Handle(repo: RoleRepo, role: int, work: Work, acquire: Net, net: Net)
      returns (r: Result<(), Failure>)
      requires Valid()
      modifies this, repo, Touched(role)
      ensures Valid() && players - {role} == old(players) - {role}
      ensures (repo.db, Cached(role), r)
           == Serve(old(repo.db), role, Owns(role), old(Cached(role)), work, acquire, net)
    {
      var got := Get(repo, role, acquire);
      if got.Err? {
        return Err(got.error);
      }
      ghost var (db, c) := (repo.db, got.value.Holds());
      ServeFound(old(repo.db), role, Owns(role), old(Cached(role)), work, acquire, net, db, c);
      r := RunFound(repo, role, got.value, work, net);
    }

    /** The second half: only what it needs to know of the first. */
    method RunFound(repo: RoleRepo, role: int, a: Actor, work: Work, net: Net) returns (r: Result<(), Failure>)
      requires Valid() && role in players && players[role] == a
      modifies this, repo, a, a.inv, a.skills, a.quests, a.questProg
      ensures Valid() && players - {role} == old(players) - {role}
      ensures var out := RunWork(old(repo.db), role, old(a.Holds()), work, net);
              (repo.db, Cached(role), r)
              == (out.db, if out.reply == Err(StaleRole) then None else Some(out.cell), out.reply)
    {
      ghost var out := RunWork(repo.db, role, a.Holds(), work, net);
      r := RunCached(repo, role, work, net);
      assert out == After(repo.db, a.Holds(), r);
    }
  }
}
