/**
 * Any number of Game processes caching actors for any number of roles, over shared tables.
 * A step is one transaction together with the memory change of the mailbox task that issued
 * it; steps of different actors interleave freely, actors vanish at any moment, and a
 * transaction may commit while its caller is told that it failed.
 */
module RoleProtocol {
  import opened Base
  import opened Roles

  /** A duplicate grant leaves the mailbox busy until its reload: `before` is what a failed reload restores. */
  datatype Phase = Idle | Reloading

  /** `cell` is what the actor holds when idle and what it falls back to while reloading; `reloaded`
      is history: it adopted a reload since its role was last acquired. */
  datatype Actor = Actor(role: int, cell: Cell, phase: Phase, reloaded: bool)

  /** One commit on a role row: the mutation, and the ledger source if it went through the ledger. */
  datatype Commit = Commit(mutation: Mutation, source: Option<string>)

  /**
   * `db` and `actors` are the system. `base`, `log` and `holder` are history: the first
   * snapshot of each role, its commits in order, and which actor acquired it last.
   */
  datatype State = State(
    db: Db,
    actors: map<nat, Actor>,
    base: map<int, Snapshot>,
    log: map<int, seq<Commit>>,
    holder: map<int, Option<nat>>)

  datatype Step =
    | EnsureRole(role: int, level: nat)
    | AcquireRole(id: nat, role: int)
    | AcquireLost(role: int)
    | SaveTask(id: nat, mutation: Mutation, net: Net)
    | PassTask(id: nat, net: Net)
    | GrantTask(id: nat, source: string, bundle: Bundle, net: Net)
    | ReloadTask(id: nat, net: Net)
    | DropActor(id: nat)

  const Start := State(Db(map[], map[], map[]), map[], map[], map[], map[])

  /** The mailbox of an actor takes a new task only when the previous one has ended. */
  predicate Ready(s: State, id: nat) {
    id in s.actors && s.actors[id].phase == Idle
  }

  /** Record the outcome of a task; a row whose version moved has one more commit. */
  function Record(s: State, id: nat, out: After, c: Commit): State
    requires id in s.actors
  {
    var a := s.actors[id];
    var moved := a.role in s.db.rows && a.role in out.db.rows
                 && out.db.rows[a.role].version != s.db.rows[a.role].version;
    s.(db := out.db,
       actors := s.actors[id := a.(cell := out.cell)],
       log := if moved && a.role in s.log then s.log[a.role := s.log[a.role] + [c]] else s.log)
  }

  /** After an acquire no actor of the role has reloaded since. */
  function BeforeReload(actors: map<nat, Actor>, role: int): map<nat, Actor> {
    map id | id in actors :: if actors[id].role == role then actors[id].(reloaded := false) else actors[id]
  }

  /** One step; a step that is not enabled changes nothing. The plain save path carries every
      mutation except a dungeon pass, which always saves with its event. */
  function Next(s: State, step: Step): State {
    match step
    case EnsureRole(role, level) =>
      if role in s.db.rows then s
      else
        var db := Ensure(s.db, role, level);
        s.(db := db, base := s.base[role := Decode(db.rows[role]).mem], log := s.log[role := []],
           holder := s.holder[role := None])
    case AcquireRole(id, role) =>
      var (db, r) := Acquire(s.db, role);
      if id in s.actors || r.Err? then s
      else
        s.(db := db, actors := BeforeReload(s.actors, role)[id := Actor(role, r.value, Idle, false)],
           holder := s.holder[role := Some(id)])
    case AcquireLost(role) =>
      var (db, r) := Acquire(s.db, role);
      if r.Err? then s
      else s.(db := db, actors := BeforeReload(s.actors, role), holder := s.holder[role := None])
    case SaveTask(id, m, net) =>
      if !Ready(s, id) || m.PassDungeon? then s
      else Record(s, id, RunSaved(s.db, s.actors[id].role, s.actors[id].cell, m, net), Commit(m, None))
    case PassTask(id, net) =>
      if !Ready(s, id) then s
      else Record(s, id, RunPass(s.db, s.actors[id].role, s.actors[id].cell, net), Commit(PassDungeon, None))
    case GrantTask(id, source, b, net) =>
      if !Ready(s, id) then s
      else
        var g := RunGrant(s.db, s.actors[id].role, s.actors[id].cell, source, b, net);
        if g.Duplicate? then s.(actors := s.actors[id := s.actors[id].(phase := Reloading)])
        else Record(s, id, g.out, Commit(Grant(b), if source == "" then None else Some(source)))
    case ReloadTask(id, net) =>
      if id !in s.actors || s.actors[id].phase != Reloading then s
      else
        var a := s.actors[id];
        var out := RunReload(s.db, a.role, a.cell, net);
        s.(actors := s.actors[id := Actor(a.role, out.cell, Idle, a.reloaded || out.reply.Ok?)])
    case DropActor(id) =>
      s.(actors := s.actors - {id},
         holder := map r | r in s.holder :: if s.holder[r] == Some(id) then None else s.holder[r])
  }

  function Run(s: State, steps: seq<Step>): State {
    if steps == [] then s else Next(Run(s, steps[..|steps| - 1]), steps[|steps| - 1])
  }

  /* ---------- meaning of the history ---------- */

  /** The snapshot obtained by applying the commits one after the other. */
  function Replay(first: Snapshot, log: seq<Commit>): Option<Snapshot> {
    if log == [] then Some(first)
    else
      var s := Replay(first, log[..|log| - 1]);
      if s.None? then None
      else
        var t := Mutate(s.value, log[|log| - 1].mutation);
        if t.Ok? then Some(t.value) else None
  }

  /** The ledger entries a log created, one per source. */
  function LedgerOf(log: seq<Commit>): map<string, Bundle> {
    if log == [] then map[]
    else
      var rest, c := LedgerOf(log[..|log| - 1]), log[|log| - 1];
      if c.source.Some? && c.mutation.Grant? then rest[c.source.value := c.mutation.bundle] else rest
  }

  predicate NoSourceTwice(log: seq<Commit>) {
    forall i, j :: 0 <= i < j < |log| && log[i].source.Some? ==> log[i].source != log[j].source
  }

  predicate SourcesAreGrants(log: seq<Commit>) {
    forall i :: 0 <= i < |log| && log[i].source.Some? ==> log[i].mutation.Grant?
  }

  function Passes(log: seq<Commit>): nat {
    if log == [] then 0
    else Passes(log[..|log| - 1]) + if log[|log| - 1].mutation.PassDungeon? then 1 else 0
  }

  /* ---------- the invariant ---------- */

  /** The stored row is its first snapshot with every commit applied in order. */
  predicate RowReplays(s: State, r: int)
    requires r in s.db.rows
  {
    && r in s.base && r in s.log && r in s.holder
    && Sound(s.base[r])
    && s.db.rows[r].version == 1 + |s.log[r]| && s.db.rows[r].epoch >= 1
    && Replay(s.base[r], s.log[r]) == Some(Decode(s.db.rows[r]).mem)
    && Sound(Decode(s.db.rows[r]).mem)
  }

  /** The ledger of a role is exactly what its log put there, every source once. */
  ghost predicate LedgerAgrees(s: State, r: int)
    requires r in s.log
  {
    && NoSourceTwice(s.log[r]) && SourcesAreGrants(s.log[r])
    && forall src: string ::
         ((r, src) in s.db.ledger <==> src in LedgerOf(s.log[r]))
         && ((r, src) in s.db.ledger ==> s.db.ledger[(r, src)] == LedgerOf(s.log[r])[src])
  }

  /** The outbox of a role holds one event for each level it has reached since its first snapshot. */
  ghost predicate OutboxAgrees(s: State, r: int)
    requires r in s.db.rows && r in s.base && r in s.log
  {
    && Decode(s.db.rows[r]).mem.level == s.base[r].level + Passes(s.log[r])
    && forall l: int ::
         EventId(r, l) in s.db.outbox <==> s.base[r].level < l <= Decode(s.db.rows[r]).mem.level
  }

  predicate OutboxLabelled(s: State) {
    forall e :: e in s.db.outbox ==>
      s.db.outbox[e].role in s.db.rows && e == EventId(s.db.outbox[e].role, s.db.outbox[e].level)
  }

  /** An actor is never ahead of its row, and level with it only when it holds the row's snapshot. */
  predicate ActorBehind(s: State, a: Actor) {
    && a.role in s.db.rows
    && a.cell.version <= s.db.rows[a.role].version
    && a.cell.epoch <= s.db.rows[a.role].epoch
    && (a.cell.version == s.db.rows[a.role].version ==> a.cell.mem == Decode(s.db.rows[a.role]).mem)
  }

  /** The row's epoch is carried by the last acquirer, by whoever adopted a reload since, and by nobody else. */
  predicate EpochFences(s: State, id: nat)
    requires id in s.actors
  {
    var a := s.actors[id];
    a.role in s.db.rows && a.role in s.holder
    && (a.cell.epoch == s.db.rows[a.role].epoch <==> s.holder[a.role] == Some(id) || a.reloaded)
  }

  ghost predicate RoleAgrees(s: State, r: int)
    requires r in s.db.rows
  {
    RowReplays(s, r) && LedgerAgrees(s, r) && OutboxAgrees(s, r)
  }

  ghost predicate Inv(s: State) {
    && (forall r :: r in s.db.rows ==> RoleAgrees(s, r))
    && OutboxLabelled(s)
    && (forall k :: k in s.db.ledger ==> k.0 in s.db.rows)
    && (forall r :: r in s.holder ==> r in s.db.rows && (s.holder[r].Some? ==> s.holder[r].value in s.actors))
    && (forall id :: id in s.actors ==> ActorBehind(s, s.actors[id]))
    && (forall id :: id in s.actors ==> EpochFences(s, id))
  }

  /* ---------- one commit keeps the invariant ---------- */

  /** `t` is `s` after actor `id` committed `c`. The actor has either learnt of its commit or
      been told that it failed. */
  ghost predicate Commits(s: State, t: State, id: nat, c: Commit, after: Snapshot) {
    && Ready(s, id)
    && var a := s.actors[id];
    && Matches(s.db, a.role, a.cell)
    && a.role in s.log
    && Mutate(a.cell.mem, c.mutation) == Ok(after)
    && t.db.rows == Committed(s.db, a.role, after).rows
    && t.base == s.base && t.holder == s.holder
    && t.log == s.log[a.role := s.log[a.role] + [c]]
    && (t.actors == s.actors[id := a.(cell := Cell(after, a.cell.version + 1, a.cell.epoch))]
        || t.actors == s.actors)
    && (if c.source.Some? then
          c.mutation.Grant? && (a.role, c.source.value) !in s.db.ledger
          && t.db.ledger == s.db.ledger[(a.role, c.source.value) := c.mutation.bundle]
        else t.db.ledger == s.db.ledger)
    && (if c.mutation.PassDungeon? then
          var e := EventId(a.role, after.level);
          t.db.outbox ==
            if e in s.db.outbox then s.db.outbox
            else s.db.outbox[e := OutboxRow(a.role, after.level, a.cell.version + 1)]
        else t.db.outbox == s.db.outbox)
  }

  /** A commit is its mutation applied to the immediately preceding snapshot. */
  lemma CommitExtendsSnapshot(s: State, t: State, id: nat, c: Commit, after: Snapshot)
    requires Inv(s) && Commits(s, t, id, c, after)
    ensures var r := s.actors[id].role;
            Mutate(Decode(s.db.rows[r]).mem, c.mutation) == Ok(after)
            && Decode(t.db.rows[r]).mem == after && Sound(after)
  {
    var a := s.actors[id];
    assert ActorBehind(s, a) && RoleAgrees(s, a.role);
    MutateKeepsSound(a.cell.mem, c.mutation);
  }

  lemma CommitKeepsRows(s: State, t: State, id: nat, c: Commit, after: Snapshot)
    requires Inv(s) && Commits(s, t, id, c, after)
    ensures forall r :: r in t.db.rows ==> RowReplays(t, r)
  {
    CommitExtendsSnapshot(s, t, id, c, after);
    forall r | r in t.db.rows ensures RowReplays(t, r) {
      assert RoleAgrees(s, r);
      if r == s.actors[id].role {
        ReplayGrows(s, t, r, c, after);
      }
    }
  }

  lemma ReplayGrows(s: State, t: State, r: int, c: Commit, after: Snapshot)
    requires r in s.db.rows && RowReplays(s, r)
    requires Mutate(Decode(s.db.rows[r]).mem, c.mutation) == Ok(after) && Sound(after)
    requires t.db.rows == Committed(s.db, r, after).rows && t.base == s.base && t.holder == s.holder
    requires t.log == s.log[r := s.log[r] + [c]]
    ensures RowReplays(t, r)
  {
    assert t.log[r][..|t.log[r]| - 1] == s.log[r];
  }

  /** Appending a commit with a source not yet in the ledger keeps log and ledger in step. */
  lemma AppendAgrees(s: State, t: State, r: int, c: Commit)
    requires r in s.log && LedgerAgrees(s, r)
    requires r in t.log && t.log[r] == s.log[r] + [c]
    requires if c.source.Some? then
               c.mutation.Grant? && (r, c.source.value) !in s.db.ledger
               && t.db.ledger == s.db.ledger[(r, c.source.value) := c.mutation.bundle]
             else t.db.ledger == s.db.ledger
    ensures LedgerAgrees(t, r)
  {
    var log := t.log[r];
    assert log[..|log| - 1] == s.log[r];
    forall i | 0 <= i < |s.log[r]| && s.log[r][i].source.Some? ensures s.log[r][i].source != c.source {
      LoggedSourceInLedger(s.log[r], i);
    }
  }

  lemma CommitKeepsLedger(s: State, t: State, id: nat, c: Commit, after: Snapshot)
    requires Inv(s) && Commits(s, t, id, c, after)
    ensures forall r :: r in t.db.rows ==> r in t.log && LedgerAgrees(t, r)
  {
    forall r | r in t.db.rows ensures r in t.log && LedgerAgrees(t, r) {
      assert RoleAgrees(s, r);
      if r == s.actors[id].role {
        AppendAgrees(s, t, r, c);
      }
    }
  }

  lemma {:induction false} LoggedSourceInLedger(log: seq<Commit>, i: nat)
    requires i < |log| && log[i].source.Some? && SourcesAreGrants(log)
    ensures log[i].source.value in LedgerOf(log)
  {
    if i < |log| - 1 {
      LoggedSourceInLedger(log[..|log| - 1], i);
    }
  }

  /** One role's events after a commit on `role` that reached `level`: only a pass adds an event,
      and it adds the one for the level it reached. */
  lemma OutboxAfterCommit(s: State, t: State, role: int, pass: bool, level: int, r: int)
    requires role in s.db.rows && role in s.base && role in s.log && OutboxAgrees(s, role)
    requires r in s.db.rows && r in s.base && r in s.log && OutboxAgrees(s, r)
    requires r in t.db.rows && r in t.base && r in t.log && t.base[r] == s.base[r]
    requires level == Decode(s.db.rows[role]).mem.level + if pass then 1 else 0
    requires Passes(t.log[r]) == Passes(s.log[r]) + if pass && r == role then 1 else 0
    requires Decode(t.db.rows[r]).mem.level == if r == role then level else Decode(s.db.rows[r]).mem.level
    requires forall e: string :: e in t.db.outbox <==> e in s.db.outbox || (pass && e == EventId(role, level))
    ensures OutboxAgrees(t, r)
  {
    forall l: int ensures EventId(r, l) == EventId(role, level) ==> r == role && l == level {
      if EventId(r, l) == EventId(role, level) {
        EventIdInjective(r, l, role, level);
      }
    }
  }

  lemma CommitKeepsOutbox(s: State, t: State, id: nat, c: Commit, after: Snapshot)
    requires Inv(s) && Commits(s, t, id, c, after)
    ensures forall r :: r in t.db.rows ==> r in t.base && r in t.log && OutboxAgrees(t, r)
    ensures OutboxLabelled(t)
  {
    CommitExtendsSnapshot(s, t, id, c, after);
    var role := s.actors[id].role;
    assert RoleAgrees(s, role);
    LevelOnlyMovesByPass(Decode(s.db.rows[role]).mem, c.mutation);
    LabelsStay(s, t, id, c, after);
    forall r | r in t.db.rows ensures r in t.base && r in t.log && OutboxAgrees(t, r) {
      assert RoleAgrees(s, r);
      PassesGrow(s.log[r], c);
      OutboxAfterCommit(s, t, role, c.mutation.PassDungeon?, after.level, r);
    }
  }

  lemma LabelsStay(s: State, t: State, id: nat, c: Commit, after: Snapshot)
    requires OutboxLabelled(s) && Commits(s, t, id, c, after)
    ensures OutboxLabelled(t)
  {
  }

  lemma PassesGrow(log: seq<Commit>, c: Commit)
    ensures Passes(log + [c]) == Passes(log) + if c.mutation.PassDungeon? then 1 else 0
  {
    assert (log + [c])[..|log|] == log;
  }

  lemma LevelOnlyMovesByPass(s: Snapshot, m: Mutation)
    requires Mutate(s, m).Ok?
    ensures Mutate(s, m).value.level == s.level + if m.PassDungeon? then 1 else 0
  {
  }

  lemma CommitKeepsActors(s: State, t: State, id: nat, c: Commit, after: Snapshot)
    requires Inv(s) && Commits(s, t, id, c, after)
    ensures forall i :: i in t.actors ==> ActorBehind(t, t.actors[i])
    ensures forall i :: i in t.actors ==> EpochFences(t, i)
  {
    CommitExtendsSnapshot(s, t, id, c, after);
    forall i | i in t.actors ensures ActorBehind(t, t.actors[i]) && EpochFences(t, i) {
      assert ActorBehind(s, s.actors[i]) && EpochFences(s, i);
    }
  }

  lemma CommitKeeps(s: State, t: State, id: nat, c: Commit, after: Snapshot)
    requires Inv(s) && Commits(s, t, id, c, after)
    ensures Inv(t)
  {
    CommitKeepsRows(s, t, id, c, after);
    CommitKeepsLedger(s, t, id, c, after);
    CommitKeepsOutbox(s, t, id, c, after);
    CommitKeepsActors(s, t, id, c, after);
  }

  /* ---------- every step keeps the invariant ---------- */

  /** The role of an actor has a row and a log. */
  predicate Grounded(s: State, id: nat) {
    id in s.actors ==> s.actors[id].role in s.db.rows && s.actors[id].role in s.log
  }

  lemma ActorsAreGrounded(s: State, id: nat)
    requires Inv(s)
    ensures Grounded(s, id)
  {
    if id in s.actors {
      assert ActorBehind(s, s.actors[id]) && RoleAgrees(s, s.actors[id].role);
    }
  }

  /** A task that saves either commits its mutation once or changes neither tables nor actor. */
  lemma SaveCommitsOrKeeps(s: State, id: nat, m: Mutation, net: Net)
    requires Grounded(s, id)
    ensures var t := Next(s, SaveTask(id, m, net));
            t == s || exists c, after :: Commits(s, t, id, c, after)
  {
    var t := Next(s, SaveTask(id, m, net));
    if Ready(s, id) && !m.PassDungeon? {
      var a := s.actors[id];
      assert s.actors[id := a.(cell := a.cell)] == s.actors;
      if Matches(s.db, a.role, a.cell) && Mutate(a.cell.mem, m).Ok? && !net.NeverRan? {
        assert Commits(s, t, id, Commit(m, None), Mutate(a.cell.mem, m).value);
      }
    }
  }

  lemma PassCommitsOrKeeps(s: State, id: nat, net: Net)
    requires Grounded(s, id)
    ensures var t := Next(s, PassTask(id, net));
            t == s || exists c, after :: Commits(s, t, id, c, after)
  {
    var t := Next(s, PassTask(id, net));
    if Ready(s, id) {
      var a := s.actors[id];
      assert s.actors[id := a.(cell := a.cell)] == s.actors;
      if Matches(s.db, a.role, a.cell) && !net.NeverRan? {
        assert Commits(s, t, id, Commit(PassDungeon, None), Mutate(a.cell.mem, PassDungeon).value);
      }
    }
  }

  /** A grant does the same, or finds its source already recorded and turns to its reload. */
  lemma GrantCommitsOrKeeps(s: State, id: nat, source: string, b: Bundle, net: Net)
    requires Grounded(s, id)
    ensures var t := Next(s, GrantTask(id, source, b, net));
            || t == s
            || (Ready(s, id) && t == s.(actors := s.actors[id := s.actors[id].(phase := Reloading)]))
            || exists c, after :: Commits(s, t, id, c, after)
  {
    var t := Next(s, GrantTask(id, source, b, net));
    if Ready(s, id) {
      var a := s.actors[id];
      assert s.actors[id := a.(cell := a.cell)] == s.actors;
      var isNew := source == "" || (a.role, source) !in s.db.ledger;
      if Matches(s.db, a.role, a.cell) && Mutate(a.cell.mem, Grant(b)).Ok? && isNew && !net.NeverRan? {
        GrantCommits(s, id, source, b, net);
      }
    }
  }

  lemma GrantCommits(s: State, id: nat, source: string, b: Bundle, net: Net)
    requires Ready(s, id) && Grounded(s, id)
    requires var a := s.actors[id];
             Matches(s.db, a.role, a.cell) && Mutate(a.cell.mem, Grant(b)).Ok?
             && (source == "" || (a.role, source) !in s.db.ledger)
    requires !net.NeverRan?
    ensures Commits(s, Next(s, GrantTask(id, source, b, net)), id,
                    Commit(Grant(b), if source == "" then None else Some(source)),
                    Mutate(s.actors[id].cell.mem, Grant(b)).value)
  {
    var a := s.actors[id];
    assert s.actors[id := a.(cell := a.cell)] == s.actors;
  }

  /** Nothing about a role changes when its snapshot, version, history and tables stay. */
  lemma RoleUntouched(s: State, t: State, r: int)
    requires r in s.db.rows && r in t.db.rows && RoleAgrees(s, r)
    requires r in t.base && r in t.log && r in t.holder
    requires t.base[r] == s.base[r] && t.log[r] == s.log[r]
    requires t.db.ledger == s.db.ledger && t.db.outbox == s.db.outbox
    requires t.db.rows[r].version == s.db.rows[r].version && t.db.rows[r].epoch >= 1
    requires Decode(t.db.rows[r]).mem == Decode(s.db.rows[r]).mem
    ensures RoleAgrees(t, r)
  {
  }

  lemma AcquireKeepsRole(s: State, step: Step, r: int)
    requires step.AcquireRole? || step.AcquireLost?
    requires r in s.db.rows && RoleAgrees(s, r)
    ensures r in Next(s, step).db.rows && RoleAgrees(Next(s, step), r)
  {
    RoleUntouched(s, Next(s, step), r);
  }

  /** Acquiring puts every earlier actor of the role behind the row's epoch. */
  lemma AcquireFences(s: State, step: Step, i: nat)
    requires step.AcquireRole? || step.AcquireLost?
    requires step.role in s.db.rows && RowReplays(s, step.role)
    requires i in Next(s, step).actors
    requires i in s.actors ==> ActorBehind(s, s.actors[i]) && EpochFences(s, i)
    ensures var t := Next(s, step); ActorBehind(t, t.actors[i]) && EpochFences(t, i)
  {
  }

  lemma AcquireKeeps(s: State, step: Step)
    requires Inv(s) && (step.AcquireRole? || step.AcquireLost?)
    ensures Inv(Next(s, step))
  {
    var t := Next(s, step);
    if t != s {
      forall r | r in t.db.rows ensures RoleAgrees(t, r) {
        assert RoleAgrees(s, r);
        AcquireKeepsRole(s, step, r);
      }
      assert RoleAgrees(s, step.role);
      forall i | i in t.actors ensures ActorBehind(t, t.actors[i]) && EpochFences(t, i) {
        if i in s.actors {
          assert ActorBehind(s, s.actors[i]) && EpochFences(s, i);
        }
        AcquireFences(s, step, i);
      }
    }
  }

  /** A new row starts with an empty log, an empty ledger and no event. */
  lemma EnsureAgrees(s: State, role: int, level: nat)
    requires OutboxLabelled(s) && role !in s.db.rows
    requires forall k :: k in s.db.ledger ==> k.0 in s.db.rows
    ensures RoleAgrees(Next(s, EnsureRole(role, level)), role)
  {
    forall l: int ensures EventId(role, l) !in s.db.outbox {
      if EventId(role, l) in s.db.outbox {
        var o := s.db.outbox[EventId(role, l)];
        EventIdInjective(role, l, o.role, o.level);
      }
    }
  }

  lemma EnsureKeepsRole(s: State, role: int, level: nat, r: int)
    requires r in s.db.rows && RoleAgrees(s, r)
    ensures r in Next(s, EnsureRole(role, level)).db.rows && RoleAgrees(Next(s, EnsureRole(role, level)), r)
  {
    RoleUntouched(s, Next(s, EnsureRole(role, level)), r);
  }

  lemma EnsureKeeps(s: State, role: int, level: nat)
    requires Inv(s)
    ensures Inv(Next(s, EnsureRole(role, level)))
  {
    var t := Next(s, EnsureRole(role, level));
    if role !in s.db.rows {
      forall r | r in t.db.rows ensures RoleAgrees(t, r) {
        if r == role {
          EnsureAgrees(s, role, level);
        } else {
          assert RoleAgrees(s, r);
          EnsureKeepsRole(s, role, level, r);
        }
      }
      forall i | i in t.actors ensures ActorBehind(t, t.actors[i]) && EpochFences(t, i) {
        assert ActorBehind(s, s.actors[i]) && EpochFences(s, i);
      }
    }
  }

  /** Steps that only touch actors: the busy mark, the reload and the drop. */
  lemma ActorStepKeeps(s: State, t: State)
    requires Inv(s)
    requires t.db == s.db && t.base == s.base && t.log == s.log
    requires forall r :: r in t.holder <==> r in s.holder
    requires forall r :: r in t.holder ==> t.holder[r].Some? ==> t.holder[r].value in t.actors
    requires forall i :: i in t.actors ==> ActorBehind(t, t.actors[i])
    requires forall i :: i in t.actors ==> EpochFences(t, i)
    ensures Inv(t)
  {
    forall r | r in t.db.rows ensures RoleAgrees(t, r) {
      assert RoleAgrees(s, r);
      RoleUntouched(s, t, r);
    }
  }

  lemma BusyKeeps(s: State, id: nat)
    requires Inv(s) && Ready(s, id)
    ensures Inv(s.(actors := s.actors[id := s.actors[id].(phase := Reloading)]))
  {
    var t := s.(actors := s.actors[id := s.actors[id].(phase := Reloading)]);
    forall i | i in t.actors ensures ActorBehind(t, t.actors[i]) && EpochFences(t, i) {
      assert ActorBehind(s, s.actors[i]) && EpochFences(s, i);
    }
    ActorStepKeeps(s, t);
  }

  lemma ReloadKeeps(s: State, id: nat, net: Net)
    requires Inv(s)
    ensures Inv(Next(s, ReloadTask(id, net)))
  {
    var t := Next(s, ReloadTask(id, net));
    forall i | i in t.actors ensures ActorBehind(t, t.actors[i]) && EpochFences(t, i) {
      assert ActorBehind(s, s.actors[i]) && EpochFences(s, i);
      assert RoleAgrees(s, s.actors[i].role);
      ReloadedActor(s, id, net, i);
    }
    ActorStepKeeps(s, t);
  }

  /** A reload leaves every other actor alone and puts the reloading one level with its row, or back. */
  lemma ReloadedActor(s: State, id: nat, net: Net, i: nat)
    requires i in s.actors && ActorBehind(s, s.actors[i]) && EpochFences(s, i) && RowReplays(s, s.actors[i].role)
    ensures var t := Next(s, ReloadTask(id, net));
            t.db == s.db && t.holder == s.holder && t.actors.Keys == s.actors.Keys
            && ActorBehind(t, t.actors[i]) && EpochFences(t, i)
  {
    var a := s.actors[i];
    var t := Next(s, ReloadTask(id, net));
    if t.actors[i] != a {
      var out := RunReload(s.db, a.role, a.cell, net);
      assert out.cell == a.cell || out.cell == Decode(s.db.rows[a.role]);
    }
  }

  lemma DropKeeps(s: State, id: nat)
    requires Inv(s)
    ensures Inv(Next(s, DropActor(id)))
  {
    var t := Next(s, DropActor(id));
    forall i | i in t.actors ensures ActorBehind(t, t.actors[i]) && EpochFences(t, i) {
      assert ActorBehind(s, s.actors[i]) && EpochFences(s, i);
    }
    ActorStepKeeps(s, t);
  }

  lemma TaskKeeps(s: State, t: State, id: nat)
    requires Inv(s)
    requires || t == s
             || (Ready(s, id) && t == s.(actors := s.actors[id := s.actors[id].(phase := Reloading)]))
             || exists c, after :: Commits(s, t, id, c, after)
    ensures Inv(t)
  {
    if c, after :| Commits(s, t, id, c, after) {
      CommitKeeps(s, t, id, c, after);
    } else if t != s {
      BusyKeeps(s, id);
    }
  }

  lemma StepKeeps(s: State, step: Step)
    requires Inv(s)
    ensures Inv(Next(s, step))
  {
    match step
    case EnsureRole(role, level) => EnsureKeeps(s, role, level);
    case AcquireRole(_, _) => AcquireKeeps(s, step);
    case AcquireLost(_) => AcquireKeeps(s, step);
    case SaveTask(id, m, net) => ActorsAreGrounded(s, id); SaveCommitsOrKeeps(s, id, m, net); TaskKeeps(s, Next(s, step), id);
    case PassTask(id, net) => ActorsAreGrounded(s, id); PassCommitsOrKeeps(s, id, net); TaskKeeps(s, Next(s, step), id);
    case GrantTask(id, src, b, net) => ActorsAreGrounded(s, id); GrantCommitsOrKeeps(s, id, src, b, net); TaskKeeps(s, Next(s, step), id);
    case ReloadTask(id, net) => ReloadKeeps(s, id, net);
    case DropActor(id) => DropKeeps(s, id);
  }

  /* ---------- what one step does to the tables ---------- */

  predicate TablesKept(s: State, t: State) {
    t.db == s.db && t.log == s.log && t.base == s.base
  }

  predicate RowCreated(s: State, t: State, role: int, level: nat) {
    role !in s.db.rows && t.db == Ensure(s.db, role, level) && t.log == s.log[role := []]
    && t.base == s.base[role := Decode(t.db.rows[role]).mem]
  }

  predicate EpochBumped(s: State, t: State, role: int) {
    role in s.db.rows && t.db == Acquire(s.db, role).0 && t.log == s.log && t.base == s.base
  }

  /** Every step keeps the tables, creates a row, bumps an epoch or commits one mutation. */
  ghost predicate TableStep(s: State, t: State) {
    || TablesKept(s, t)
    || (exists role, level :: RowCreated(s, t, role, level))
    || (exists role :: EpochBumped(s, t, role))
    || (exists id, c, after :: Commits(s, t, id, c, after))
  }

  lemma StepsAreTableSteps(s: State, step: Step)
    requires Inv(s)
    ensures TableStep(s, Next(s, step))
  {
    match step
    case SaveTask(id, m, net) => ActorsAreGrounded(s, id); SaveCommitsOrKeeps(s, id, m, net);
    case PassTask(id, net) => ActorsAreGrounded(s, id); PassCommitsOrKeeps(s, id, net);
    case GrantTask(id, src, b, net) => ActorsAreGrounded(s, id); GrantCommitsOrKeeps(s, id, src, b, net);
    case _ => OtherStepsAreTableSteps(s, step);
  }

  lemma OtherStepsAreTableSteps(s: State, step: Step)
    requires !step.SaveTask? && !step.PassTask? && !step.GrantTask?
    ensures TableStep(s, Next(s, step))
  {
    var t := Next(s, step);
    if step.EnsureRole? && step.role !in s.db.rows {
      assert RowCreated(s, t, step.role, step.level);
    } else if (step.AcquireRole? || step.AcquireLost?) && t != s {
      assert EpochBumped(s, t, step.role);
    } else {
      assert TablesKept(s, t);
    }
  }

  lemma {:induction false} RunKeeps(steps: seq<Step>)
    ensures Inv(Run(Start, steps))
  {
    if steps != [] {
      RunKeeps(steps[..|steps| - 1]);
      StepKeeps(Run(Start, steps[..|steps| - 1]), steps[|steps| - 1]);
    }
  }
}
