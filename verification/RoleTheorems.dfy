/** What holds in every state that any interleaving of the role protocol reaches. */
module RoleTheorems {
  import opened Base
  import opened Roles
  import opened Ledger
  import opened RoleProtocol

  /* ---------- no lost updates ---------- */

  /** In every run: an idle actor level with its row holds exactly the row's snapshot, and the
      row is the first snapshot with every commit of its history applied in order. */
  lemma NoLostUpdates(steps: seq<Step>)
    ensures var s := Run(Start, steps);
            && (forall id :: id in s.actors && s.actors[id].phase == Idle ==>
                  var a := s.actors[id];
                  a.role in s.db.rows
                  && (a.cell.version == s.db.rows[a.role].version
                      ==> a.cell.mem == Decode(s.db.rows[a.role]).mem))
            && (forall r :: r in s.db.rows ==>
                  && r in s.base && r in s.log
                  && s.db.rows[r].version == 1 + |s.log[r]|
                  && Replay(s.base[r], s.log[r]) == Some(Decode(s.db.rows[r]).mem))
  {
    RunKeeps(steps);
    var s := Run(Start, steps);
    forall r | r in s.db.rows ensures RowReplays(s, r) {
      assert RoleAgrees(s, r);
    }
    forall id | id in s.actors ensures ActorBehind(s, s.actors[id]) {
    }
  }

  /** Rows of `t` against rows of `s`: each is untouched, or has one commit more, which is its
      mutation applied to the snapshot stored just before. */
  ghost predicate CommitsOnTop(s: State, t: State, r: int) {
    r in s.db.rows && r in t.db.rows && r in s.log && r in t.log
    && (|| (t.log[r] == s.log[r] && t.db.rows[r].version == s.db.rows[r].version
            && Decode(t.db.rows[r]).mem == Decode(s.db.rows[r]).mem)
        || (exists c ::
              && t.log[r] == s.log[r] + [c] && t.db.rows[r].version == s.db.rows[r].version + 1
              && Mutate(Decode(s.db.rows[r]).mem, c.mutation) == Ok(Decode(t.db.rows[r]).mem)))
  }

  lemma EveryStepCommitsOnTop(steps: seq<Step>, step: Step, r: int)
    requires r in Run(Start, steps).db.rows
    ensures CommitsOnTop(Run(Start, steps), Run(Start, steps + [step]), r)
  {
    var s := Run(Start, steps);
    assert (steps + [step])[..|steps|] == steps;
    RunKeeps(steps);
    assert RoleAgrees(s, r);
    StepsAreTableSteps(s, step);
    TableStepOnTop(s, Next(s, step), r);
  }

  lemma TableStepOnTop(s: State, t: State, r: int)
    requires Inv(s) && r in s.db.rows && r in s.log
    requires TableStep(s, t)
    ensures CommitsOnTop(s, t, r)
  {
    if id, c, after :| Commits(s, t, id, c, after) {
      CommitOnTop(s, t, id, c, after, r);
    } else {
      QuietOnTop(s, t, r);
    }
  }

  lemma QuietOnTop(s: State, t: State, r: int)
    requires r in s.db.rows && r in s.log
    requires || TablesKept(s, t)
             || (exists role, level :: RowCreated(s, t, role, level))
             || (exists role :: EpochBumped(s, t, role))
    ensures CommitsOnTop(s, t, r)
  {
  }

  lemma CommitOnTop(s: State, t: State, id: nat, c: Commit, after: Snapshot, r: int)
    requires Inv(s) && r in s.db.rows && r in s.log && Commits(s, t, id, c, after)
    ensures CommitsOnTop(s, t, r)
  {
    CommitExtendsSnapshot(s, t, id, c, after);
  }

  /* ---------- what single steps achieve ---------- */

  /** A dropped actor is gone, holds nothing, and nobody else is affected. */
  lemma DroppedActorIsGone(s: State, id: nat)
    ensures var t := Next(s, DropActor(id));
            && t.db == s.db && t.actors == s.actors - {id}
            && forall r :: r in t.holder ==> t.holder[r] != Some(id) && (s.holder[r] == Some(id) || t.holder[r] == s.holder[r])
  {
  }

  /** An acquire of an existing role by a new actor succeeds, and the actor holds the row as it is stored. */
  lemma AcquiredActorIsLevel(steps: seq<Step>, id: nat, role: int)
    requires role in Run(Start, steps).db.rows && id !in Run(Start, steps).actors
    ensures var t := Next(Run(Start, steps), AcquireRole(id, role));
            && Ready(t, id) && t.actors[id].role == role && Matches(t.db, role, t.actors[id].cell)
            && t.actors[id].cell == Decode(t.db.rows[role]) && t.holder[role] == Some(id)
  {
    RunKeeps(steps);
    assert RoleAgrees(Run(Start, steps), role);
  }

  /** A freshly acquired actor can commit any mutation that its memory allows. */
  lemma LevelActorCommits(s: State, id: nat, m: Mutation)
    requires Ready(s, id) && Grounded(s, id) && !m.PassDungeon?
    requires Matches(s.db, s.actors[id].role, s.actors[id].cell) && Mutate(s.actors[id].cell.mem, m).Ok?
    ensures var t := Next(s, SaveTask(id, m, Answered));
            && t.actors[id].cell.mem == Mutate(s.actors[id].cell.mem, m).value
            && Matches(t.db, s.actors[id].role, t.actors[id].cell) && t.db.rows[s.actors[id].role].doc == Encode(t.actors[id].cell.mem)
            && t.log[s.actors[id].role] == s.log[s.actors[id].role] + [Commit(m, None)]
  {
  }

  /* ---------- ledger exactly once ---------- */

  /** The ledger entries of one role, by source. */
  function LedgerRows(db: Db, r: int): map<string, Bundle> {
    map k | k in db.ledger && k.0 == r :: k.1 := db.ledger[k]
  }

  function Golds(m: map<string, Bundle>): map<string, int> { map k | k in m :: m[k].gold }

  function Items(m: map<string, Bundle>, item: string): map<string, int> {
    map k | k in m :: Count(m[k].items, item)
  }

  /** What the commits outside the ledger contributed. */
  function PlainGold(log: seq<Commit>): int {
    if log == [] then 0
    else
      var c := log[|log| - 1];
      PlainGold(log[..|log| - 1]) + if c.source.None? then Delta(c.mutation).gold else 0
  }

  function PlainItem(log: seq<Commit>, item: string): int {
    if log == [] then 0
    else
      var c := log[|log| - 1];
      PlainItem(log[..|log| - 1], item) + if c.source.None? then Count(Delta(c.mutation).items, item) else 0
  }

  /** Replaying a log adds each of its ledger entries once and each plain commit once. */
  lemma {:induction false} ReplayAddsUp(first: Snapshot, log: seq<Commit>, item: string)
    requires Sound(first) && Replay(first, log).Some? && NoSourceTwice(log) && SourcesAreGrants(log)
    ensures var s := Replay(first, log).value;
            && Sound(s)
            && s.gold == first.gold + SumValues(Golds(LedgerOf(log))) + PlainGold(log)
            && Count(s.bag, item)
               == Count(first.bag, item) + SumValues(Items(LedgerOf(log), item)) + PlainItem(log, item)
  {
    if log != [] {
      var rest, c := log[..|log| - 1], log[|log| - 1];
      assert forall i :: 0 <= i < |rest| ==> rest[i] == log[i];
      ReplayAddsUp(first, rest, item);
      DeltaAddsUp(Replay(first, rest).value, c.mutation, item);
      if c.source.Some? {
        SourceIsNew(log);
        BookingAddsUp(LedgerOf(rest), c.source.value, c.mutation.bundle, item);
      }
    }
  }

  lemma DeltaAddsUp(s: Snapshot, m: Mutation, item: string)
    requires Sound(s) && Mutate(s, m).Ok?
    ensures var t := Mutate(s, m).value;
            Sound(t) && t.gold == s.gold + Delta(m).gold
            && Count(t.bag, item) == Count(s.bag, item) + Count(Delta(m).items, item)
  {
    MutateKeepsSound(s, m);
    MutationMovesByDelta(s, m);
    ShiftedCounts(s.bag, Delta(m).items, item);
  }

  lemma BookingAddsUp(m: map<string, Bundle>, src: string, b: Bundle, item: string)
    requires src !in m
    ensures SumValues(Golds(m[src := b])) == SumValues(Golds(m)) + b.gold
    ensures SumValues(Items(m[src := b], item)) == SumValues(Items(m, item)) + Count(b.items, item)
  {
    SumUpdate(Golds(m), src, b.gold);
    assert Golds(m[src := b]) == Golds(m)[src := b.gold];
    SumUpdate(Items(m, item), src, Count(b.items, item));
    assert Items(m[src := b], item) == Items(m, item)[src := Count(b.items, item)];
  }

  lemma {:induction false} BookedSourceWasLogged(log: seq<Commit>, src: string)
    requires src in LedgerOf(log)
    ensures exists i :: 0 <= i < |log| && log[i].source == Some(src)
  {
    if log != [] && log[|log| - 1].source != Some(src) {
      BookedSourceWasLogged(log[..|log| - 1], src);
      var i :| 0 <= i < |log| - 1 && log[..|log| - 1][i].source == Some(src);
      assert log[i].source == Some(src);
    }
  }

  lemma SourceIsNew(log: seq<Commit>)
    requires log != [] && log[|log| - 1].source.Some? && NoSourceTwice(log)
    ensures log[|log| - 1].source.value !in LedgerOf(log[..|log| - 1])
  {
    var rest, src := log[..|log| - 1], log[|log| - 1].source.value;
    assert forall i :: 0 <= i < |rest| ==> rest[i] == log[i] && rest[i].source != Some(src);
    if src in LedgerOf(rest) {
      BookedSourceWasLogged(rest, src);
      assert false;
    }
  }

  /** In every run: stored gold and bag are the first snapshot plus the role's ledger entries, each
      (role, source) once, plus the commits outside the ledger; nothing is ever negative. */
  lemma LedgerExactlyOnce(steps: seq<Step>, r: int, item: string)
    requires r in Run(Start, steps).db.rows
    ensures var s := Run(Start, steps);
            && r in s.base && r in s.log
            && var stored := Decode(s.db.rows[r]).mem;
            && stored.gold
               == s.base[r].gold + SumValues(Golds(LedgerRows(s.db, r))) + PlainGold(s.log[r])
            && Count(stored.bag, item)
               == Count(s.base[r].bag, item) + SumValues(Items(LedgerRows(s.db, r), item)) + PlainItem(s.log[r], item)
            && stored.gold >= 0 && Count(stored.bag, item) >= 0
  {
    RunKeeps(steps);
    var s := Run(Start, steps);
    assert RoleAgrees(s, r);
    ReplayAddsUp(s.base[r], s.log[r], item);
    assert LedgerRows(s.db, r) == LedgerOf(s.log[r]);
  }

  /* ---------- dungeon events ---------- */

  /** The event of the level that the actor's pass reached is new and has been inserted. */
  predicate EventInserted(s: State, t: State, a: Actor) {
    var level := a.cell.mem.level + 1;
    && EventId(a.role, level) !in s.db.outbox
    && t.db.outbox == s.db.outbox[EventId(a.role, level) := OutboxRow(a.role, level, a.cell.version + 1)]
  }

  /** A committed pass always inserts a new event: the conflict branch of the insert is never taken. */
  lemma DungeonEventsNeverCollide(steps: seq<Step>, id: nat, net: Net)
    ensures var s, t := Run(Start, steps), Next(Run(Start, steps), PassTask(id, net));
            t.db.rows != s.db.rows ==> Ready(s, id) && EventInserted(s, t, s.actors[id])
  {
    var s := Run(Start, steps);
    if Ready(s, id) {
      PassReady(steps, id);
      PassEvent(s, id, net);
    } else {
      assert Next(s, PassTask(id, net)) == s;
    }
  }

  lemma PassReady(steps: seq<Step>, id: nat)
    requires Ready(Run(Start, steps), id)
    ensures var s := Run(Start, steps);
            var r := s.actors[id].role;
            ActorBehind(s, s.actors[id]) && r in s.base && r in s.log && OutboxAgrees(s, r)
  {
    RunKeeps(steps);
    var s := Run(Start, steps);
    assert ActorBehind(s, s.actors[id]) && RoleAgrees(s, s.actors[id].role);
  }

  lemma PassEvent(s: State, id: nat, net: Net)
    requires Ready(s, id) && ActorBehind(s, s.actors[id])
    requires var r := s.actors[id].role; r in s.base && r in s.log && OutboxAgrees(s, r)
    ensures var t, a := Next(s, PassTask(id, net)), s.actors[id];
            t.db.rows != s.db.rows ==> EventInserted(s, t, a)
  {
  }

  /** In every run the outbox has exactly one event per level gained, and as many as committed passes. */
  lemma OneEventPerPass(steps: seq<Step>, r: int, level: int)
    requires r in Run(Start, steps).db.rows
    ensures var s := Run(Start, steps);
            && r in s.base && r in s.log
            && Decode(s.db.rows[r]).mem.level == s.base[r].level + Passes(s.log[r])
            && (EventId(r, level) in s.db.outbox
                <==> s.base[r].level < level <= Decode(s.db.rows[r]).mem.level)
  {
    RunKeeps(steps);
    assert RoleAgrees(Run(Start, steps), r);
  }

  /* ---------- epoch fencing ---------- */

  predicate TaskOf(step: Step, id: nat) {
    (step.SaveTask? || step.PassTask? || step.GrantTask?) && step.id == id
  }

  /** In every run: an actor carries its row's epoch if and only if it is the last acquirer of its
      role or adopted a reload since that acquire. */
  lemma EpochIsCurrentIff(steps: seq<Step>, id: nat)
    requires id in Run(Start, steps).actors
    ensures var s := Run(Start, steps);
            var a := s.actors[id];
            a.role in s.db.rows && a.role in s.holder
            && (a.cell.epoch == s.db.rows[a.role].epoch <==> s.holder[a.role] == Some(id) || a.reloaded)
  {
    RunKeeps(steps);
    assert EpochFences(Run(Start, steps), id);
  }

  /** In every run: some task of an idle actor writes if and only if the actor holds the row's version
      and is the last acquirer or adopted a reload since that acquire. */
  lemma CanWriteIff(steps: seq<Step>, id: nat)
    requires Ready(Run(Start, steps), id)
    ensures var s := Run(Start, steps);
            var a := s.actors[id];
            a.role in s.db.rows && a.role in s.holder
            && ((exists step :: TaskOf(step, id) && Run(Start, steps + [step]).db != s.db)
                <==> a.cell.version == s.db.rows[a.role].version && (s.holder[a.role] == Some(id) || a.reloaded))
  {
    EpochIsCurrentIff(steps, id);
    RunKeeps(steps);
    var s := Run(Start, steps);
    var a := s.actors[id];
    ActorsAreGrounded(s, id);
    if Matches(s.db, a.role, a.cell) {
      RunOne(Start, steps, SaveTask(id, Keep, Answered));
      SaveCommitsIffCurrent(s, id, Keep);
      assert TaskOf(SaveTask(id, Keep, Answered), id);
    } else {
      forall step | TaskOf(step, id) ensures Run(Start, steps + [step]).db == s.db {
        RunOne(Start, steps, step);
        EpochMismatchKeepsTables(s, id, step);
      }
    }
  }

  /** A later acquire of the role: a new actor, or an acquire whose answer was lost. */
  predicate AcquiresAnew(s: State, step: Step, role: int) {
    (step.AcquireLost? && step.role == role) || (step.AcquireRole? && step.role == role && step.id !in s.actors)
  }

  predicate Adopts(step: Step, id: nat) { step.ReloadTask? && step.id == id && step.net.Answered? }

  predicate Fenced(s: State, id: nat) {
    id in s.actors && !s.actors[id].reloaded
    && s.actors[id].role in s.db.rows && s.actors[id].role in s.holder && s.holder[s.actors[id].role] != Some(id)
  }

  lemma AcquireFencesOthers(s: State, id: nat, acquire: Step)
    requires id in s.actors && s.actors[id].role in s.db.rows && AcquiresAnew(s, acquire, s.actors[id].role)
    ensures Fenced(Next(s, acquire), id)
  {
  }

  lemma FencedStays(s: State, id: nat, step: Step)
    requires Fenced(s, id) && !Adopts(step, id) && step != DropActor(id)
    ensures Fenced(Next(s, step), id)
  {
    if step.SaveTask? || step.PassTask? || step.GrantTask? {
      TasksKeepOwners(s, step);
    }
  }

  /** Holders, rows and everybody's role and reload mark. */
  predicate SameOwners(s: State, t: State) {
    && t.holder == s.holder && s.db.rows.Keys <= t.db.rows.Keys && t.actors.Keys == s.actors.Keys
    && forall i :: i in s.actors ==> t.actors[i].role == s.actors[i].role && t.actors[i].reloaded == s.actors[i].reloaded
  }

  lemma TasksKeepOwners(s: State, step: Step)
    requires step.SaveTask? || step.PassTask? || step.GrantTask?
    ensures SameOwners(s, Next(s, step))
  {
    if Ready(s, step.id) {
      var a := s.actors[step.id];
      match step
      case SaveTask(_, m, net) => RecordKeepsOwners(s, step.id, RunSaved(s.db, a.role, a.cell, m, net), Commit(m, None));
      case PassTask(_, net) => RecordKeepsOwners(s, step.id, RunPass(s.db, a.role, a.cell, net), Commit(PassDungeon, None));
      case GrantTask(_, source, b, net) => GrantKeepsOwners(s, step.id, source, b, net);
    }
  }

  lemma RecordKeepsOwners(s: State, id: nat, out: After, c: Commit)
    requires id in s.actors && s.db.rows.Keys <= out.db.rows.Keys
    ensures SameOwners(s, Record(s, id, out, c))
  {
  }

  lemma GrantKeepsOwners(s: State, id: nat, source: string, b: Bundle, net: Net)
    requires Ready(s, id)
    ensures SameOwners(s, Next(s, GrantTask(id, source, b, net)))
  {
    var g := RunGrant(s.db, s.actors[id].role, s.actors[id].cell, source, b, net);
    if g.Settled? {
      RecordKeepsOwners(s, id, g.out, Commit(Grant(b), if source == "" then None else Some(source)));
    }
  }

  lemma {:induction false} FencedThroughout(s: State, id: nat, between: seq<Step>)
    requires Fenced(s, id)
    requires forall i :: 0 <= i < |between| ==> !Adopts(between[i], id) && between[i] != DropActor(id)
    ensures Fenced(Run(s, between), id)
  {
    if between != [] {
      var front := between[..|between| - 1];
      assert forall i :: 0 <= i < |front| ==> front[i] == between[i];
      FencedThroughout(s, id, front);
      FencedStays(Run(s, front), id, between[|between| - 1]);
    }
  }

  /** In every run: once a role is acquired anew, none of the tasks of an earlier actor writes anything,
      whatever happens in between and whatever that actor reloaded before, until it adopts a reload. */
  lemma FencedActorNeverCommits(steps: seq<Step>, id: nat, acquire: Step, between: seq<Step>, step: Step)
    requires var s := Run(Start, steps); id in s.actors && AcquiresAnew(s, acquire, s.actors[id].role)
    requires forall i :: 0 <= i < |between| ==> !Adopts(between[i], id) && between[i] != DropActor(id)
    requires TaskOf(step, id)
    ensures var path := steps + [acquire] + between;
            Run(Start, path + [step]).db == Run(Start, path).db
  {
    var path := steps + [acquire] + between;
    RunKeeps(steps);
    ActorsAreGrounded(Run(Start, steps), id);
    AcquireFencesOthers(Run(Start, steps), id, acquire);
    RunOne(Start, steps, acquire);
    RunConcat(Start, steps + [acquire], between);
    FencedThroughout(Run(Start, steps + [acquire]), id, between);
    EpochIsCurrentIff(path, id);
    RunOne(Start, path, step);
    EpochMismatchKeepsTables(Run(Start, path), id, step);
  }

  lemma {:induction false} RunConcat(s: State, a: seq<Step>, b: seq<Step>)
    ensures Run(s, a + b) == Run(Run(s, a), b)
  {
    if b == [] {
      assert a + b == a;
    } else {
      RunConcat(s, a, b[..|b| - 1]);
      assert (a + b)[..|a + b| - 1] == a + b[..|b| - 1];
    }
  }

  /** Without the row's epoch and version no task writes. */
  lemma EpochMismatchKeepsTables(s: State, id: nat, step: Step)
    requires id in s.actors && !Matches(s.db, s.actors[id].role, s.actors[id].cell) && TaskOf(step, id)
    ensures Next(s, step).db == s.db
  {
  }

  /** A save reported to its caller is refused exactly when epoch or version differ from the row. */
  lemma SaveCommitsIffCurrent(s: State, id: nat, m: Mutation)
    requires Ready(s, id) && Grounded(s, id) && !m.PassDungeon?
    requires Mutate(s.actors[id].cell.mem, m).Ok?
    ensures var t := Next(s, SaveTask(id, m, Answered));
            && (t.db != s.db <==> Matches(s.db, s.actors[id].role, s.actors[id].cell))
            && (!Matches(s.db, s.actors[id].role, s.actors[id].cell) ==>
                  RunSaved(s.db, s.actors[id].role, s.actors[id].cell, m, Answered).reply == Err(StaleRole))
  {
    var a := s.actors[id];
    if Matches(s.db, a.role, a.cell) {
      var t := Next(s, SaveTask(id, m, Answered));
      assert t.db.rows[a.role].version == s.db.rows[a.role].version + 1;
    }
  }

  /* The states on the way to the counterexample: role 7, first with one actor, then with two. */

  const POOR := Snapshot(1, 0, map[], map[], map[], map[], 0)
  const RICH := Snapshot(1, 5, map[], map[], map[], map[], 0)
  const GIFT := Bundle(5, map[])
  const GIVE := GrantTask(0, "mail:1", GIFT, Answered)

  function OneActor(row: Row, ledger: map<(int, string), Bundle>, c: Cell, log: seq<Commit>): State {
    State(Db(map[7 := row], ledger, map[]), map[0 := Actor(7, c, Idle, false)],
          map[7 := POOR], map[7 := log], map[7 := Some(0)])
  }

  function TwoActors(c: Cell, phase: Phase, reloaded: bool): State {
    State(Db(map[7 := Row(1, Encode(RICH), 2, 3)], map[(7, "mail:1") := GIFT], map[]),
          map[0 := Actor(7, c, phase, reloaded), 1 := Actor(7, Cell(RICH, 2, 3), Idle, false)],
          map[7 := POOR], map[7 := [Commit(Grant(GIFT), Some("mail:1"))]], map[7 := Some(1)])
  }

  const Poor := OneActor(Row(1, EMPTY_DOC, 1, 2), map[], Cell(POOR, 1, 2), [])
  const Rich := OneActor(
    Row(1, Encode(RICH), 2, 2), map[(7, "mail:1") := GIFT], Cell(RICH, 2, 2),
    [Commit(Grant(GIFT), Some("mail:1"))])

  lemma FirstSteps()
    ensures Next(Next(Start, EnsureRole(7, 1)), AcquireRole(0, 7)) == Poor
  {
  }

  lemma FirstGrant()
    ensures Next(Poor, GIVE) == Rich
  {
    ShiftByNothing(map[]);
    assert Mutate(POOR, Grant(GIFT)) == Ok(RICH);
    var out := After(Rich.db, Cell(RICH, 2, 2), Ok(()));
    assert RunGrant(Poor.db, 7, Cell(POOR, 1, 2), "mail:1", GIFT, Answered) == Settled(out);
    var c := Commit(Grant(GIFT), Some("mail:1"));
    assert [] + [c] == [c];
    assert Next(Poor, GIVE) == Record(Poor, 0, out, c);
  }

  lemma SecondActor()
    ensures Next(Rich, AcquireRole(1, 7)) == TwoActors(Cell(RICH, 2, 2), Idle, false)
  {
  }

  lemma SecondGrant()
    ensures Next(TwoActors(Cell(RICH, 2, 2), Idle, false), GIVE) == TwoActors(Cell(RICH, 2, 2), Reloading, false)
  {
    var s := TwoActors(Cell(RICH, 2, 2), Idle, false);
    assert RunGrant(s.db, 7, Cell(RICH, 2, 2), "mail:1", GIFT, Answered) == Duplicate;
  }

  lemma Reloads()
    ensures Next(TwoActors(Cell(RICH, 2, 2), Reloading, false), ReloadTask(0, Answered))
         == TwoActors(Cell(RICH, 2, 3), Idle, true)
  {
  }

  /** The reload is a way around the fence: actor 0 is fenced by actor 1, replays an old source,
      adopts the current epoch from the reload, and commits again. */
  lemma ReloadReopensTheFence()
    ensures exists steps: seq<Step>, step: Step ::
              var s := Run(Start, steps);
              && 0 in s.actors && s.actors[0].role in s.holder && s.holder[s.actors[0].role] == Some(1)
              && TaskOf(step, 0) && Run(Start, steps + [step]).db != s.db
  {
    var s := TwoActors(Cell(RICH, 2, 3), Idle, true);
    var steps := ToTheReload();
    RunOne(Start, steps, SaveTask(0, Keep, Answered));
    SaveCommitsIffCurrent(s, 0, Keep);
    assert TaskOf(SaveTask(0, Keep, Answered), 0) && Run(Start, steps + [SaveTask(0, Keep, Answered)]).db != s.db;
  }

  lemma ToTheReload() returns (steps: seq<Step>)
    ensures Run(Start, steps) == TwoActors(Cell(RICH, 2, 3), Idle, true)
  {
    var a1 := [] + [EnsureRole(7, 1)];
    var a2 := a1 + [AcquireRole(0, 7)];
    var a3 := a2 + [GIVE];
    var a4 := a3 + [AcquireRole(1, 7)];
    var a5 := a4 + [GIVE];
    steps := a5 + [ReloadTask(0, Answered)];
    RunOne(Start, [], EnsureRole(7, 1));
    RunOne(Start, a1, AcquireRole(0, 7)); FirstSteps();
    RunOne(Start, a2, GIVE); FirstGrant();
    RunOne(Start, a3, AcquireRole(1, 7)); SecondActor();
    RunOne(Start, a4, GIVE); SecondGrant();
    RunOne(Start, a5, ReloadTask(0, Answered)); Reloads();
  }

  lemma RunOne(s: State, steps: seq<Step>, step: Step)
    ensures Run(s, steps + [step]) == Next(Run(s, steps), step)
  {
    assert (steps + [step])[..|steps|] == steps;
  }

  /* ---------- the economy the sagas rely on ---------- */

  function View(s: State): Econ<string> {
    Econ(map r | r in s.db.rows :: Decode(s.db.rows[r]).mem.gold,
         map r | r in s.db.rows :: Decode(s.db.rows[r]).mem.bag,
         s.db.ledger)
  }

  /** Every step of every run moves the economy by at most one booked or plain bundle that the
      stored balance can afford. */
  lemma StepsAreEconSteps(steps: seq<Step>, step: Step)
    ensures EconStep(View(Run(Start, steps)), View(Run(Start, steps + [step])))
  {
    RunKeeps(steps);
    RunOne(Start, steps, step);
    StepIsEconStep(Run(Start, steps), step);
  }

  lemma StepIsEconStep(s: State, step: Step)
    requires Inv(s)
    ensures EconStep(View(s), View(Next(s, step)))
  {
    StepsAreTableSteps(s, step);
    TableStepIsEconStep(s, Next(s, step));
  }

  lemma TableStepIsEconStep(s: State, t: State)
    requires Inv(s) && TableStep(s, t)
    ensures EconStep(View(s), View(t))
  {
    if role, level :| RowCreated(s, t, role, level) {
      NewRowIsEconStep(s, t, role, level);
    } else if role :| EpochBumped(s, t, role) {
      BumpIsEconStep(s, t, role);
    } else if id, c, after :| Commits(s, t, id, c, after) {
      CommitExtendsSnapshot(s, t, id, c, after);
      MutationIsEconStep(s, t, id, c, after);
    }
  }

  lemma BumpIsEconStep(s: State, t: State, role: int)
    requires EpochBumped(s, t, role)
    ensures EconStep(View(s), View(t))
  {
    assert View(t).gold == View(s).gold;
    assert View(t).bags == View(s).bags;
  }

  lemma MutationIsEconStep(s: State, t: State, id: nat, c: Commit, after: Snapshot)
    requires Commits(s, t, id, c, after)
    requires var r := s.actors[id].role;
             Mutate(Decode(s.db.rows[r]).mem, c.mutation) == Ok(after) && Decode(t.db.rows[r]).mem == after
    ensures EconStep(View(s), View(t))
  {
    MutationMovesByDelta(Decode(s.db.rows[s.actors[id].role]).mem, c.mutation);
    CommitIsEconStep(s, t, s.actors[id].role, Delta(c.mutation), c.source);
  }

  lemma NewRowIsEconStep(s: State, t: State, role: int, level: nat)
    requires RowCreated(s, t, role, level)
    ensures EconStep(View(s), View(t))
  {
    assert View(t).gold == View(s).gold[role := 0];
    assert View(t).bags == View(s).bags[role := map[]];
    assert role !in View(s).gold && View(t) == NewRole(View(s), role);
  }

  /** A row's gold and bag moved by a bundle they could afford. */
  predicate RowMoved(s: State, t: State, role: int, d: Bundle) {
    && role in s.db.rows && role in t.db.rows
    && t.db.rows == s.db.rows[role := t.db.rows[role]]
    && var m, m' := Decode(s.db.rows[role]).mem, Decode(t.db.rows[role]).mem;
    && m'.gold == m.gold + d.gold && m'.bag == Shifted(m.bag, d.items)
    && (d.gold < 0 ==> m.gold >= -d.gold) && Affordable(m.bag, d.items)
  }

  /** The view moves with the row. */
  lemma RowMovesView(s: State, t: State, role: int, d: Bundle)
    requires RowMoved(s, t, role, d)
    ensures CanApply(View(s), role, d)
    ensures View(t) == Applied(View(s), role, d).(ledger := t.db.ledger)
  {
    assert View(t).gold == View(s).gold[role := View(s).gold[role] + d.gold];
    assert View(t).bags == View(s).bags[role := Shifted(View(s).bags[role], d.items)];
  }

  /** A row moved by an affordable bundle, with or without its ledger entry. */
  lemma CommitIsEconStep(s: State, t: State, role: int, d: Bundle, source: Option<string>)
    requires RowMoved(s, t, role, d)
    requires if source.Some? then (role, source.value) !in s.db.ledger
                                  && t.db.ledger == s.db.ledger[(role, source.value) := d]
             else t.db.ledger == s.db.ledger
    ensures EconStep(View(s), View(t))
    ensures source.Some? ==> BookedNow(View(s), View(t), role, source.value, d)
  {
    RowMovesView(s, t, role, d);
    if source.Some? {
      assert BookedNow(View(s), View(t), role, source.value, d);
    }
  }
}
