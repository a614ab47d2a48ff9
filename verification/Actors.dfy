/**
 * The actor and its manager as they run: maps changed in place, snapshots taken as copies, and
 * the actor put back when a save fails. Each task is proved to do what the function of the same
 * task in module Roles does, so the interleavings of RoleProtocol are about this code.
 */
module Actors {
  import opened Base
  import opened Roles

  /* Applying one more item of a bundle, by the sign of its amount. */

  lemma ShiftUp(bag: Counts, done: Counts, i: string, n: int)
    requires i !in done && n > 0
    ensures AddItem(Shifted(bag, done), i, n) == Shifted(bag, done[i := n])
  {
    var now, next := Shifted(bag, done), Shifted(bag, done[i := n]);
    assert Count(now, i) == Count(bag, i);
    assert now[i := Count(now, i) + n] == next;
  }

  lemma ShiftDown(bag: Counts, done: Counts, i: string, n: int)
    requires i !in done && n < 0 && Count(bag, i) >= -n
    ensures RemoveItem(Shifted(bag, done), i, -n) == Some(Shifted(bag, done[i := n]))
  {
    var now, next := Shifted(bag, done), Shifted(bag, done[i := n]);
    assert Count(now, i) == Count(bag, i);
    if Count(bag, i) == -n {
      assert now - {i} == next;
    } else {
      assert now[i := Count(now, i) + n] == next;
    }
  }

  lemma ShiftByZero(bag: Counts, done: Counts, i: string)
    requires i !in done
    ensures Shifted(bag, done) == Shifted(bag, done[i := 0])
  {
  }

  /** A Go map: shared by reference, changed in place. */
  class Dict {
    var m: Counts

    constructor (m: Counts)
      ensures this.m == m
    {
      this.m := m;
    }

    method Add(item: string, n: int)
      modifies this
      ensures m == AddItem(old(m), item, n)
    {
      if n <= 0 {
        return;
      }
      m := m[item := Count(m, item) + n];
    }

    method Remove(item: string, n: int) returns (ok: bool)
      modifies this
      ensures ok == RemoveItem(old(m), item, n).Some?
      ensures m == if ok then RemoveItem(old(m), item, n).value else old(m)
    {
      if n <= 0 {
        return true;
      }
      var have := Count(m, item);
      if have < n {
        return false;
      }
      m := m[item := have - n];
      if m[item] == 0 {
        m := m - {item};
      }
      return true;
    }

    /** The check loop of a bundle. */
    method Affords(items: Counts) returns (ok: bool)
      ensures ok == Affordable(m, items)
    {
      var todo := items.Keys;
      while todo != {}
        invariant todo <= items.Keys
        invariant forall i :: i in items && i !in todo && items[i] < 0 ==> Count(m, i) >= -items[i]
        decreases todo
      {
        var i :| i in todo;
        if items[i] < 0 && Count(m, i) < -items[i] {
          return false;
        }
        todo := todo - {i};
      }
      return true;
    }

    /** One round of the apply loop. */
    method ShiftOne(i: string, n: int, ghost bag: Counts, ghost done: Counts)
      requires m == Shifted(bag, done) && i !in done && (n < 0 ==> Count(bag, i) >= -n)
      modifies this
      ensures m == Shifted(bag, done[i := n])
    {
      if n > 0 {
        ShiftUp(bag, done, i, n);
        Add(i, n);
      } else if n < 0 {
        ShiftDown(bag, done, i, n);
        var _ := Remove(i, -n);
      } else {
        ShiftByZero(bag, done, i);
      }
    }

    /** The apply loop of a bundle, item by item in any order. */
    method Shift(items: Counts)
      requires Affordable(m, items)
      modifies this
      ensures m == Shifted(old(m), items)
    {
      ghost var bag := m;
      var todo := items.Keys;
      assert items - todo == map[];
      assert Shifted(bag, map[]) == bag;
      while todo != {}
        invariant todo <= items.Keys
        invariant m == Shifted(bag, items - todo)
        decreases todo
      {
        var i :| i in todo;
        ghost var done := items - todo;
        ShiftOne(i, items[i], bag, done);
        todo := todo - {i};
        assert items - todo == done[i := items[i]];
      }
      assert items - todo == items;
    }

    /** A copy that shares nothing with the original. */
    method Clone() returns (d: Dict)
      ensures fresh(d) && d.m == m
    {
      d := new Dict(map[]);
      var todo := m.Keys;
      while todo != {}
        invariant fresh(d) && todo <= m.Keys
        invariant d.m == m - todo
        decreases todo
      {
        var k :| k in todo;
        d.m := d.m[k := m[k]];
        todo := todo - {k};
      }
    }
  }

  predicate FourApart(a: Dict, b: Dict, c: Dict, d: Dict) {
    a != b && a != c && a != d && b != c && b != d && c != d
  }

  /** A snapshot holding four maps by reference. */
  datatype Saved = Saved(
    level: int, gold: int, bag: Dict, skills: Dict, quests: Dict, questProg: Dict, guild: int,
    version: int, epoch: int)
  {
    function Dicts(): set<Dict> { {bag, skills, quests, questProg} }

    predicate Apart() { FourApart(bag, skills, quests, questProg) }

    ghost function Value(): Cell
      reads bag, skills, quests, questProg
    {
      Cell(Snapshot(level, gold, bag.m, skills.m, quests.m, questProg.m, guild), version, epoch)
    }
  }

  const CMD_GAME := 2
  const ACT_PLAYER_DATA := 2
  const ACT_SKILL_LIST := 3
  const ACT_SKILL_UPGRADE := 4
  const ACT_QUEST_LIST := 5
  const ACT_QUEST_ACCEPT := 6

  predicate MutatingAct(cmd: int, act: int) {
    cmd == CMD_GAME && (act == ACT_SKILL_UPGRADE || act == ACT_QUEST_ACCEPT)
  }

  predicate SupportedAct(cmd: int, act: int) {
    cmd == CMD_GAME && ACT_PLAYER_DATA <= act <= ACT_QUEST_ACCEPT
  }

  /** What a protocol act does to the memory; an empty argument selects the default. */
  function ActMutation(act: int, arg: string): Mutation {
    if act == ACT_SKILL_UPGRADE then UpgradeSkill(if arg == "" then "slash" else arg)
    else if act == ACT_QUEST_ACCEPT then AcceptQuest(if arg == "" then "main_1" else arg)
    else Keep
  }

  /** Act 4 raises the named skill, or "slash"; act 6 accepts the named quest, or "main_1"; the other acts
      from 2 to 6 only read; nothing else is served. */
  lemma ActsOnTheWire(s: Snapshot, cmd: int, act: int, arg: string)
    ensures SupportedAct(cmd, act) <==> cmd == 2 && 2 <= act <= 6
    ensures MutatingAct(cmd, act) <==> cmd == 2 && (act == 4 || act == 6)
    ensures act == 4 ==>
              var skill := if arg == "" then "slash" else arg;
              var t := Mutate(s, ActMutation(act, arg));
              t.Ok? && t.value == s.(skills := t.value.skills) && Count(t.value.skills, skill) == Count(s.skills, skill) + 1
    ensures act == 6 ==>
              var quest := if arg == "" then "main_1" else arg;
              var t := Mutate(s, ActMutation(act, arg));
              t.Ok? && (Count(s.quests, quest) == 0 ==> Count(t.value.quests, quest) == 1 && t.value.skills == s.skills)
  {
  }

  class Actor {
    const id: int
    var level: int
    var gold: int
    var inv: Dict
    var skills: Dict
    var quests: Dict
    var questProg: Dict
    var guild: int
    var version: int
    var epoch: int
    var closed: bool

    function Dicts(): set<Dict>
      reads this
    {
      {inv, skills, quests, questProg}
    }

    /** The four maps are four different maps. */
    predicate Valid()
      reads this
    {
      FourApart(inv, skills, quests, questProg)
    }

    ghost function Holds(): Cell
      reads this, inv, skills, quests, questProg
    {
      Cell(Snapshot(level, gold, inv.m, skills.m, quests.m, questProg.m, guild), version, epoch)
    }

    constructor (id: int, c: Cell)
      ensures Valid() && Holds() == c && this.id == id && !closed
      ensures fresh(Dicts())
    {
      this.id := id;
      level, gold, guild := c.mem.level, c.mem.gold, c.mem.guild;
      version, epoch, closed := c.version, c.epoch, false;
      inv := new Dict(c.mem.bag);
      skills := new Dict(c.mem.skills);
      quests := new Dict(c.mem.quests);
      questProg := new Dict(c.mem.questProg);
    }

    method SnapshotUnsafe() returns (s: Saved)
      ensures s.Value() == Holds() && s.Apart() && fresh(s.Dicts())
    {
      var b := inv.Clone();
      var k := skills.Clone();
      var q := quests.Clone();
      var p := questProg.Clone();
      s := Saved(level, gold, b, k, q, p, guild, version, epoch);
    }

    method RestoreUnsafe(s: Saved)
      requires s.Apart()
      modifies this
      ensures Valid() && Holds() == s.Value() && Dicts() == s.Dicts() && closed == old(closed)
    {
      level, gold, guild := s.level, s.gold, s.guild;
      inv, skills, quests, questProg := s.bag, s.skills, s.quests, s.questProg;
      version, epoch := s.version, s.epoch;
    }

    /** Check everything, then apply everything. */
    method ApplyBundleUnsafe(b: Bundle) returns (err: Option<Failure>)
      requires Valid()
      modifies this, inv
      ensures Valid() && Dicts() == old(Dicts()) && closed == old(closed)
      ensures var r := ApplyBundle(old(Holds()).mem, b);
              && (err.Some? ==> r == Err(err.value) && Holds() == old(Holds()))
              && (err.None? ==> r.Ok? && Holds() == old(Holds()).(mem := r.value))
    {
      if b.gold < 0 && gold < -b.gold {
        return Some(InsufficientGold);
      }
      var ok := inv.Affords(b.items);
      if !ok {
        return Some(InsufficientItem);
      }
      gold := gold + b.gold;
      inv.Shift(b.items);
      return None;
    }

    /** After a save: take over the new version, or go back to where the task began. */
    method Conclude(before: Saved, r: Result<int, Failure>) returns (out: Result<(), Failure>)
      requires Valid() && before.Apart()
      modifies this
      ensures Valid() && closed == old(closed)
      ensures if r.Ok? then out == Ok(()) && Holds() == old(Holds()).(version := r.value) && Dicts() == old(Dicts())
              else out == Err(r.error) && Holds() == before.Value() && Dicts() == before.Dicts()
    {
      if r.Err? {
        RestoreUnsafe(before);
        return Err(r.error);
      }
      version := r.value;
      return Ok(());
    }

    /** The in-place body of every task. */
    method Perform(m: Mutation) returns (err: Option<Failure>)
      requires Valid()
      modifies this, inv, skills, quests, questProg
      ensures Valid() && Dicts() == old(Dicts()) && closed == old(closed)
      ensures var r := Mutate(old(Holds()).mem, m);
              && (err.Some? ==> r == Err(err.value) && Holds() == old(Holds()))
              && (err.None? ==> r.Ok? && Holds() == old(Holds()).(mem := r.value))
    {
      err := None;
      match m {
        case Keep =>
        case UpgradeSkill(k) => skills.m := skills.m[k := Count(skills.m, k) + 1];
        case AcceptQuest(q) =>
          var st := Count(quests.m, q);
          if st != STATUS_ACCEPTED && st != STATUS_DONE {
            quests.m := quests.m[q := STATUS_ACCEPTED];
            questProg.m := questProg.m[q := 0];
          }
        case GainGold(n) =>
          if n > 0 {
            gold := gold + n;
          }
        case JoinGuild(g) => guild := g;
        case TakeItem(item, n) =>
          var ok := inv.Remove(item, n);
          if !ok {
            err := Some(InsufficientItem);
          }
        case PassDungeon =>
          level := level + 1;
          gold := gold + GOLD_PER_PASS;
          inv.Add("potion", 1);
          if Count(quests.m, "main_1") == STATUS_ACCEPTED {
            questProg.m := questProg.m["main_1" := Count(questProg.m, "main_1") + 1];
          }
        case Grant(b) => err := ApplyBundleUnsafe(b);
      }
    }
  }

  /** The tables; every method is one transaction. The network decides what the caller learns. */
  class RoleRepo {
    var db: Db

    constructor (db: Db)
      ensures this.db == db
    {
      this.db := db;
    }

    /** The first component is what was stored, the second what the caller is told. */
    static function Told<T>(before: Db, after: Db, r: Result<T, Failure>, net: Net): (Db, Result<T, Failure>) {
      match net
      case Answered => (after, r)
      case AnswerLost => (after, Err(Unavailable))
      case NeverRan => (before, Err(Unavailable))
    }

    /** The guarded UPDATE shared by the three save paths. */
    method CompareAndSwap(role: int, s: Saved) returns (ok: bool)
      modifies this
      ensures ok == Matches(old(db), role, s.Value())
      ensures db == if ok then Committed(old(db), role, s.Value().mem) else old(db)
    {
      var mem := Snapshot(s.level, s.gold, s.bag.m, s.skills.m, s.quests.m, s.questProg.m, s.guild);
      ok := role in db.rows && db.rows[role].version == s.version && db.rows[role].epoch == s.epoch;
      if ok {
        var row := db.rows[role];
        db := db.(rows := db.rows[role := Row(s.level, Encode(mem), row.version + 1, row.epoch)]);
      }
    }

    method Save(role: int, s: Saved, net: Net) returns (r: Result<int, Failure>)
      modifies this
      ensures var (after, out) := Roles.Save(old(db), role, s.Value());
              (db, r) == Told(old(db), after, out, net)
    {
      if net.NeverRan? {
        return Err(Unavailable);
      }
      var ok := CompareAndSwap(role, s);
      if net.AnswerLost? {
        return Err(Unavailable);
      }
      return if ok then Ok(s.version + 1) else Err(StaleRole);
    }

    method SaveWithOutbox(role: int, s: Saved, eventId: string, net: Net) returns (r: Result<int, Failure>)
      modifies this
      ensures var (after, out) := Roles.SaveWithOutbox(old(db), role, s.Value(), eventId);
              (db, r) == if eventId == "" then (after, out) else Told(old(db), after, out, net)
    {
      if eventId == "" {
        return Err(NoEvent);
      }
      if net.NeverRan? {
        return Err(Unavailable);
      }
      var ok := CompareAndSwap(role, s);
      if ok {
        if eventId !in db.outbox {
          db := db.(outbox := db.outbox[eventId := OutboxRow(role, s.level, s.version + 1)]);
        }
      }
      if net.AnswerLost? {
        return Err(Unavailable);
      }
      return if ok then Ok(s.version + 1) else Err(StaleRole);
    }

    method SaveIdempotent(role: int, source: string, s: Saved, b: Bundle, net: Net)
      returns (r: Result<Option<int>, Failure>)
      modifies this
      ensures var (after, out) := Roles.SaveIdempotent(old(db), role, source, s.Value(), b);
              (db, r) == Told(old(db), after, out, net)
    {
      if net.NeverRan? {
        return Err(Unavailable);
      }
      var known := source != "" && (role, source) in db.ledger;
      var ok := false;
      if !known {
        ok := CompareAndSwap(role, s);
        if ok && source != "" {
          db := db.(ledger := db.ledger[(role, source) := b]);
        }
      }
      if net.AnswerLost? {
        return Err(Unavailable);
      }
      return if known then Ok(None) else if ok then Ok(Some(s.version + 1)) else Err(StaleRole);
    }
  }

  /** The task may still go back to `before`: same row numbers, maps of its own. */
  ghost predicate CanGoBack(a: Actor, before: Saved)
    reads a, before.bag, before.skills, before.quests, before.questProg
  {
    && a.Valid() && before.Apart() && a.Dicts() !! before.Dicts()
    && before.version == a.version && before.epoch == a.epoch
  }

  /** Take a copy, then mutate in place. */
  method Begin(a: Actor, m: Mutation) returns (before: Saved, err: Option<Failure>)
    requires a.Valid()
    modifies a, a.inv, a.skills, a.quests, a.questProg
    ensures CanGoBack(a, before) && fresh(before.Dicts()) && before.Value() == old(a.Holds())
    ensures a.Dicts() == old(a.Dicts()) && a.closed == old(a.closed)
    ensures var r := Mutate(old(a.Holds()).mem, m);
            && (err.Some? ==> r == Err(err.value) && a.Holds() == old(a.Holds()))
            && (err.None? ==> r.Ok? && a.Holds() == old(a.Holds()).(mem := r.value))
  {
    before := a.SnapshotUnsafe();
    err := a.Perform(m);
  }

  /** Save a copy of the memory; on any failure the actor is back at `before`. */
  method SaveOrGoBack(a: Actor, repo: RoleRepo, before: Saved, net: Net) returns (r: Result<(), Failure>)
    requires CanGoBack(a, before)
    modifies a, repo
    ensures a.Valid() && a.closed == old(a.closed)
    ensures a.Dicts() == old(a.Dicts()) || a.Dicts() == before.Dicts()
    ensures var c := old(a.Holds());
            var (db', out) := Roles.Save(old(repo.db), a.id, c);
            After(repo.db, a.Holds(), r) == Settle(old(repo.db), db', before.Value(), c.mem, out, net)
  {
    var now := a.SnapshotUnsafe();
    var saved := repo.Save(a.id, now, net);
    r := a.Conclude(before, saved);
  }

  method SaveEventOrGoBack(a: Actor, repo: RoleRepo, before: Saved, eventId: string, net: Net) returns (r: Result<(), Failure>)
    requires CanGoBack(a, before)
    modifies a, repo
    ensures a.Valid() && a.closed == old(a.closed)
    ensures a.Dicts() == old(a.Dicts()) || a.Dicts() == before.Dicts()
    ensures var c := old(a.Holds());
            var (db', out) := Roles.SaveWithOutbox(old(repo.db), a.id, c, eventId);
            After(repo.db, a.Holds(), r)
            == Settle(old(repo.db), db', before.Value(), c.mem, out, if eventId == "" then Answered else net)
  {
    var now := a.SnapshotUnsafe();
    var saved := repo.SaveWithOutbox(a.id, now, eventId, net);
    r := a.Conclude(before, saved);
  }

  /** The body of WithPlayerSaved. */
  method SavedTask(a: Actor, repo: RoleRepo, m: Mutation, net: Net) returns (r: Result<(), Failure>)
    requires a.Valid()
    modifies a, a.inv, a.skills, a.quests, a.questProg, repo
    ensures a.Valid() && a.closed == old(a.closed) && fresh(a.Dicts() - old(a.Dicts()))
    ensures After(repo.db, a.Holds(), r) == RunSaved(old(repo.db), a.id, old(a.Holds()), m, net)
  {
    var before, err := Begin(a, m);
    if err.Some? {
      a.RestoreUnsafe(before);
      return Err(err.value);
    }
    r := SaveOrGoBack(a, repo, before, net);
  }

  /** The dungeon pass inside WithPlayerOutbox. */
  method PassTask(a: Actor, repo: RoleRepo, net: Net) returns (r: Result<(), Failure>)
    requires a.Valid()
    modifies a, a.inv, a.skills, a.quests, a.questProg, repo
    ensures a.Valid() && a.closed == old(a.closed) && fresh(a.Dicts() - old(a.Dicts()))
    ensures After(repo.db, a.Holds(), r) == RunPass(old(repo.db), a.id, old(a.Holds()), net)
  {
    var before, _ := Begin(a, PassDungeon);
    r := SaveEventOrGoBack(a, repo, before, EventId(a.id, a.level), net);
  }

  /** The tail of ApplyGrant after its bundle is applied in memory. */
  method BookOrGoBack(a: Actor, repo: RoleRepo, source: string, b: Bundle, before: Saved, net: Net, reload: Net)
    returns (applied: bool, r: Result<(), Failure>)
    requires CanGoBack(a, before)
    modifies a, repo
    ensures a.Valid() && a.closed == old(a.closed)
    ensures a.Dicts() == old(a.Dicts()) || fresh(a.Dicts() - before.Dicts())
    ensures applied <==> r.Ok? && !(net.Answered? && Roles.SaveIdempotent(old(repo.db), a.id, source, old(a.Holds()), b).1 == Ok(None))
    ensures var c := old(a.Holds());
            var (db', out) := Roles.SaveIdempotent(old(repo.db), a.id, source, c, b);
            After(repo.db, a.Holds(), r)
            == if net.Answered? && out == Ok(None) then RunReload(old(repo.db), a.id, before.Value(), reload)
               else
                 var v := if out.Err? then Err(out.error) else if out.value.None? then Ok(c.version)
                          else Ok(out.value.value);
                 Settle(old(repo.db), db', before.Value(), c.mem, v, net)
  {
    applied := false;
    var now := a.SnapshotUnsafe();
    var saved := repo.SaveIdempotent(a.id, source, now, b, net);
    if saved.Ok? && saved.value.None? {
      r := Reload(a, repo, before, reload);
    } else {
      applied := saved.Ok?;
      r := a.Conclude(before, if saved.Ok? then Ok(saved.value.value) else Err(saved.error));
    }
  }

  /** ApplyGrant, with nothing running between its two transactions. */
  method GrantTask(a: Actor, repo: RoleRepo, source: string, b: Bundle, net: Net, reload: Net)
    returns (applied: bool, r: Result<(), Failure>)
    requires a.Valid()
    modifies a, a.inv, a.skills, a.quests, a.questProg, repo
    ensures a.Valid() && a.closed == old(a.closed) && fresh(a.Dicts() - old(a.Dicts()))
    ensures var g := RunGrant(old(repo.db), a.id, old(a.Holds()), source, b, net);
            After(repo.db, a.Holds(), r)
            == if g.Settled? then g.out else RunReload(old(repo.db), a.id, old(a.Holds()), reload)
    ensures applied <==> r.Ok? && RunGrant(old(repo.db), a.id, old(a.Holds()), source, b, net).Settled?
  {
    var before, err := Begin(a, Grant(b));
    if err.Some? {
      return false, Err(err.value);
    }
    applied, r := BookOrGoBack(a, repo, source, b, before, net, reload);
  }

  /** The second transaction of a duplicate grant. */
  method Reload(a: Actor, repo: RoleRepo, before: Saved, net: Net) returns (r: Result<(), Failure>)
    requires a.Valid() && before.Apart()
    modifies a
    ensures a.Valid() && a.closed == old(a.closed) && fresh(a.Dicts() - before.Dicts())
    ensures After(repo.db, a.Holds(), r) == RunReload(repo.db, a.id, before.Value(), net)
  {
    if !net.Answered? || a.id !in repo.db.rows {
      a.RestoreUnsafe(before);
      return Err(if net.Answered? then NotFound else Unavailable);
    }
    var latest := FromCell(Decode(repo.db.rows[a.id]));
    a.RestoreUnsafe(latest);
    return Ok(());
  }

  method FromCell(c: Cell) returns (s: Saved)
    ensures s.Value() == c && s.Apart() && fresh(s.Dicts())
  {
    var b := new Dict(c.mem.bag);
    var k := new Dict(c.mem.skills);
    var q := new Dict(c.mem.quests);
    var p := new Dict(c.mem.questProg);
    s := Saved(c.mem.level, c.mem.gold, b, k, q, p, c.mem.guild, c.version, c.epoch);
  }

  /** A protocol frame: acts outside MutatingAct change nothing at all, the others are saved tasks. */
  method HandleTask(a: Actor, repo: RoleRepo, cmd: int, act: int, arg: string, net: Net)
    returns (r: Result<(), Failure>)
    requires a.Valid()
    modifies a, a.inv, a.skills, a.quests, a.questProg, repo
    ensures a.Valid() && a.closed == old(a.closed) && fresh(a.Dicts() - old(a.Dicts()))
    ensures if MutatingAct(cmd, act) then
              After(repo.db, a.Holds(), r) == RunSaved(old(repo.db), a.id, old(a.Holds()), ActMutation(act, arg), net)
            else
              repo.db == old(repo.db) && a.Holds() == old(a.Holds())
              && r == if SupportedAct(cmd, act) then Ok(()) else Err(NotFound)
  {
    if !SupportedAct(cmd, act) {
      return Err(NotFound);
    }
    if !MutatingAct(cmd, act) {
      return Ok(());
    }
    r := SavedTask(a, repo, ActMutation(act, arg), net);
  }
}
