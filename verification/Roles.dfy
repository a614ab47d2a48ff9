/**
 * The role row, the economy ledger and the outbox as stored in Postgres, and what one
 * actor task does to them. Every SQL transaction is one function on the stored tables.
 */
module Roles {
  import opened Base
  import opened Decimal

  type Counts = map<string, int>

  datatype Bundle = Bundle(gold: int, items: Counts)

  /** The in-memory state of a role that is persisted with it. */
  datatype Snapshot = Snapshot(
    level: int, gold: int, bag: Counts, skills: Counts, quests: Counts, questProg: Counts, guild: int)

  /** The JSON document of a row; a field missing from it (or null) is None. */
  datatype Doc = Doc(
    level: Option<int>, gold: Option<int>, bag: Option<Counts>, skills: Option<Counts>,
    quests: Option<Counts>, questProg: Option<Counts>, guild: Option<int>)

  datatype Row = Row(level: int, doc: Doc, version: int, epoch: int)

  /** What an actor holds for its role: memory plus the two compare-and-swap numbers. */
  datatype Cell = Cell(mem: Snapshot, version: int, epoch: int)

  datatype OutboxRow = OutboxRow(role: int, level: int, version: int)

  datatype Db = Db(
    rows: map<int, Row>,
    ledger: map<(int, string), Bundle>,
    outbox: map<string, OutboxRow>)

  datatype Failure = InvalidRole | WrongShard | NotFound | StaleRole | InsufficientGold | InsufficientItem | NoEvent | Unavailable

  /** How a transaction meets the network: answered, executed with the answer lost, or never executed. */
  datatype Net = Answered | AnswerLost | NeverRan

  const EMPTY_DOC := Doc(None, None, None, None, None, None, None)

  /* ---------- snapshot encoding ---------- */

  function Encode(s: Snapshot): Doc {
    Doc(Some(s.level), Some(s.gold), Some(s.bag), Some(s.skills), Some(s.quests), Some(s.questProg), Some(s.guild))
  }

  function OrElse<T>(o: Option<T>, d: T): T { if o.Some? then o.value else d }

  /** The normalising read: the document overrides the level column, zero level and
      non-positive numbers become one, missing maps become empty. */
  function Decode(row: Row): Cell {
    var level := OrElse(row.doc.level, row.level);
    Cell(
      Snapshot(
        if level == 0 then 1 else level, OrElse(row.doc.gold, 0), OrElse(row.doc.bag, map[]),
        OrElse(row.doc.skills, map[]), OrElse(row.doc.quests, map[]), OrElse(row.doc.questProg, map[]),
        OrElse(row.doc.guild, 0)),
      if row.version <= 0 then 1 else row.version,
      if row.epoch <= 0 then 1 else row.epoch)
  }

  /* ---------- mutations of the memory ---------- */

  function AddItem(bag: Counts, item: string, n: int): Counts {
    if n <= 0 then bag else bag[item := Count(bag, item) + n]
  }

  function RemoveItem(bag: Counts, item: string, n: int): Option<Counts> {
    if n <= 0 then Some(bag)
    else if Count(bag, item) < n then None
    else if Count(bag, item) == n then Some(bag - {item})
    else Some(bag[item := Count(bag, item) - n])
  }

  predicate Affordable(bag: Counts, items: Counts) {
    forall i :: i in items && items[i] < 0 ==> Count(bag, i) >= -items[i]
  }

  /** The bag after a signed delta: every count moves by the delta, and an item taken to zero disappears. */
  function Shifted(bag: Counts, items: Counts): Counts {
    map i | i in bag.Keys + items.Keys
            && (if Count(items, i) > 0 then true
                else if Count(items, i) < 0 then Count(bag, i) + Count(items, i) != 0
                else i in bag)
      :: Count(bag, i) + Count(items, i)
  }

  function ApplyBundle(s: Snapshot, b: Bundle): Result<Snapshot, Failure> {
    if b.gold < 0 && s.gold < -b.gold then Err(InsufficientGold)
    else if !Affordable(s.bag, b.items) then Err(InsufficientItem)
    else Ok(s.(gold := s.gold + b.gold, bag := Shifted(s.bag, b.items)))
  }

  const GOLD_PER_PASS := 50
  const STATUS_ACCEPTED := 1
  const STATUS_DONE := 2

  /** Everything a mailbox task may do to the memory before it saves. */
  datatype Mutation =
    | Keep
    | UpgradeSkill(skill: string)
    | AcceptQuest(quest: string)
    | GainGold(amount: int)
    | JoinGuild(id: int)
    | TakeItem(item: string, count: int)
    | PassDungeon
    | Grant(bundle: Bundle)

  function QuestProgress(s: Snapshot, quest: string, delta: int): Counts {
    if Count(s.quests, quest) != STATUS_ACCEPTED then s.questProg
    else s.questProg[quest := Count(s.questProg, quest) + delta]
  }

  function Mutate(s: Snapshot, m: Mutation): Result<Snapshot, Failure> {
    match m
    case Keep => Ok(s)
    case UpgradeSkill(k) => Ok(s.(skills := s.skills[k := Count(s.skills, k) + 1]))
    case AcceptQuest(q) =>
      if Count(s.quests, q) == STATUS_ACCEPTED || Count(s.quests, q) == STATUS_DONE then Ok(s)
      else Ok(s.(quests := s.quests[q := STATUS_ACCEPTED], questProg := s.questProg[q := 0]))
    case GainGold(n) => Ok(if n > 0 then s.(gold := s.gold + n) else s)
    case JoinGuild(g) => Ok(s.(guild := g))
    case TakeItem(item, n) =>
      var taken := RemoveItem(s.bag, item, n);
      if taken.None? then Err(InsufficientItem) else Ok(s.(bag := taken.value))
    case PassDungeon =>
      Ok(s.(level := s.level + 1, gold := s.gold + GOLD_PER_PASS, bag := AddItem(s.bag, "potion", 1),
            questProg := QuestProgress(s, "main_1", 1)))
    case Grant(b) => ApplyBundle(s, b)
  }

  /* ---------- transactions ---------- */

  predicate Matches(db: Db, role: int, c: Cell) {
    role in db.rows && db.rows[role].version == c.version && db.rows[role].epoch == c.epoch
  }

  /** The row after a successful compare-and-swap. */
  function Committed(db: Db, role: int, after: Snapshot): Db
    requires role in db.rows
  {
    var row := db.rows[role];
    db.(rows := db.rows[role := Row(after.level, Encode(after), row.version + 1, row.epoch)])
  }

  function Save(db: Db, role: int, c: Cell): (Db, Result<int, Failure>) {
    if Matches(db, role, c) then (Committed(db, role, c.mem), Ok(c.version + 1)) else (db, Err(StaleRole))
  }

  /** Ledger entry and snapshot in one transaction; a known source is a successful no-op. The
      second component is the new version, or None for a duplicate. */
  function SaveIdempotent(db: Db, role: int, source: string, c: Cell, b: Bundle)
    : (Db, Result<Option<int>, Failure>)
  {
    if source == "" then
      var (db', r) := Save(db, role, c);
      (db', if r.Ok? then Ok(Some(r.value)) else Err(r.error))
    else if (role, source) in db.ledger then (db, Ok(None))
    else if Matches(db, role, c) then
      (Committed(db, role, c.mem).(ledger := db.ledger[(role, source) := b]), Ok(Some(c.version + 1)))
    else (db, Err(StaleRole))
  }

  function EventId(role: int, level: int): (id: string)
    ensures id != ""
  {
    "rank:dungeon:" + (Itoa(role) + ":" + Itoa(level))
  }

  /** Snapshot and event in one transaction; an event without id is refused before, and an event id
      already present is kept as it is. */
  function SaveWithOutbox(db: Db, role: int, c: Cell, id: string): (Db, Result<int, Failure>) {
    if id == "" then (db, Err(NoEvent))
    else if Matches(db, role, c) then
      var event := OutboxRow(role, c.mem.level, c.version + 1);
      (Committed(db, role, c.mem).(outbox := if id in db.outbox then db.outbox else db.outbox[id := event]),
       Ok(c.version + 1))
    else (db, Err(StaleRole))
  }

  function Acquire(db: Db, role: int): (Db, Result<Cell, Failure>) {
    if role !in db.rows then (db, Err(NotFound))
    else
      var row := db.rows[role].(epoch := db.rows[role].epoch + 1);
      (db.(rows := db.rows[role := row]), Ok(Decode(row)))
  }

  function Load(db: Db, role: int): Result<Cell, Failure> {
    if role in db.rows then Ok(Decode(db.rows[role])) else Err(NotFound)
  }

  function Ensure(db: Db, role: int, level: int): Db {
    if role in db.rows then db else db.(rows := db.rows[role := Row(level, EMPTY_DOC, 1, 1)])
  }

  /* ---------- mailbox tasks ---------- */

  /** Tables, actor and reply after one task. */
  datatype After = After(db: Db, cell: Cell, reply: Result<(), Failure>)

  /** What the caller sees, and whether the actor advances or is put back to where it was. */
  function Settle(db: Db, db': Db, c: Cell, after: Snapshot, r: Result<int, Failure>, net: Net): After {
    match net
    case NeverRan => After(db, c, Err(Unavailable))
    case AnswerLost => After(db', c, Err(Unavailable))
    case Answered =>
      if r.Ok? then After(db', Cell(after, r.value, c.epoch), Ok(())) else After(db', c, Err(r.error))
  }

  /** Mutate, then save; any failure leaves the actor as it was. */
  function RunSaved(db: Db, role: int, c: Cell, m: Mutation, net: Net): After {
    var after := Mutate(c.mem, m);
    if after.Err? then After(db, c, Err(after.error))
    else
      var (db', r) := Save(db, role, c.(mem := after.value));
      Settle(db, db', c, after.value, r, net)
  }

  /** The dungeon pass: mutate, then save with its rank event. */
  function RunPass(db: Db, role: int, c: Cell, net: Net): After {
    var after := Mutate(c.mem, PassDungeon).value;
    var (db', r) := SaveWithOutbox(db, role, c.(mem := after), EventId(role, after.level));
    Settle(db, db', c, after, r, net)
  }

  /** The first transaction of a grant: either it settles, or the source is a duplicate and a
      reload must follow before the mailbox takes its next task. */
  datatype Granted = Settled(out: After) | Duplicate

  function RunGrant(db: Db, role: int, c: Cell, source: string, b: Bundle, net: Net): Granted {
    var after := Mutate(c.mem, Grant(b));
    if after.Err? then Settled(After(db, c, Err(after.error)))
    else
      var (db', r) := SaveIdempotent(db, role, source, c.(mem := after.value), b);
      if net.Answered? && r.Ok? && r.value.None? then Duplicate
      else
        var r' := if r.Err? then Err(r.error) else if r.value.None? then Ok(c.version) else Ok(r.value.value);
        Settled(Settle(db, db', c, after.value, r', net))
  }

  /** The reload after a duplicate: adopt the current row, or put the actor back. */
  function RunReload(db: Db, role: int, before: Cell, net: Net): After {
    var latest := Load(db, role);
    if !net.Answered? then After(db, before, Err(Unavailable))
    else if latest.Err? then After(db, before, Err(latest.error))
    else After(db, latest.value, Ok(()))
  }

  /* ---------- facts about one task ---------- */

  /** Non-negative gold and counts, level at least one. */
  predicate Sound(s: Snapshot) {
    s.level >= 1 && s.gold >= 0 && forall i :: i in s.bag ==> s.bag[i] >= 0
  }

  /** Reading back what was saved gives exactly the saved cell. */
  lemma DecodeInvertsEncode(s: Snapshot, version: int, epoch: int)
    requires version >= 1 && epoch >= 1
    ensures Decode(Row(s.level, Encode(s), version, epoch)) == Cell(s, version, epoch) <==> s.level != 0
  {
  }

  /** A stored document wins over the level column, field by field; what it lacks reads as empty, and no
      level, version or epoch reads as less than one where the stored one is zero. */
  lemma StoredDocumentWins(column: int, s: Snapshot, version: int, epoch: int, d: Doc)
    requires d.level == None || d.level == Some(s.level)
    requires d.gold == None || d.gold == Some(s.gold)
    requires d.bag == None || d.bag == Some(s.bag)
    ensures var c := Decode(Row(column, d, version, epoch));
            && c.mem.level == (var l := if d.level == None then column else s.level; if l == 0 then 1 else l)
            && c.mem.gold == (if d.gold == None then 0 else s.gold)
            && c.mem.bag == (if d.bag == None then map[] else s.bag)
            && c.version == (if version <= 0 then 1 else version) && c.epoch == (if epoch <= 0 then 1 else epoch)
            && (d.skills == None ==> c.mem.skills == map[]) && (d.quests == None ==> c.mem.quests == map[])
            && (d.questProg == None ==> c.mem.questProg == map[]) && (d.guild == None ==> c.mem.guild == 0)
  {
  }

  lemma ShiftedCounts(bag: Counts, items: Counts, i: string)
    requires Affordable(bag, items)
    ensures Count(Shifted(bag, items), i) == Count(bag, i) + Count(items, i)
  {
  }

  lemma MutateKeepsSound(s: Snapshot, m: Mutation)
    requires Sound(s) && Mutate(s, m).Ok?
    ensures Sound(Mutate(s, m).value)
  {
    if m.Grant? {
      var t := Mutate(s, m).value;
      forall i | i in t.bag ensures t.bag[i] >= 0 {
        ShiftedCounts(s.bag, m.bundle.items, i);
      }
    }
  }

  /** A bundle is refused for its gold exactly if the gold does not suffice, else for its items exactly if
      some item does not, and otherwise applied. */
  lemma BundleIsCheckedInOrder(s: Snapshot, b: Bundle)
    ensures ApplyBundle(s, b) == Err(InsufficientGold) <==> b.gold < 0 && s.gold < -b.gold
    ensures ApplyBundle(s, b) == Err(InsufficientItem)
         <==> !(b.gold < 0 && s.gold < -b.gold) && exists i :: i in b.items && b.items[i] < 0 && Count(s.bag, i) < -b.items[i]
    ensures ApplyBundle(s, b).Ok? ==>
              var t := ApplyBundle(s, b).value;
              t.gold == s.gold + b.gold && t == s.(gold := t.gold, bag := t.bag)
              && forall i: string :: Count(t.bag, i) == Count(s.bag, i) + Count(b.items, i)
  {
    if ApplyBundle(s, b).Ok? {
      forall i: string ensures Count(ApplyBundle(s, b).value.bag, i) == Count(s.bag, i) + Count(b.items, i) {
        ShiftedCounts(s.bag, b.items, i);
      }
    }
  }

  /** Skills rise one at a time, a quest is accepted once and starts at nothing, only accepted quests make
      progress, and no mutation touches a field that is not its own. */
  lemma MutationsKeepToTheirFields(s: Snapshot, m: Mutation)
    requires Mutate(s, m).Ok?
    ensures m.UpgradeSkill? ==>
              var t := Mutate(s, m).value;
              && t == s.(skills := t.skills)
              && forall k: string :: Count(t.skills, k) == Count(s.skills, k) + if k == m.skill then 1 else 0
    ensures m.AcceptQuest? ==>
              var t := Mutate(s, m).value;
              && t == s.(quests := t.quests, questProg := t.questProg)
              && (if Count(s.quests, m.quest) == 1 || Count(s.quests, m.quest) == 2 then t == s
                  else Count(t.quests, m.quest) == 1 && Count(t.questProg, m.quest) == 0)
              && forall k: string :: k != m.quest ==>
                   Count(t.quests, k) == Count(s.quests, k) && Count(t.questProg, k) == Count(s.questProg, k)
    ensures m.GainGold? ==> Mutate(s, m).value == s.(gold := s.gold + if m.amount > 0 then m.amount else 0)
    ensures m.JoinGuild? ==> Mutate(s, m).value == s.(guild := m.id)
    ensures m.TakeItem? ==> Mutate(s, m).value == s.(bag := Mutate(s, m).value.bag)
    ensures m.Keep? ==> Mutate(s, m).value == s
  {
  }

  /** A dungeon pass is worth one level, fifty gold, one potion and, if the first quest is accepted, one
      step of it. */
  lemma PassIsWorth(s: Snapshot)
    ensures Mutate(s, PassDungeon).Ok?
    ensures var t := Mutate(s, PassDungeon).value;
            && t == s.(level := t.level, gold := t.gold, bag := t.bag, questProg := t.questProg)
            && t.level == s.level + 1 && t.gold == s.gold + 50
            && (forall i: string :: Count(t.bag, i) == Count(s.bag, i) + if i == "potion" then 1 else 0)
            && (forall q: string :: Count(t.questProg, q)
                  == Count(s.questProg, q) + if q == "main_1" && Count(s.quests, q) == 1 then 1 else 0)
  {
  }

  /** Creating a role leaves an existing one alone; a new one reads as an empty role of the given level. */
  lemma EnsuredRole(db: Db, role: int, level: int)
    ensures role in db.rows ==> Ensure(db, role, level) == db
    ensures role !in db.rows ==>
              var t := Ensure(db, role, level);
              && t == db.(rows := t.rows) && t.rows.Keys == db.rows.Keys + {role}
              && (forall r :: r in db.rows ==> t.rows[r] == db.rows[r])
              && Load(t, role) == Ok(Cell(Snapshot(if level == 0 then 1 else level, 0, map[], map[], map[], map[], 0), 1, 1))
  {
  }

  /** Acquiring raises the epoch by one and tells the new one; nothing else of any row changes. */
  lemma AcquiredRole(db: Db, role: int)
    ensures role !in db.rows ==> Acquire(db, role) == (db, Err(NotFound))
    ensures role in db.rows ==>
              var (t, r) := Acquire(db, role);
              && r == Load(t, role) && r.Ok?
              && t == db.(rows := t.rows) && t.rows.Keys == db.rows.Keys
              && t.rows[role] == db.rows[role].(epoch := db.rows[role].epoch + 1)
              && forall x :: x in db.rows && x != role ==> t.rows[x] == db.rows[x]
  {
  }

  /** Distinct passes have distinct event ids. */
  lemma EventIdInjective(r1: int, l1: int, r2: int, l2: int)
    requires EventId(r1, l1) == EventId(r2, l2)
    ensures r1 == r2 && l1 == l2
  {
    var p := "rank:dungeon:";
    assert EventId(r1, l1)[|p|..] == Itoa(r1) + ":" + Itoa(l1);
    assert EventId(r2, l2)[|p|..] == Itoa(r2) + ":" + Itoa(l2);
    PairInjective(r1, l1, r2, l2);
  }
}
