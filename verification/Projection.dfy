/**
 * From the outbox to a rank board: publishers lease committed events, send them to the stream
 * and mark them; the rank consumer takes each message up to ten times, in any order. Leases
 * expire while their holders still work, publishers crash between any two actions, messages
 * are redelivered or given up, and the board is trimmed in the background.
 */
module Projection {
  import opened Base
  import opened Decimal
  import opened Roles
  import RoleProtocol
  import RoleTheorems
  import opened RankBoard
  import opened Delivery

  function Member(zone: int, role: int): string {
    if zone > 0 then "z" + (Itoa(zone) + ":" + Itoa(role)) else Itoa(role)
  }

  lemma MemberInjective(zone: int, a: int, b: int)
    requires Member(zone, a) == Member(zone, b)
    ensures a == b
  {
    if zone > 0 {
      assert Member(zone, a)[1..] == Itoa(zone) + ":" + Itoa(a);
      assert Member(zone, b)[1..] == Itoa(zone) + ":" + Itoa(b);
      PairInjective(zone, a, zone, b);
    } else {
      PrintInjective(a, b);
    }
  }

  /** A message of the stream with the deliveries it has had. */
  datatype Message = Message(event: string, row: OutboxRow, attempts: seq<Attempt>)

  /**
   * `core` holds roles and outbox. `leased` and `published` are the two outbox marks, `hand`
   * the events a publisher holds and has not sent, `sent` those acknowledged by the stream and
   * not yet marked. `served` is the trimmed board; `full` is what it would be without trims,
   * and `delivered` the events that have reached it.
   */
  datatype State = State(
    core: RoleProtocol.State,
    leased: set<string>,
    published: set<string>,
    hand: set<(nat, string)>,
    sent: set<(nat, string)>,
    messages: seq<Message>,
    served: Board,
    full: Board,
    delivered: set<string>)

  /** A send is `merged` when the stream recognises an earlier message of the event and keeps only
      that. A delivery may have `written` the board and still not count as handled. */
  datatype Step =
    | Core(step: RoleProtocol.Step)
    | Lease(worker: nat, event: string)
    | Expire(event: string)
    | Send(worker: nat, event: string, answered: bool, merged: bool)
    | Mark(worker: nat, event: string, answered: bool)
    | Crash(worker: nat)
    | Deliver(n: nat, attempt: Attempt, written: bool)
    | TrimBoard

  const Start := State(RoleProtocol.Start, {}, {}, {}, {}, [], map[], map[], {})

  /** Deployment constants: the zone the game servers run for and the board's cap. */
  datatype Config = Config(zone: int, cap: nat)

  predicate HasMessage(messages: seq<Message>, e: string) {
    exists n :: 0 <= n < |messages| && messages[n].event == e
  }

  predicate Open(m: Message) { FateAfter(true, m.attempts) == Pending }

  function Next(cfg: Config, s: State, step: Step): State {
    match step
    case Core(st) => s.(core := RoleProtocol.Next(s.core, st))
    case Lease(w, e) =>
      if e !in s.core.db.outbox || e in s.published || e in s.leased then s
      else s.(leased := s.leased + {e}, hand := s.hand + {(w, e)})
    case Expire(e) => s.(leased := s.leased - {e})
    case Send(w, e, answered, merged) =>
      if (w, e) !in s.hand || e !in s.core.db.outbox then s
      else
        s.(messages := if merged && HasMessage(s.messages, e) then s.messages
                       else s.messages + [Message(e, s.core.db.outbox[e], [])],
           hand := s.hand - {(w, e)}, sent := if answered then s.sent + {(w, e)} else s.sent)
    case Mark(w, e, answered) =>
      if (w, e) !in s.sent then s
      else s.(published := s.published + {e}, sent := if answered then s.sent - {(w, e)} else s.sent)
    case Crash(w) =>
      s.(hand := (set p | p in s.hand && p.0 != w), sent := (set p | p in s.sent && p.0 != w))
    case Deliver(n, a, written) =>
      if n >= |s.messages| || !Open(s.messages[n]) || (a.handled && !written) then s
      else
        var m := s.messages[n];
        var t := s.(messages := s.messages[n := m.(attempts := m.attempts + [a])]);
        if !written then t
        else
          var member := Member(cfg.zone, m.row.role);
          t.(served := Write(s.served, member, m.row.level), full := Write(s.full, member, m.row.level),
             delivered := s.delivered + {m.event})
    case TrimBoard => s.(served := Trim(s.served, cfg.cap))
  }

  function Run(cfg: Config, s: State, steps: seq<Step>): State {
    if steps == [] then s else Next(cfg, Run(cfg, s, steps[..|steps| - 1]), steps[|steps| - 1])
  }

  /* ---------- the invariant ---------- */

  /** Whatever is marked published or acknowledged has a message, and messages are as committed. */
  predicate Sourced(s: State) {
    && (forall e :: e in s.published ==> HasMessage(s.messages, e))
    && (forall p :: p in s.sent ==> HasMessage(s.messages, p.1))
    && (forall p :: p in s.hand ==> p.1 in s.core.db.outbox)
    && (forall n :: 0 <= n < |s.messages| ==> Genuine(s.core.db, s.messages[n]))
    && (forall e :: e in s.delivered ==> e in s.core.db.outbox)
  }

  predicate Genuine(db: Db, m: Message) {
    m.event in db.outbox && db.outbox[m.event] == m.row
  }

  /** Every delivered event is on the board, and every score of the board was delivered. */
  ghost predicate Projected(cfg: Config, s: State) {
    && (forall e :: e in s.delivered && e in s.core.db.outbox ==> Counted(cfg, s, e))
    && (forall m :: m in s.full ==> exists e :: Explains(cfg, s, m, e))
  }

  /** The event's member has at least the event's level. */
  predicate Counted(cfg: Config, s: State, e: string)
    requires e in s.core.db.outbox
  {
    var m := Member(cfg.zone, s.core.db.outbox[e].role); m in s.full && s.core.db.outbox[e].level <= s.full[m]
  }

  predicate Explains(cfg: Config, s: State, m: string, e: string) {
    e in s.delivered && e in s.core.db.outbox && m == Member(cfg.zone, s.core.db.outbox[e].role)
    && m in s.full && s.full[m] == s.core.db.outbox[e].level
  }

  ghost predicate Inv(cfg: Config, s: State) {
    RoleProtocol.Inv(s.core) && Sourced(s) && Projected(cfg, s) && Shadows(s.served, s.full, cfg.cap)
  }

  predicate OutboxGrows(s: RoleProtocol.State, t: RoleProtocol.State) {
    forall e :: e in s.db.outbox ==> e in t.db.outbox && t.db.outbox[e] == s.db.outbox[e]
  }

  /** A committed event is never changed or removed by any step of any actor. */
  lemma OutboxOnlyGrows(s: RoleProtocol.State, step: RoleProtocol.Step)
    requires RoleProtocol.Inv(s)
    ensures OutboxGrows(s, RoleProtocol.Next(s, step))
  {
    RoleProtocol.StepsAreTableSteps(s, step);
    TableStepsGrow(s, RoleProtocol.Next(s, step));
  }

  lemma TableStepsGrow(s: RoleProtocol.State, t: RoleProtocol.State)
    requires RoleProtocol.TableStep(s, t)
    ensures OutboxGrows(s, t)
  {
  }

  /** Explanations survive when the board stays and the outbox only grows. */
  lemma ExplanationsStay(cfg: Config, s: State, t: State)
    requires Projected(cfg, s) && t.full == s.full && t.delivered == s.delivered && OutboxGrows(s.core, t.core)
    requires forall e :: e in s.delivered ==> e in s.core.db.outbox
    ensures Projected(cfg, t)
  {
    forall m | m in t.full ensures exists e :: Explains(cfg, t, m, e) {
      var e :| Explains(cfg, s, m, e);
      assert Explains(cfg, t, m, e);
    }
    forall e | e in t.delivered && e in t.core.db.outbox ensures Counted(cfg, t, e) {
      assert Counted(cfg, s, e);
    }
  }

  lemma CoreKeeps(cfg: Config, s: State, step: RoleProtocol.Step)
    requires Inv(cfg, s)
    ensures Inv(cfg, Next(cfg, s, Core(step)))
  {
    RoleProtocol.StepKeeps(s.core, step);
    OutboxOnlyGrows(s.core, step);
    CoreKeepsSourced(s, RoleProtocol.Next(s.core, step));
    ExplanationsStay(cfg, s, Next(cfg, s, Core(step)));
  }

  lemma CoreKeepsSourced(s: State, core: RoleProtocol.State)
    requires Sourced(s) && OutboxGrows(s.core, core)
    ensures Sourced(s.(core := core))
  {
    forall n | 0 <= n < |s.messages| ensures Genuine(core.db, s.messages[n]) {
      assert Genuine(s.core.db, s.messages[n]);
    }
  }

  predicate Written(s: State, step: Step) {
    step.Deliver? && step.n < |s.messages| && Open(s.messages[step.n]) && step.written
  }

  /** A write of a genuine message: its event is counted, and every score keeps an explanation. */
  lemma WriteProjects(cfg: Config, s: State, m: Message)
    requires Projected(cfg, s) && Genuine(s.core.db, m)
    ensures Projected(cfg, s.(full := Write(s.full, Member(cfg.zone, m.row.role), m.row.level),
                              delivered := s.delivered + {m.event}))
  {
    var m0 := Member(cfg.zone, m.row.role);
    var t := s.(full := Write(s.full, m0, m.row.level), delivered := s.delivered + {m.event});
    forall x | x in t.full ensures exists e :: Explains(cfg, t, x, e) {
      if x == m0 && (x !in s.full || s.full[x] < m.row.level) {
        assert Explains(cfg, t, x, m.event);
      } else {
        var e :| Explains(cfg, s, x, e);
        assert Explains(cfg, t, x, e);
      }
    }
    forall e | e in t.delivered && e in t.core.db.outbox ensures Counted(cfg, t, e) {
      assert e != m.event ==> Counted(cfg, s, e);
    }
  }

  lemma ProjectedKeeps(cfg: Config, s: State, step: Step)
    requires Sourced(s) && Projected(cfg, s) && !step.Core?
    ensures Projected(cfg, Next(cfg, s, step))
  {
    if Written(s, step) {
      var m := s.messages[step.n];
      WriteProjects(cfg, s, m);
      SameProjection(cfg, s.(full := Write(s.full, Member(cfg.zone, m.row.role), m.row.level),
                             delivered := s.delivered + {m.event}), Next(cfg, s, step));
    } else {
      SameProjection(cfg, s, Next(cfg, s, step));
    }
  }

  /** Only outbox, board and delivered events matter. */
  lemma SameProjection(cfg: Config, s: State, t: State)
    requires Projected(cfg, s) && t.full == s.full && t.delivered == s.delivered && t.core == s.core
    ensures Projected(cfg, t)
  {
    forall m | m in t.full ensures exists e :: Explains(cfg, t, m, e) {
      var e :| Explains(cfg, s, m, e);
      assert Explains(cfg, t, m, e);
    }
    forall e | e in t.delivered && e in t.core.db.outbox ensures Counted(cfg, t, e) {
      assert Counted(cfg, s, e);
    }
  }

  /** A message stays, with the deliveries it has had, and new ones come at the end. */
  predicate MessagesGrow(a: seq<Message>, b: seq<Message>) {
    |a| <= |b| && forall n :: 0 <= n < |a| ==> b[n].event == a[n].event && b[n].row == a[n].row
  }

  lemma HasMessageStays(a: seq<Message>, b: seq<Message>, e: string)
    requires MessagesGrow(a, b) && HasMessage(a, e)
    ensures HasMessage(b, e)
  {
    var n :| 0 <= n < |a| && a[n].event == e;
    assert b[n].event == e;
  }

  lemma MessagesOnlyGrow(cfg: Config, s: State, step: Step)
    ensures MessagesGrow(s.messages, Next(cfg, s, step).messages)
  {
  }

  lemma MessagesStayGenuine(cfg: Config, s: State, step: Step)
    requires !step.Core?
    requires forall n :: 0 <= n < |s.messages| ==> Genuine(s.core.db, s.messages[n])
    ensures var t := Next(cfg, s, step); forall n :: 0 <= n < |t.messages| ==> Genuine(t.core.db, t.messages[n])
  {
  }

  lemma SourcedKeeps(cfg: Config, s: State, step: Step)
    requires Sourced(s) && !step.Core?
    ensures Sourced(Next(cfg, s, step))
  {
    var t := Next(cfg, s, step);
    MessagesOnlyGrow(cfg, s, step);
    MessagesStayGenuine(cfg, s, step);
    SetsStaySourced(cfg, s, step);
    forall e | e in t.published ensures HasMessage(t.messages, e) {
      if e in s.published || (exists w :: (w, e) in s.sent) {
        HasMessageStays(s.messages, t.messages, e);
      }
    }
    forall p | p in t.sent ensures HasMessage(t.messages, p.1) {
      if p in s.sent {
        HasMessageStays(s.messages, t.messages, p.1);
      }
    }
  }

  /** New marks come from acknowledged events, new acknowledgements from messages. */
  lemma SetsStaySourced(cfg: Config, s: State, step: Step)
    requires Sourced(s) && !step.Core?
    ensures var t := Next(cfg, s, step);
            && (forall e :: e in t.published ==> e in s.published || exists w :: (w, e) in s.sent)
            && (forall p :: p in t.sent ==> p in s.sent || HasMessage(t.messages, p.1))
            && (forall p :: p in t.hand ==> p.1 in t.core.db.outbox)
            && (forall e :: e in t.delivered ==> e in t.core.db.outbox)
  {
    var t := Next(cfg, s, step);
    match step
    case Send(w, e, _, merged) =>
      if t.messages != s.messages {
        assert t.messages[|s.messages|].event == e;
      }
    case Mark(w, e, _) => assert (w, e) !in s.sent ==> t == s;
    case Deliver(n, _, _) => assert n < |s.messages| ==> Genuine(s.core.db, s.messages[n]);
    case _ =>
  }

  lemma ShadowsKeeps(cfg: Config, s: State, step: Step)
    requires Shadows(s.served, s.full, cfg.cap) && !step.Core?
    ensures Shadows(Next(cfg, s, step).served, Next(cfg, s, step).full, cfg.cap)
  {
    match step
    case Deliver(n, _, _) =>
      if Written(s, step) {
        WriteShadows(s.served, s.full, cfg.cap, Member(cfg.zone, s.messages[n].row.role), s.messages[n].row.level);
      }
    case TrimBoard => TrimShadows(s.served, s.full, cfg.cap);
    case _ =>
  }

  lemma StepKeeps(cfg: Config, s: State, step: Step)
    requires Inv(cfg, s)
    ensures Inv(cfg, Next(cfg, s, step))
  {
    if step.Core? {
      CoreKeeps(cfg, s, step.step);
    } else {
      SourcedKeeps(cfg, s, step);
      ProjectedKeeps(cfg, s, step);
      ShadowsKeeps(cfg, s, step);
    }
  }

  lemma {:induction false} RunKeeps(cfg: Config, steps: seq<Step>)
    ensures Inv(cfg, Run(cfg, Start, steps))
  {
    if steps != [] {
      RunKeeps(cfg, steps[..|steps| - 1]);
      StepKeeps(cfg, Run(cfg, Start, steps[..|steps| - 1]), steps[|steps| - 1]);
    }
  }

  /* ---------- what the board shows ---------- */

  function LevelOf(s: State, role: int): int
    requires role in s.core.db.rows
  {
    Decode(s.core.db.rows[role]).mem.level
  }

  /** The role has committed at least one dungeon pass. */
  predicate HasPassed(s: State, role: int) {
    role in s.core.db.rows && role in s.core.log && RoleProtocol.Passes(s.core.log[role]) > 0
  }

  /** The event of the role's latest pass. */
  function Latest(s: State, role: int): string
    requires role in s.core.db.rows
  {
    EventId(role, LevelOf(s, role))
  }

  /** An event stands for a level its role has committed, after its first one. */
  lemma EventLevel(s: RoleProtocol.State, e: string)
    requires RoleProtocol.Inv(s) && e in s.db.outbox
    ensures var o := s.db.outbox[e];
            e == EventId(o.role, o.level)
            && o.role in s.db.rows && o.role in s.base && o.role in s.log
            && s.base[o.role].level < o.level <= Decode(s.db.rows[o.role]).mem.level
            && RoleProtocol.Passes(s.log[o.role]) > 0
  {
    assert RoleProtocol.RoleAgrees(s, s.db.outbox[e].role);
  }

  /** `m` stands for a role that has passed, at a level it has committed. */
  ghost predicate Earned(cfg: Config, s: State, m: string) {
    m in s.full
    && exists role :: m == Member(cfg.zone, role) && HasPassed(s, role) && s.full[m] <= LevelOf(s, role)
  }

  lemma BoardIsEarned(cfg: Config, s: State, m: string)
    requires Inv(cfg, s) && m in s.full
    ensures Earned(cfg, s, m)
  {
    var e :| Explains(cfg, s, m, e);
    EventLevel(s.core, e);
    assert HasPassed(s, s.core.db.outbox[e].role);
  }

  /** In every run, whatever is shown for a member, on the trimmed board or without trims, is at
      most the level that the member's role has committed. */
  lemma RankNeverOverstates(cfg: Config, steps: seq<Step>, m: string)
    ensures var s := Run(cfg, Start, steps);
            && (m in s.served ==> m in s.full && s.served[m] <= s.full[m])
            && (m in s.full ==> Earned(cfg, s, m))
  {
    RunKeeps(cfg, steps);
    var s := Run(cfg, Start, steps);
    if m in s.full {
      BoardIsEarned(cfg, s, m);
    }
  }

  /** The untrimmed score of the role is its committed level. */
  predicate OnBoard(cfg: Config, s: State, role: int)
    requires role in s.core.db.rows
  {
    Member(cfg.zone, role) in s.full && s.full[Member(cfg.zone, role)] == LevelOf(s, role)
  }

  lemma LatestIsCommitted(s: State, role: int)
    requires RoleProtocol.Inv(s.core) && HasPassed(s, role)
    ensures Latest(s, role) in s.core.db.outbox
    ensures s.core.db.outbox[Latest(s, role)].role == role && s.core.db.outbox[Latest(s, role)].level == LevelOf(s, role)
  {
    assert RoleProtocol.RoleAgrees(s.core, role);
    var o := s.core.db.outbox[Latest(s, role)];
    EventLevel(s.core, Latest(s, role));
    EventIdInjective(role, LevelOf(s, role), o.role, o.level);
  }

  /** A role's untrimmed score is its committed level if and only if the event of its latest pass has
      reached the board, in whatever order and number events were delivered. */
  lemma RankCatchesUpIff(cfg: Config, s: State, role: int)
    requires Inv(cfg, s) && HasPassed(s, role)
    ensures OnBoard(cfg, s, role) <==> Latest(s, role) in s.delivered
  {
    var m := Member(cfg.zone, role);
    LatestIsCommitted(s, role);
    if m in s.full {
      var e :| Explains(cfg, s, m, e);
      MemberInjective(cfg.zone, role, s.core.db.outbox[e].role);
      EventLevel(s.core, e);
      if Latest(s, role) in s.delivered {
        assert Counted(cfg, s, Latest(s, role));
      }
    }
  }

  /** The board read off the committed rows. */
  ghost function Levels(cfg: Config, s: State): Board {
    assert forall a, b {:trigger Member(cfg.zone, a), Member(cfg.zone, b)} ::
             Member(cfg.zone, a) == Member(cfg.zone, b) ==> a == b by {
      forall a, b | Member(cfg.zone, a) == Member(cfg.zone, b) ensures a == b {
        MemberInjective(cfg.zone, a, b);
      }
    }
    map r | r in s.core.db.rows && HasPassed(s, r) :: Member(cfg.zone, r) := LevelOf(s, r)
  }

  lemma FullIsLevels(cfg: Config, s: State)
    requires forall m :: m in s.full ==> Earned(cfg, s, m)
    requires forall r :: HasPassed(s, r) ==> OnBoard(cfg, s, r)
    ensures s.full == Levels(cfg, s)
  {
    var b := Levels(cfg, s);
    forall m | m in b ensures m in s.full && s.full[m] == b[m] {
      var r :| HasPassed(s, r) && m == Member(cfg.zone, r) && b[m] == LevelOf(s, r);
      assert OnBoard(cfg, s, r);
    }
    forall m | m in s.full ensures m in b {
      assert Earned(cfg, s, m);
    }
  }

  /** In every run, once the latest event of each role is delivered the players see exactly the best k
      of the committed levels, although the board has been trimmed all along. */
  lemma LeaderboardIsCommittedLevels(cfg: Config, steps: seq<Step>, k: nat)
    requires k <= cfg.cap
    requires AllCaughtUp(Run(cfg, Start, steps))
    ensures var s := Run(cfg, Start, steps); Top(s.served, k) == Top(Levels(cfg, s), k)
  {
    RunKeeps(cfg, steps);
    CaughtUpIsLevels(cfg, Run(cfg, Start, steps));
    SameTopAsFull(cfg, Run(cfg, Start, steps), k);
  }

  ghost predicate AllCaughtUp(s: State) {
    forall r :: HasPassed(s, r) ==> Latest(s, r) in s.delivered
  }

  lemma SameTopAsFull(cfg: Config, s: State, k: nat)
    requires Inv(cfg, s) && k <= cfg.cap
    ensures Top(s.served, k) == Top(s.full, k)
  {
    SameTop(s.served, s.full, cfg.cap, k);
  }

  lemma CaughtUpIsLevels(cfg: Config, s: State)
    requires Inv(cfg, s) && AllCaughtUp(s)
    ensures s.full == Levels(cfg, s)
  {
    forall m | m in s.full ensures Earned(cfg, s, m) {
      BoardIsEarned(cfg, s, m);
    }
    forall r | HasPassed(s, r) ensures OnBoard(cfg, s, r) {
      RankCatchesUpIff(cfg, s, r);
    }
    FullIsLevels(cfg, s);
  }

  /** A trim leaves at most `cap` members on the board. */
  lemma TrimBoundsBoard(cfg: Config, s: State)
    ensures |Next(cfg, s, TrimBoard).served| <= cfg.cap
  {
    TrimKeepsTheBest(s.served, cfg.cap);
  }

  /** A crashed publisher holds nothing any more, and nobody else loses anything. */
  lemma CrashDropsHands(cfg: Config, s: State, w: nat)
    ensures var t := Next(cfg, s, Crash(w));
            && (forall p :: p in t.hand <==> p in s.hand && p.0 != w)
            && (forall p :: p in t.sent <==> p in s.sent && p.0 != w)
            && t.published == s.published && t.messages == s.messages && t.leased == s.leased
  {
  }

  /* ---------- which events can still reach the board ---------- */

  predicate OpenMessage(s: State, e: string) {
    exists n :: 0 <= n < |s.messages| && s.messages[n].event == e && Open(s.messages[n])
  }

  predicate InHand(s: State, e: string) { exists p :: p in s.hand && p.1 == e }

  /** Delivered, or not marked published, or held by a publisher, or with a message still open. */
  predicate Alive(s: State, e: string) {
    e in s.delivered || e !in s.published || InHand(s, e) || OpenMessage(s, e)
  }

  ghost predicate CanReach(cfg: Config, s: State, e: string) {
    exists more :: e in Run(cfg, s, more).delivered
  }

  lemma RunSnoc(cfg: Config, s: State, steps: seq<Step>, step: Step)
    ensures Run(cfg, s, steps + [step]) == Next(cfg, Run(cfg, s, steps), step)
  {
    assert (steps + [step])[..|steps|] == steps;
  }

  lemma RunCons(cfg: Config, s: State, step: Step, more: seq<Step>)
    ensures Run(cfg, s, [step] + more) == Run(cfg, Next(cfg, s, step), more)
  {
    RunConcat(cfg, s, [step], more);
    assert [step][..0] == [];
  }

  /** If one step leads to a state from which the event can reach the board, it can before. */
  lemma ReachLater(cfg: Config, s: State, step: Step, e: string)
    requires CanReach(cfg, Next(cfg, s, step), e)
    ensures CanReach(cfg, s, e)
  {
    var more :| e in Run(cfg, Next(cfg, s, step), more).delivered;
    RunCons(cfg, s, step, more);
  }

  lemma DeliveredReaches(cfg: Config, s: State, e: string)
    requires e in s.delivered
    ensures CanReach(cfg, s, e)
  {
    assert e in Run(cfg, s, []).delivered;
  }

  lemma OpenReaches(cfg: Config, s: State, e: string)
    requires OpenMessage(s, e)
    ensures CanReach(cfg, s, e)
  {
    var n :| 0 <= n < |s.messages| && s.messages[n].event == e && Open(s.messages[n]);
    var step := Deliver(n, Attempt(true, false), true);
    DeliveredReaches(cfg, Next(cfg, s, step), e);
    ReachLater(cfg, s, step, e);
  }

  lemma HeldReaches(cfg: Config, s: State, e: string)
    requires e in s.core.db.outbox && InHand(s, e)
    ensures CanReach(cfg, s, e)
  {
    var p :| p in s.hand && p.1 == e;
    var step := Send(p.0, e, true, false);
    var t := Next(cfg, s, step);
    assert t.messages[|s.messages|] == Message(e, s.core.db.outbox[e], []);
    assert Open(t.messages[|s.messages|]);
    OpenReaches(cfg, t, e);
    ReachLater(cfg, s, step, e);
  }

  lemma UnpublishedReaches(cfg: Config, s: State, e: string)
    requires e in s.core.db.outbox && e !in s.published
    ensures CanReach(cfg, s, e)
  {
    var t := Next(cfg, s, Expire(e));
    var u := Next(cfg, t, Lease(0, e));
    assert (0, e) in u.hand;
    HeldReaches(cfg, u, e);
    ReachLater(cfg, t, Lease(0, e), e);
    ReachLater(cfg, s, Expire(e), e);
  }

  /** An event that is not alive stays that way whatever happens. */
  lemma DeadStays(cfg: Config, s: State, step: Step, e: string)
    requires !Alive(s, e)
    ensures !Alive(Next(cfg, s, step), e)
  {
    var t := Next(cfg, s, step);
    match step
    case Deliver(n, a, _) =>
      assert forall i :: 0 <= i < |s.messages| && s.messages[i].event == e ==> !Open(s.messages[i]);
    case Send(w, x, _, _) =>
      if x == e {
        assert (w, x) !in s.hand;
      } else {
        SendKeepsOthersClosed(cfg, s, step, e);
      }
    case _ =>
      assert t.messages == s.messages;
  }

  lemma SendKeepsOthersClosed(cfg: Config, s: State, step: Step, e: string)
    requires step.Send? && step.event != e && !Alive(s, e)
    ensures !Alive(Next(cfg, s, step), e)
  {
    var t := Next(cfg, s, step);
    assert forall i :: 0 <= i < |s.messages| && s.messages[i].event == e ==> !Open(s.messages[i]);
    assert t.messages == s.messages || t.messages[|s.messages|].event == step.event;
  }

  lemma {:induction false} DeadForGood(cfg: Config, s: State, more: seq<Step>, e: string)
    requires !Alive(s, e)
    ensures !Alive(Run(cfg, s, more), e)
  {
    if more != [] {
      DeadForGood(cfg, s, more[..|more| - 1], e);
      DeadStays(cfg, Run(cfg, s, more[..|more| - 1]), more[|more| - 1], e);
    }
  }

  /** In every run: a committed event can still reach the board if and only if it is there, or is not
      marked published, or a publisher holds it, or a message of it is still open. */
  lemma ReachesBoardIff(cfg: Config, steps: seq<Step>, e: string)
    requires e in Run(cfg, Start, steps).core.db.outbox
    ensures CanReach(cfg, Run(cfg, Start, steps), e) <==> Alive(Run(cfg, Start, steps), e)
  {
    var s := Run(cfg, Start, steps);
    if e in s.delivered {
      DeliveredReaches(cfg, s, e);
    } else if e !in s.published {
      UnpublishedReaches(cfg, s, e);
    } else if InHand(s, e) {
      HeldReaches(cfg, s, e);
    } else if OpenMessage(s, e) {
      OpenReaches(cfg, s, e);
    } else {
      forall more ensures e !in Run(cfg, s, more).delivered {
        DeadForGood(cfg, s, more, e);
      }
    }
  }

  /** In every run a mark never runs ahead: an event marked published has a message, as it was committed. */
  lemma PublishedWasSent(cfg: Config, steps: seq<Step>, e: string)
    requires e in Run(cfg, Start, steps).published
    ensures var s := Run(cfg, Start, steps);
            exists n :: 0 <= n < |s.messages| && s.messages[n].event == e && Genuine(s.core.db, s.messages[n])
  {
    RunKeeps(cfg, steps);
    var s := Run(cfg, Start, steps);
    var n :| 0 <= n < |s.messages| && s.messages[n].event == e;
    assert Genuine(s.core.db, s.messages[n]);
  }

  /* ---------- a published event that is lost ---------- */

  const FAILED := Attempt(false, false)

  /** A message after k failed deliveries; the tenth closes it. */
  lemma {:induction false} FailingDeliveries(cfg: Config, s: State, n: nat, k: nat) returns (more: seq<Step>)
    requires n < |s.messages| && s.messages[n].attempts == [] && k <= MAX_DELIVERIES
    ensures var m := s.messages[n].(attempts := seq(k, i => FAILED));
            Run(cfg, s, more) == s.(messages := s.messages[n := m])
  {
    if k == 0 {
      more := [];
      assert s.messages[n].(attempts := seq(0, i => FAILED)) == s.messages[n];
      assert s.messages[n := s.messages[n]] == s.messages;
    } else {
      var front := FailingDeliveries(cfg, s, n, k - 1);
      var t := Run(cfg, s, front);
      AllFailed(k - 1);
      more := front + [Deliver(n, FAILED, false)];
      RunSnoc(cfg, s, front, Deliver(n, FAILED, false));
      assert seq(k - 1, i => FAILED) + [FAILED] == seq(k, i => FAILED);
      assert t.messages[n := s.messages[n].(attempts := seq(k, i => FAILED))]
          == s.messages[n := s.messages[n].(attempts := seq(k, i => FAILED))];
    }
  }

  lemma AllFailed(k: nat)
    ensures (FateAfter(true, seq(k, i => FAILED)) == Pending) <==> k < MAX_DELIVERIES
  {
    FateOfMessage(true, seq(k, i => FAILED));
  }

  /** Committed and not yet taken up by anybody. */
  predicate Untouched(s: State, e: string) {
    && e in s.core.db.outbox && e !in s.published && e !in s.leased && e !in s.delivered
    && !InHand(s, e) && !HasMessage(s.messages, e)
  }

  /** Whatever else has happened, an event nobody has taken up yet can be leased, sent, marked and then
      fail all its deliveries: it is marked published and nothing ever brings it to the board. */
  lemma AnyNewEventCanBeLost(cfg: Config, s: State, e: string) returns (more: seq<Step>)
    requires Untouched(s, e)
    ensures e in Run(cfg, s, more).published && e in Run(cfg, s, more).core.db.outbox
    ensures !Alive(Run(cfg, s, more), e)
  {
    var publish := [Lease(0, e)] + [Send(0, e, true, false)] + [Mark(0, e, true)];
    RunSnoc(cfg, s, [], Lease(0, e));
    RunSnoc(cfg, s, [Lease(0, e)], Send(0, e, true, false));
    RunSnoc(cfg, s, [Lease(0, e)] + [Send(0, e, true, false)], Mark(0, e, true));
    var t := Run(cfg, s, publish);
    PublishedOnce(cfg, s, e);
    var fail := FailingDeliveries(cfg, t, |s.messages|, MAX_DELIVERIES);
    more := publish + fail;
    RunConcat(cfg, s, publish, fail);
    LostAfterTen(s, t, Run(cfg, t, fail), e);
  }

  /** Leasing, sending and marking one event. */
  lemma PublishedOnce(cfg: Config, s: State, e: string)
    requires Untouched(s, e)
    ensures Next(cfg, Next(cfg, Next(cfg, s, Lease(0, e)), Send(0, e, true, false)), Mark(0, e, true))
         == s.(leased := s.leased + {e}, published := s.published + {e},
               hand := s.hand + {(0, e)} - {(0, e)}, sent := s.sent + {(0, e)} - {(0, e)},
               messages := s.messages + [Message(e, s.core.db.outbox[e], [])])
  {
  }

  lemma LostAfterTen(s: State, t: State, u: State, e: string)
    requires Untouched(s, e) && e in s.core.db.outbox
    requires t.messages == s.messages + [Message(e, s.core.db.outbox[e], [])]
    requires t.delivered == s.delivered && t.hand == s.hand + {(0, e)} - {(0, e)} && e in t.published
    requires u == t.(messages := t.messages[|s.messages| := Message(e, s.core.db.outbox[e], seq(MAX_DELIVERIES, i => FAILED))])
    ensures !Alive(u, e)
  {
    AllFailed(MAX_DELIVERIES);
    assert forall n :: 0 <= n < |s.messages| ==> s.messages[n].event != e;
  }

  lemma {:induction false} RunConcat(cfg: Config, s: State, a: seq<Step>, b: seq<Step>)
    ensures Run(cfg, s, a + b) == Run(cfg, Run(cfg, s, a), b)
  {
    if b == [] {
      assert a + b == a;
    } else {
      RunConcat(cfg, s, a, b[..|b| - 1]);
      assert (a + b)[..|a + b| - 1] == a + b[..|b| - 1];
    }
  }

  /** A run of the code from its start after which the event of a committed pass is marked published
      and can never reach the board. */
  lemma PublishedEventLost(cfg: Config) returns (steps: seq<Step>)
    ensures var s, e := Run(cfg, Start, steps), EventId(7, 2);
            e in s.core.db.outbox && e in s.published && forall more :: e !in Run(cfg, s, more).delivered
  {
    var pass := OnePass(cfg);
    var lose := AnyNewEventCanBeLost(cfg, Run(cfg, Start, pass), EventId(7, 2));
    steps := pass + lose;
    RunConcat(cfg, Start, pass, lose);
    forall more ensures EventId(7, 2) !in Run(cfg, Run(cfg, Start, steps), more).delivered {
      DeadForGood(cfg, Run(cfg, Start, steps), more, EventId(7, 2));
    }
  }

  /** Role 7 passes its first dungeon. */
  lemma OnePass(cfg: Config) returns (steps: seq<Step>)
    ensures Untouched(Run(cfg, Start, steps), EventId(7, 2))
  {
    var a := [Core(RoleProtocol.EnsureRole(7, 1))];
    var b := a + [Core(RoleProtocol.AcquireRole(0, 7))];
    steps := b + [Core(RoleProtocol.PassTask(0, Answered))];
    RunSnoc(cfg, Start, [], Core(RoleProtocol.EnsureRole(7, 1)));
    RunSnoc(cfg, Start, a, Core(RoleProtocol.AcquireRole(0, 7)));
    RunSnoc(cfg, Start, b, Core(RoleProtocol.PassTask(0, Answered)));
    RoleTheorems.FirstSteps();
    FirstPass();
  }

  lemma FirstPass()
    ensures EventId(7, 2) in RoleProtocol.Next(RoleTheorems.Poor, RoleProtocol.PassTask(0, Answered)).db.outbox
  {
  }
}
