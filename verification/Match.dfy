/**
 * The shared matchmaking queue: the atomic join script, the compensation that puts a group back,
 * and the requests that hold a popped group until its battle room exists. Requests interleave
 * freely, their answers may be lost, and they may stop at any moment.
 */
module Match {
  import opened Base
  import opened Decimal
  import opened Roles

  /* ---------- members as text ---------- */

  const MIN_INT32 := -0x8000_0000
  const MAX_INT32 := 0x7fff_ffff
  const MIN_INT64 := -0x8000_0000_0000_0000
  const MAX_INT64 := 0x7fff_ffff_ffff_ffff

  datatype QueueEntry = QueueEntry(zone: int, role: int, raw: string)

  function MemberKey(zone: int, role: int): string {
    "z" + (Itoa(zone) + ":" + Itoa(role))
  }

  /** The position of the first colon, or the length. */
  function ColonAt(s: string): (i: nat)
    ensures i <= |s| && (i < |s| ==> s[i] == ':')
  {
    if s == [] || s[0] == ':' then 0 else 1 + ColonAt(s[1..])
  }

  function ParseMember(raw: string): Option<QueueEntry> {
    if |raw| == 0 || raw[0] != 'z' then None
    else
      var i := ColonAt(raw);
      if i == |raw| || i == 0 then None
      else
        var zone := ParseInt(raw[1..i], MIN_INT32, MAX_INT32);
        var role := ParseInt(raw[i + 1..], MIN_INT64, MAX_INT64);
        if zone.None? || role.None? then None else Some(QueueEntry(zone.value, role.value, raw))
  }

  lemma {:induction false} ColonAfter(p: string, x: string)
    requires ':' !in p
    ensures ColonAt(p + ":" + x) == |p|
  {
    var s := p + ":" + x;
    if p != [] {
      ColonAfter(p[1..], x);
      assert s[1..] == p[1..] + ":" + x;
      assert s[0] == p[0] && p[0] in p;
    }
  }

  lemma MemberKeySplits(zone: int, role: int)
    ensures var raw := MemberKey(zone, role);
            var i := ColonAt(raw);
            raw[0] == 'z' && 0 < i < |raw| && raw[1..i] == Itoa(zone) && raw[i + 1..] == Itoa(role)
  {
    var p := "z" + Itoa(zone);
    PrintedHasNoColon(zone);
    assert MemberKey(zone, role) == p + ":" + Itoa(role);
    ColonAfter(p, Itoa(role));
  }

  predicate InRange(zone: int, role: int) {
    MIN_INT32 <= zone <= MAX_INT32 && MIN_INT64 <= role <= MAX_INT64
  }

  /** Every member that a player can have parses back to that player. */
  lemma ParseInvertsMemberKey(zone: int, role: int)
    requires InRange(zone, role)
    ensures ParseMember(MemberKey(zone, role)) == Some(QueueEntry(zone, role, MemberKey(zone, role)))
  {
    MemberKeySplits(zone, role);
    ParsePrinted(zone, MIN_INT32, MAX_INT32);
    ParsePrinted(role, MIN_INT64, MAX_INT64);
  }

  /* ---------- queue operations ---------- */

  type Queue = seq<string>

  predicate NoneTwice(q: Queue) { forall i, j :: 0 <= i < j < |q| ==> q[i] != q[j] }

  /** LREM key 0 member. */
  function Removed(q: Queue, m: string): Queue {
    if q == [] then [] else if q[|q| - 1] == m then Removed(q[..|q| - 1], m) else Removed(q[..|q| - 1], m) + [q[|q| - 1]]
  }

  /** The members of a queue that are not in a group, in their order. */
  function Without(q: Queue, group: seq<string>): Queue {
    if q == [] then []
    else if q[|q| - 1] in group then Without(q[..|q| - 1], group)
    else Without(q[..|q| - 1], group) + [q[|q| - 1]]
  }

  /** The join script: leave, enter at the back, and pop a group when enough are waiting. */
  function Joined(q: Queue, m: string, need: nat): (Queue, seq<string>) {
    var waiting := Removed(q, m) + [m];
    if |waiting| >= need then (waiting[need..], waiting[..need]) else (waiting, [])
  }

  /** Put members back at the end, one after the other. */
  function Requeued(q: Queue, group: seq<string>): Queue {
    if group == [] then q
    else Removed(Requeued(q, group[..|group| - 1]), group[|group| - 1]) + [group[|group| - 1]]
  }

  lemma {:induction false} RemovedMembers(q: Queue, m: string)
    ensures forall x :: x in Removed(q, m) <==> x in q && x != m
    ensures NoneTwice(q) ==> NoneTwice(Removed(q, m))
  {
    if q != [] {
      var front, last := q[..|q| - 1], q[|q| - 1];
      assert q == front + [last];
      RemovedMembers(front, m);
      if NoneTwice(q) {
        assert last !in front;
        assert last !in Removed(front, m);
      }
    }
  }

  /** A join leaves nobody twice and loses nobody: the popped group followed by the queue is the old
      queue without the joiner, in its order, then the joiner. A group has exactly the needed size,
      and without a group fewer than that are waiting. */
  lemma JoinTakesTheFirst(q: Queue, m: string, need: nat)
    requires NoneTwice(q)
    ensures var (rest, group) := Joined(q, m, need);
            && group + rest == Without(q, [m]) + [m]
            && NoneTwice(group) && NoneTwice(rest)
            && (forall x :: x in group ==> x !in rest)
            && (if group == [] then need == 0 || |rest| < need else |group| == need)
  {
    var waiting := Removed(q, m) + [m];
    RemovedMembers(q, m);
    RemovedIsWithout(q, m);
    Apart(Removed(q, m), [m]);
    if |waiting| >= need {
      CutApart(waiting, need);
    }
  }

  lemma CutApart(q: Queue, n: nat)
    requires NoneTwice(q) && n <= |q|
    ensures q[..n] + q[n..] == q && NoneTwice(q[..n]) && NoneTwice(q[n..])
    ensures forall x :: x in q[..n] ==> x !in q[n..]
  {
  }

  lemma {:induction false} RemovedIsWithout(q: Queue, m: string)
    ensures Removed(q, m) == Without(q, [m])
  {
    if q != [] {
      RemovedIsWithout(q[..|q| - 1], m);
    }
  }

  lemma RemovedSnoc(q: Queue, x: string, m: string)
    ensures Removed(q + [x], m) == if x == m then Removed(q, m) else Removed(q, m) + [x]
  {
    assert (q + [x])[..|q|] == q;
  }

  lemma {:induction false} RemovedAppend(q: Queue, t: Queue, m: string)
    requires m !in t
    ensures Removed(q + t, m) == Removed(q, m) + t
  {
    if t == [] {
      assert q + t == q;
      assert Removed(q, m) + t == Removed(q, m);
    } else {
      var front, x := t[..|t| - 1], t[|t| - 1];
      RemovedAppend(q, front, m);
      RemovedSnoc(q + front, x, m);
      LastApart(q, t);
      LastApart(Removed(q, m), t);
    }
  }

  lemma LastApart(q: Queue, t: Queue)
    requires t != []
    ensures q + t == q + t[..|t| - 1] + [t[|t| - 1]]
  {
  }

  lemma {:induction false} RemovedFromWithout(q: Queue, group: seq<string>, m: string)
    ensures Removed(Without(q, group), m) == Without(q, group + [m])
  {
    if q != [] {
      var front, x := q[..|q| - 1], q[|q| - 1];
      RemovedFromWithout(front, group, m);
      if x !in group {
        RemovedSnoc(Without(front, group), x, m);
      }
    }
  }

  /** Putting a group back moves exactly its members to the end, in the group's order; everybody else
      keeps his place among the others. */
  lemma {:induction false} RequeuePutsGroupLast(q: Queue, group: seq<string>)
    requires NoneTwice(group)
    ensures Requeued(q, group) == Without(q, group) + group
  {
    if group == [] {
      WithoutNobody(q);
      assert Without(q, group) + group == q;
    } else {
      var front, m := group[..|group| - 1], group[|group| - 1];
      assert group == front + [m];
      RequeuePutsGroupLast(q, front);
      RemovedAppend(Without(q, front), front, m);
      RemovedFromWithout(q, front, m);
      assert Without(q, group) + front + [m] == Without(q, group) + group;
    }
  }

  lemma {:induction false} WithoutNobody(q: Queue)
    ensures Without(q, []) == q
  {
    if q != [] {
      WithoutNobody(q[..|q| - 1]);
    }
  }

  lemma {:induction false} WithoutMembers(q: Queue, group: seq<string>)
    ensures forall x :: x in Without(q, group) <==> x in q && x !in group
    ensures NoneTwice(q) ==> NoneTwice(Without(q, group))
  {
    if q != [] {
      var front, last := q[..|q| - 1], q[|q| - 1];
      assert q == front + [last];
      WithoutMembers(front, group);
      if NoneTwice(q) {
        assert last !in front;
        assert last !in Without(front, group);
      }
    }
  }

  lemma RequeueKeepsOnce(q: Queue, group: seq<string>)
    requires NoneTwice(q) && NoneTwice(group)
    ensures NoneTwice(Requeued(q, group))
    ensures forall x :: x in Requeued(q, group) <==> x in q || x in group
  {
    RequeuePutsGroupLast(q, group);
    WithoutMembers(q, group);
    Apart(Without(q, group), group);
  }

  lemma Apart(a: Queue, b: Queue)
    requires NoneTwice(a) && NoneTwice(b) && forall x :: x in a ==> x !in b
    ensures NoneTwice(a + b)
  {
    forall i, j | 0 <= i < j < |a + b| ensures (a + b)[i] != (a + b)[j] {
      if i < |a| <= j {
        assert a[i] in a && b[j - |a|] in b;
      }
    }
  }

  /* ---------- requests ---------- */

  const PLAYERS_PER_MATCH := 2

  /**
   * One queue. `held` are the groups in the hands of running requests, `rooms` the groups that got
   * a battle room, `lost` the members of groups that nobody holds any more: the join's answer or
   * the compensation failed, or the request stopped. `joined` is everybody who ever joined.
   */
  datatype State = State(
    queue: Queue, held: map<nat, seq<string>>, rooms: seq<seq<string>>, lost: set<string>, joined: set<string>)

  datatype Step =
    | JoinStep(g: nat, zone: int, role: int, net: Net)
    | RoomStep(g: nat)
    | CompensateStep(g: nat, net: Net)
    | CrashStep(g: nat)

  const Start := State([], map[], [], {}, {})

  function Members(group: seq<string>): set<string> { set m | m in group }

  function Next(s: State, step: Step): State {
    match step
    case JoinStep(g, zone, role, net) =>
      if g in s.held || !InRange(zone, role) || net.NeverRan? then s
      else
        var m := MemberKey(zone, role);
        var (rest, group) := Joined(s.queue, m, PLAYERS_PER_MATCH);
        var t := s.(queue := rest, joined := s.joined + {m});
        if net.AnswerLost? then t.(lost := s.lost + Members(group))
        else if group == [] then t
        else t.(held := s.held[g := group])
    case RoomStep(g) =>
      if g !in s.held then s else s.(rooms := s.rooms + [s.held[g]], held := s.held - {g})
    case CompensateStep(g, net) =>
      if g !in s.held then s
      else
        s.(queue := if net.NeverRan? then s.queue else Requeued(s.queue, s.held[g]),
           lost := if net.NeverRan? then s.lost + Members(s.held[g]) else s.lost,
           held := s.held - {g})
    case CrashStep(g) =>
      if g !in s.held then s else s.(lost := s.lost + Members(s.held[g]), held := s.held - {g})
  }

  function Run(s: State, steps: seq<Step>): State {
    if steps == [] then s else Next(Run(s, steps[..|steps| - 1]), steps[|steps| - 1])
  }

  predicate Held(s: State, m: string) { exists g :: g in s.held && m in s.held[g] }

  predicate Roomed(s: State, m: string) { exists i :: 0 <= i < |s.rooms| && m in s.rooms[i] }

  /** Everybody who joined waits, is held, has a room, or was lost. */
  predicate Somewhere(s: State, m: string) {
    m in s.queue || Held(s, m) || Roomed(s, m) || m in s.lost
  }

  predicate QueueOk(q: Queue) {
    NoneTwice(q) && forall m :: m in q ==> ParseMember(m).Some?
  }

  predicate GroupOk(group: seq<string>) {
    |group| == PLAYERS_PER_MATCH && NoneTwice(group) && forall m :: m in group ==> ParseMember(m).Some?
  }

  predicate Inv(s: State) {
    && QueueOk(s.queue)
    && (forall g :: g in s.held ==> GroupOk(s.held[g]))
    && (forall i :: 0 <= i < |s.rooms| ==> GroupOk(s.rooms[i]))
    && (forall m :: m in s.joined ==> Somewhere(s, m))
  }

  lemma JoinedMembers(q: Queue, m: string, need: nat, x: string)
    requires NoneTwice(q)
    ensures var (rest, group) := Joined(q, m, need); (x in rest || x in group) <==> (x in q || x == m)
  {
    JoinTakesTheFirst(q, m, need);
    WithoutMembers(q, [m]);
    var (rest, group) := Joined(q, m, need);
    assert x in group + rest <==> x in Without(q, [m]) + [m];
  }

  /** Whoever was somewhere still is, and so is the joiner. */
  lemma JoinLosesNobody(s: State, step: Step, x: string)
    requires step.JoinStep? && NoneTwice(s.queue)
    requires x in s.joined ==> Somewhere(s, x)
    ensures var t := Next(s, step); x in t.joined ==> Somewhere(t, x)
  {
    var t := Next(s, step);
    if t != s {
      JoinedMembers(s.queue, MemberKey(step.zone, step.role), PLAYERS_PER_MATCH, x);
      var (rest, group) := Joined(s.queue, MemberKey(step.zone, step.role), PLAYERS_PER_MATCH);
      if x in group && step.net.Answered? {
        assert t.held[step.g] == group;
      }
      if Held(s, x) {
        var g :| g in s.held && x in s.held[g];
        assert g in t.held && x in t.held[g];
      }
    }
  }

  lemma JoinedOk(q: Queue, zone: int, role: int)
    requires QueueOk(q) && InRange(zone, role)
    ensures var (rest, group) := Joined(q, MemberKey(zone, role), PLAYERS_PER_MATCH);
            QueueOk(rest) && (group == [] || GroupOk(group)) && (forall x :: x in group ==> x !in rest)
  {
    var m := MemberKey(zone, role);
    JoinTakesTheFirst(q, m, PLAYERS_PER_MATCH);
    ParseInvertsMemberKey(zone, role);
    forall x | x in Joined(q, m, PLAYERS_PER_MATCH).0 || x in Joined(q, m, PLAYERS_PER_MATCH).1
      ensures ParseMember(x).Some?
    {
      JoinedMembers(q, m, PLAYERS_PER_MATCH, x);
    }
  }

  lemma JoinKeeps(s: State, step: Step)
    requires Inv(s) && step.JoinStep?
    ensures Inv(Next(s, step))
  {
    var t := Next(s, step);
    forall x | x in t.joined ensures Somewhere(t, x) {
      JoinLosesNobody(s, step, x);
    }
    if t != s {
      JoinedOk(s.queue, step.zone, step.role);
    }
  }

  /** A held group ends in a room, back in the queue, or lost; everybody else stays where he was. */
  lemma SettleLosesNobody(s: State, step: Step, x: string)
    requires !step.JoinStep? && NoneTwice(s.queue) && (step.g in s.held ==> NoneTwice(s.held[step.g]))
    requires Somewhere(s, x)
    ensures Somewhere(Next(s, step), x)
  {
    var t := Next(s, step);
    if step.g in s.held {
      var group := s.held[step.g];
      RequeueKeepsOnce(s.queue, group);
      if Roomed(s, x) {
        var i :| 0 <= i < |s.rooms| && x in s.rooms[i];
        assert x in t.rooms[i];
      } else if Held(s, x) {
        var g :| g in s.held && x in s.held[g];
        if g != step.g {
          assert g in t.held && x in t.held[g];
        } else if step.RoomStep? {
          assert t.rooms[|s.rooms|] == group;
        }
      }
    }
  }

  lemma SettleKeeps(s: State, step: Step)
    requires Inv(s) && !step.JoinStep?
    ensures Inv(Next(s, step))
  {
    var t := Next(s, step);
    forall x | x in t.joined ensures Somewhere(t, x) {
      SettleLosesNobody(s, step, x);
    }
    if step.g in s.held {
      RequeueKeepsOnce(s.queue, s.held[step.g]);
    }
  }

  lemma {:induction false} RunKeeps(steps: seq<Step>)
    ensures Inv(Run(Start, steps))
  {
    if steps != [] {
      var s, step := Run(Start, steps[..|steps| - 1]), steps[|steps| - 1];
      RunKeeps(steps[..|steps| - 1]);
      if step.JoinStep? {
        JoinKeeps(s, step);
      } else {
        SettleKeeps(s, step);
      }
    }
  }

  /** In every run nobody waits twice, every group popped or given a room is the needed number of
      different members, all of which parse, and everybody who joined is accounted for. */
  lemma NobodyIsForgotten(steps: seq<Step>)
    ensures var s := Run(Start, steps);
            && NoneTwice(s.queue)
            && (forall g :: g in s.held ==> GroupOk(s.held[g]))
            && (forall i :: 0 <= i < |s.rooms| ==> GroupOk(s.rooms[i]))
            && (forall m :: m in s.joined ==> Somewhere(s, m))
  {
    RunKeeps(steps);
  }

  /** A failure before the battle room exists, with a compensation that executes, puts the whole group
      at the end of the queue in its order, whoever joined in the meantime. */
  lemma CompensationRestoresGroup(steps: seq<Step>, g: nat, net: Net)
    requires g in Run(Start, steps).held && !net.NeverRan?
    ensures var s := Run(Start, steps);
            var t := Next(s, CompensateStep(g, net));
            t.queue == Without(s.queue, s.held[g]) + s.held[g] && t.lost == s.lost && t.joined == s.joined
  {
    RunKeeps(steps);
    RequeuePutsGroupLast(Run(Start, steps).queue, Run(Start, steps).held[g]);
  }

  /** A request that ends lets its group go: into a room, back to the queue, or lost. */
  lemma GroupIsSettled(s: State, step: Step)
    requires !step.JoinStep? && step.g in s.held
    ensures var t, group := Next(s, step), s.held[step.g];
            && t.held == s.held - {step.g} && t.joined == s.joined
            && match step
               case RoomStep(_) => t.rooms == s.rooms + [group] && t.queue == s.queue && t.lost == s.lost
               case CompensateStep(_, net) =>
                 t.rooms == s.rooms && if net.NeverRan? then t.queue == s.queue && forall m :: m in group ==> m in t.lost
                                       else t.lost == s.lost && forall m :: m in group ==> m in t.queue
               case CrashStep(_) => t.rooms == s.rooms && t.queue == s.queue && forall m :: m in group ==> m in t.lost
  {
    if step.CompensateStep? && !step.net.NeverRan? {
      RequeuedMembers(s.queue, s.held[step.g]);
    }
  }

  lemma {:induction false} RequeuedMembers(q: Queue, group: seq<string>)
    ensures forall m :: m in group ==> m in Requeued(q, group)
  {
    if group != [] {
      var front, last := group[..|group| - 1], group[|group| - 1];
      assert group == front + [last];
      RequeuedMembers(q, front);
      RemovedMembers(Requeued(q, front), last);
    }
  }

  /* ---------- one player, one place ---------- */

  /** Nobody is in two groups, or in a group and in the queue. */
  predicate OnePlaceEach(s: State) {
    && (forall g, m :: g in s.held && m in s.held[g] ==> m !in s.queue)
    && (forall g, h :: g in s.held && h in s.held && g != h ==> Apart2(s.held[g], s.held[h]))
  }

  predicate Apart2(a: seq<string>, b: seq<string>) { forall m :: m in a ==> m !in b }

  /** A join that executes is by somebody whose group is not held any more, unless it pops him at once and
      the group is lost with the answer. */
  predicate Polite(s: State, step: Step) {
    Executes(s, step) ==>
      var m := MemberKey(step.zone, step.role);
      !Held(s, m) || (step.net.AnswerLost? && m in Joined(s.queue, m, PLAYERS_PER_MATCH).1)
  }

  predicate Executes(s: State, step: Step) {
    step.JoinStep? && step.g !in s.held && InRange(step.zone, step.role) && !step.net.NeverRan?
  }

  lemma AllJoinedMembers(q: Queue, m: string, need: nat)
    requires NoneTwice(q)
    ensures var (rest, group) := Joined(q, m, need);
            forall x :: ((x in rest || x in group) <==> (x in q || x == m)) && (x in group ==> x !in rest)
  {
    JoinTakesTheFirst(q, m, need);
    forall x ensures (x in Joined(q, m, need).0 || x in Joined(q, m, need).1) <==> (x in q || x == m) {
      JoinedMembers(q, m, need, x);
    }
  }

  lemma PoliteJoinKeeps(s: State, step: Step)
    requires Executes(s, step) && NoneTwice(s.queue) && OnePlaceEach(s) && Polite(s, step)
    ensures OnePlaceEach(Next(s, step))
  {
    AllJoinedMembers(s.queue, MemberKey(step.zone, step.role), PLAYERS_PER_MATCH);
  }

  lemma RudeJoinBreaks(s: State, step: Step)
    requires Executes(s, step) && NoneTwice(s.queue) && !Polite(s, step)
    ensures !OnePlaceEach(Next(s, step))
  {
    var t, m := Next(s, step), MemberKey(step.zone, step.role);
    AllJoinedMembers(s.queue, m, PLAYERS_PER_MATCH);
    var g :| g in s.held && m in s.held[g];
    assert g in t.held && m in t.held[g];
    if m in Joined(s.queue, m, PLAYERS_PER_MATCH).1 {
      assert !Apart2(t.held[g], t.held[step.g]);
    } else {
      assert m in t.queue;
    }
  }

  /** The other steps keep everybody in one place. */
  lemma SettleOnePlace(s: State, step: Step)
    requires !step.JoinStep? && NoneTwice(s.queue) && OnePlaceEach(s)
    requires forall g :: g in s.held ==> NoneTwice(s.held[g])
    ensures OnePlaceEach(Next(s, step))
  {
    if step.g in s.held {
      RequeueKeepsOnce(s.queue, s.held[step.g]);
      forall g | g in s.held && g != step.g ensures Apart2(s.held[g], s.held[step.g]) {}
    }
  }

  predicate PoliteThroughout(steps: seq<Step>) {
    forall i :: 0 <= i < |steps| ==> Polite(Run(Start, steps[..i]), steps[i])
  }

  predicate OnePlaceThroughout(steps: seq<Step>) {
    forall i :: 0 <= i <= |steps| ==> OnePlaceEach(Run(Start, steps[..i]))
  }

  /** From a state in which everybody is in one place, a step keeps it so if and only if it is polite. */
  lemma OnePlaceIff(s: State, step: Step)
    requires Inv(s) && OnePlaceEach(s)
    ensures OnePlaceEach(Next(s, step)) <==> Polite(s, step)
  {
    if step.JoinStep? {
      if Executes(s, step) && Polite(s, step) {
        PoliteJoinKeeps(s, step);
      } else if Executes(s, step) {
        RudeJoinBreaks(s, step);
      }
    } else {
      SettleOnePlace(s, step);
    }
  }

  lemma PrefixStep(steps: seq<Step>, i: nat)
    requires i < |steps|
    ensures Run(Start, steps[..i + 1]) == Next(Run(Start, steps[..i]), steps[i])
  {
    assert steps[..i + 1][..i] == steps[..i];
  }

  lemma {:induction false} PolitePrefix(steps: seq<Step>, i: nat)
    requires PoliteThroughout(steps) && i <= |steps|
    ensures OnePlaceEach(Run(Start, steps[..i]))
  {
    if i > 0 {
      PolitePrefix(steps, i - 1);
      RunKeeps(steps[..i - 1]);
      PrefixStep(steps, i - 1);
      OnePlaceIff(Run(Start, steps[..i - 1]), steps[i - 1]);
    }
  }

  /** In a run nobody is ever in two groups, or in a group and in the queue, if and only if nobody joins
      while a request still holds his group. */
  lemma OnePlaceExactlyWhenPolite(steps: seq<Step>)
    ensures OnePlaceThroughout(steps) <==> PoliteThroughout(steps)
  {
    if PoliteThroughout(steps) {
      forall i | 0 <= i <= |steps| ensures OnePlaceEach(Run(Start, steps[..i])) {
        PolitePrefix(steps, i);
      }
    }
    if OnePlaceThroughout(steps) {
      forall i | 0 <= i < |steps| ensures Polite(Run(Start, steps[..i]), steps[i]) {
        RunKeeps(steps[..i]);
        PrefixStep(steps, i);
        assert OnePlaceEach(Run(Start, steps[..i])) && OnePlaceEach(Run(Start, steps[..i + 1]));
        OnePlaceIff(Run(Start, steps[..i]), steps[i]);
      }
    }
  }

  /** The code lets it happen: player 1 is matched, joins again while his group waits for its battle room,
      and is matched into a second group. */
  lemma InTwoGroups() returns (steps: seq<Step>)
    ensures var s, m := Run(Start, steps), MemberKey(1, 1);
            0 in s.held && 1 in s.held && m in s.held[0] && m in s.held[1]
  {
    var a, b, c := MemberKey(1, 1), MemberKey(1, 2), MemberKey(1, 3);
    DifferentKeys();
    var s1 := [] + [JoinStep(9, 1, 1, Answered)];
    var s2 := s1 + [JoinStep(0, 1, 2, Answered)];
    var s3 := s2 + [JoinStep(9, 1, 1, Answered)];
    steps := s3 + [JoinStep(1, 1, 3, Answered)];
    RunSnoc([], JoinStep(9, 1, 1, Answered));
    RunSnoc(s1, JoinStep(0, 1, 2, Answered));
    RunSnoc(s2, JoinStep(9, 1, 1, Answered));
    RunSnoc(s3, JoinStep(1, 1, 3, Answered));
    FirstJoins(a);
    SecondJoins(a, b);
    SecondJoins(a, c);
  }

  lemma FirstJoins(m: string)
    ensures Joined([], m, PLAYERS_PER_MATCH) == ([m], [])
  {
    assert Removed([], m) + [m] == [m];
  }

  lemma SecondJoins(waiting: string, m: string)
    requires waiting != m
    ensures Joined([waiting], m, PLAYERS_PER_MATCH) == ([], [waiting, m])
  {
    assert [waiting][..0] == [];
    assert Removed([waiting], m) + [m] == [waiting, m];
    assert [waiting, m][2..] == [] && [waiting, m][..2] == [waiting, m];
  }

  lemma DifferentKeys()
    ensures MemberKey(1, 1) != MemberKey(1, 2) && MemberKey(1, 1) != MemberKey(1, 3)
  {
    ParseInvertsMemberKey(1, 1);
    ParseInvertsMemberKey(1, 2);
    ParseInvertsMemberKey(1, 3);
  }

  lemma RunSnoc(steps: seq<Step>, step: Step)
    ensures Run(Start, steps + [step]) == Next(Run(Start, steps), step)
  {
    assert (steps + [step])[..|steps|] == steps;
  }

  /* ---------- keys ---------- */

  datatype Scope = Global | Zone(id: int)

  function KeyBody(scope: Scope, mode: int): string {
    match scope
    case Global => "global:" + Itoa(mode)
    case Zone(n) => "zone:" + (Itoa(n) + ":" + Itoa(mode))
  }

  function PoolKey(scope: Scope, mode: int): string {
    "ng:match:{" + (KeyBody(scope, mode) + "}:pool")
  }

  lemma StripEnds(p: string, a: string, b: string, t: string)
    requires p + (a + t) == p + (b + t)
    ensures a == b
  {
    var x, y := p + (a + t), p + (b + t);
    assert |a| == |b|;
    assert a == x[|p|..|p| + |a|] && b == y[|p|..|p| + |b|];
  }

  lemma SameFront(p: string, a: string, b: string)
    requires p + a == p + b
    ensures a == b
  {
    assert a == (p + a)[|p|..] && b == (p + b)[|p|..];
  }

  lemma KeyBodyInjective(a: Scope, m: int, b: Scope, n: int)
    requires KeyBody(a, m) == KeyBody(b, n)
    ensures a == b && m == n
  {
    assert KeyBody(a, m)[0] == KeyBody(b, n)[0];
    match a
    case Global =>
      SameFront("global:", Itoa(m), Itoa(n));
      PrintInjective(m, n);
    case Zone(i) =>
      SameFront("zone:", Itoa(i) + ":" + Itoa(m), Itoa(b.id) + ":" + Itoa(n));
      PairInjective(i, m, b.id, n);
  }

  /** Different scopes or modes never share a queue. */
  lemma PoolKeyInjective(a: Scope, m: int, b: Scope, n: int)
    requires PoolKey(a, m) == PoolKey(b, n)
    ensures a == b && m == n
  {
    StripEnds("ng:match:{", KeyBody(a, m), KeyBody(b, n), "}:pool");
    KeyBodyInjective(a, m, b, n);
  }

  /* ---------- the pool and one request ---------- */

  function Raws(entries: seq<QueueEntry>): seq<string> {
    seq(|entries|, i requires 0 <= i < |entries| => entries[i].raw)
  }

  predicate Genuine(e: QueueEntry) { ParseMember(e.raw) == Some(e) }

  /** Every popped member becomes its entry. */
  method ParseAll(group: seq<string>) returns (matched: seq<QueueEntry>)
    requires forall m :: m in group ==> ParseMember(m).Some?
    ensures Raws(matched) == group && forall e :: e in matched ==> Genuine(e)
  {
    matched := [];
    var i := 0;
    while i < |group|
      invariant i == |matched| <= |group|
      invariant forall j :: 0 <= j < i ==> matched[j].raw == group[j] && Genuine(matched[j])
    {
      assert group[i] in group;
      matched := matched + [ParseMember(group[i]).value];
      i := i + 1;
    }
  }

  lemma PutBackOk(q: Queue, m: string)
    requires QueueOk(q) && ParseMember(m).Some?
    ensures QueueOk(Removed(q, m) + [m])
  {
    RemovedMembers(q, m);
    Apart(Removed(q, m), [m]);
  }

  lemma RequeuedNext(q: Queue, group: seq<string>, i: nat)
    requires i < |group|
    ensures Requeued(q, group[..i + 1]) == Removed(Requeued(q, group[..i]), group[i]) + [group[i]]
  {
    assert group[..i + 1][..i] == group[..i];
  }

  /** The pipeline of the compensation. */
  method PutBack(start: Queue, entries: seq<QueueEntry>) returns (q: Queue)
    requires QueueOk(start) && forall e :: e in entries ==> Genuine(e)
    ensures QueueOk(q) && q == Requeued(start, Raws(entries))
  {
    q := start;
    var i := 0;
    while i < |entries|
      invariant i <= |entries| && QueueOk(q)
      invariant q == Requeued(start, Raws(entries)[..i])
    {
      assert Genuine(entries[i]);
      PutBackOk(q, entries[i].raw);
      RequeuedNext(start, Raws(entries), i);
      q := Removed(q, entries[i].raw) + [entries[i].raw];
      i := i + 1;
    }
    assert Raws(entries)[..i] == Raws(entries);
  }

  class CrossPool {
    var queues: map<string, Queue>

    ghost predicate Valid() reads this {
      forall k :: k in queues ==> QueueOk(queues[k])
    }

    constructor ()
      ensures Valid() && queues == map[]
    {
      queues := map[];
    }

    static function Read(queues: map<string, Queue>, key: string): Queue {
      if key in queues then queues[key] else []
    }

    /** Only this queue changes, as the script says; every popped member parses. */
    method Join(scope: Scope, mode: int, zone: int, role: int) returns (matched: seq<QueueEntry>)
      requires Valid() && InRange(zone, role)
      modifies this
      ensures Valid() && forall e :: e in matched ==> Genuine(e)
      ensures (queues, Raws(matched)) ==
                var key := PoolKey(scope, mode);
                var (rest, group) := Joined(Read(old(queues), key), MemberKey(zone, role), PLAYERS_PER_MATCH);
                (old(queues)[key := rest], group)
    {
      var key := PoolKey(scope, mode);
      var q := Read(queues, key);
      JoinedOk(q, zone, role);
      var (rest, group) := Joined(q, MemberKey(zone, role), PLAYERS_PER_MATCH);
      queues := queues[key := rest];
      matched := ParseAll(group);
    }

    /** All members go back to the end of their queue, or the pipeline fails and nothing changes. */
    method Requeue(scope: Scope, mode: int, entries: seq<QueueEntry>, up: bool) returns (ok: bool)
      requires Valid() && forall e :: e in entries ==> Genuine(e)
      modifies this
      ensures Valid() && ok == up
      ensures queues ==
                var key := PoolKey(scope, mode);
                if up then old(queues)[key := Requeued(Read(old(queues), key), Raws(entries))] else old(queues)
    {
      if !up { return false; }
      var key := PoolKey(scope, mode);
      var q := PutBack(Read(queues, key), entries);
      queues := queues[key := q];
      return true;
    }
  }

  /** How far a request gets before it fails. */
  datatype Fate = AllWell | NoMatchId | NoReservation | NoBattleRoom | NoRecord

  /** The request failed before its battle room existed. */
  predicate NoRoom(fate: Fate) { fate.NoMatchId? || fate.NoReservation? || fate.NoBattleRoom? }

  datatype Reply = Wait | Matched | Failed

  /** One join request without interference: a group that gets no battle room is back at the end of the
      queue if the compensation works, and with it everybody who was waiting still waits. */
  method HandleCrossJoin(pool: CrossPool, scope: Scope, mode: int, zone: int, role: int, fate: Fate, up: bool)
    returns (reply: Reply)
    requires pool.Valid() && InRange(zone, role)
    modifies pool
    ensures pool.Valid()
    ensures var key := PoolKey(scope, mode);
            var (rest, group) := Joined(CrossPool.Read(old(pool.queues), key), MemberKey(zone, role), PLAYERS_PER_MATCH);
            && reply == (if group == [] then Wait else if fate.AllWell? then Matched else Failed)
            && pool.queues == old(pool.queues)[key := if group != [] && up && NoRoom(fate) then rest + group else rest]
  {
    JoinedOk(CrossPool.Read(pool.queues, PoolKey(scope, mode)), zone, role);
    var matched := pool.Join(scope, mode, zone, role);
    if |matched| < PLAYERS_PER_MATCH { return Wait; }
    if NoRoom(fate) {
      Compensate(pool, scope, mode, matched, up);
      return Failed;
    }
    if fate.NoRecord? { return Failed; }
    return Matched;
  }

  /** Put a group back that nobody has touched since it was popped. */
  method Compensate(pool: CrossPool, scope: Scope, mode: int, matched: seq<QueueEntry>, up: bool)
    requires pool.Valid() && (forall e :: e in matched ==> Genuine(e)) && NoneTwice(Raws(matched))
    requires forall x :: x in Raws(matched) ==> x !in CrossPool.Read(pool.queues, PoolKey(scope, mode))
    modifies pool
    ensures pool.Valid()
    ensures pool.queues ==
              var key := PoolKey(scope, mode);
              if up then old(pool.queues)[key := CrossPool.Read(old(pool.queues), key) + Raws(matched)]
              else old(pool.queues)
  {
    RequeueAtOnce(CrossPool.Read(pool.queues, PoolKey(scope, mode)), Raws(matched));
    var _ := pool.Requeue(scope, mode, matched, up);
  }

  lemma RequeueAtOnce(q: Queue, group: seq<string>)
    requires NoneTwice(group) && forall x :: x in group ==> x !in q
    ensures Requeued(q, group) == q + group
  {
    RequeuePutsGroupLast(q, group);
    WithoutStrangers(q, group);
  }

  lemma {:induction false} WithoutStrangers(q: Queue, group: seq<string>)
    requires forall x :: x in group ==> x !in q
    ensures Without(q, group) == q
  {
    if q != [] {
      WithoutStrangers(q[..|q| - 1], group);
    }
  }
}
