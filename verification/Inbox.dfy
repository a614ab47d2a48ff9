/**
 * Consumers that remember event ids: activity progress and mail. A message may be delivered any
 * number of times and in any order; the inbox row and the effect commit together.
 */
module Inbox {
  import opened Base
  import opened Roles
  import opened Ledger

  /* ---------- activity progress ---------- */

  /** A progress message: the key is (role, activity). */
  datatype Progress = Progress(id: string, key: (int, int), delta: int)

  datatype ActivityState = ActivityState(progress: int, claimed: bool)

  type Activities = map<(int, int), ActivityState>

  function StateOf(rows: Activities, key: (int, int)): ActivityState {
    if key in rows then rows[key] else ActivityState(0, false)
  }

  function Advanced(rows: Activities, key: (int, int), delta: int): Activities {
    rows[key := StateOf(rows, key).(progress := StateOf(rows, key).progress + delta)]
  }

  /** Inbox and rows after a sequence of deliveries. */
  function Consumed(msgs: seq<Progress>): (set<string>, Activities) {
    if msgs == [] then ({}, map[])
    else
      var (inbox, rows) := Consumed(msgs[..|msgs| - 1]);
      var m := msgs[|msgs| - 1];
      if m.id in inbox then (inbox, rows) else (inbox + {m.id}, Advanced(rows, m.key, m.delta))
  }

  /** The distinct events among the deliveries, by id. */
  function Distinct(msgs: seq<Progress>): map<string, Progress> {
    if msgs == [] then map[]
    else
      var seen, m := Distinct(msgs[..|msgs| - 1]), msgs[|msgs| - 1];
      if m.id in seen then seen else seen[m.id := m]
  }

  function DeltasFor(events: map<string, Progress>, key: (int, int)): map<string, int> {
    map id | id in events && events[id].key == key :: events[id].delta
  }

  /** Event-fed progress is the sum of the deltas of the distinct events, each counted once. */
  lemma {:induction false} ProgressIsSumOfDistinct(msgs: seq<Progress>, key: (int, int))
    ensures Consumed(msgs).0 == Distinct(msgs).Keys
    ensures StateOf(Consumed(msgs).1, key) == ActivityState(SumValues(DeltasFor(Distinct(msgs), key)), false)
  {
    if msgs != [] {
      var rest, m := msgs[..|msgs| - 1], msgs[|msgs| - 1];
      ProgressIsSumOfDistinct(rest, key);
      if m.id !in Distinct(rest) {
        var before, after := DeltasFor(Distinct(rest), key), DeltasFor(Distinct(msgs), key);
        if m.key == key {
          assert after == before[m.id := m.delta];
          SumUpdate(before, m.id, m.delta);
        } else {
          assert after == before;
        }
      }
    }
  }

  /** An event id always carries the same payload. */
  predicate Consistent(msgs: seq<Progress>) {
    forall i, j :: 0 <= i < |msgs| && 0 <= j < |msgs| && msgs[i].id == msgs[j].id ==> msgs[i] == msgs[j]
  }

  lemma {:induction false} DistinctIsTheSet(msgs: seq<Progress>)
    requires Consistent(msgs)
    ensures forall id :: id in Distinct(msgs) ==> Distinct(msgs)[id] in msgs && Distinct(msgs)[id].id == id
    ensures forall m :: m in msgs ==> m.id in Distinct(msgs) && Distinct(msgs)[m.id] == m
  {
    if msgs != [] {
      var rest := msgs[..|msgs| - 1];
      assert msgs == rest + [msgs[|msgs| - 1]];
      DistinctIsTheSet(rest);
    }
  }

  /** Repetition and order of deliveries make no difference to any progress. */
  lemma OrderAndRepetitionDoNotMatter(a: seq<Progress>, b: seq<Progress>, key: (int, int))
    requires Consistent(a) && Consistent(b)
    requires forall m :: m in a <==> m in b
    ensures StateOf(Consumed(a).1, key) == StateOf(Consumed(b).1, key)
  {
    DistinctIsTheSet(a);
    DistinctIsTheSet(b);
    assert Distinct(a) == Distinct(b);
    ProgressIsSumOfDistinct(a, key);
    ProgressIsSumOfDistinct(b, key);
  }

  class ActivityRepo {
    var inbox: set<string>
    var rows: Activities
    ghost var consumed: seq<Progress>

    ghost predicate Valid() reads this { (inbox, rows) == Consumed(consumed) }

    constructor ()
      ensures Valid() && consumed == []
    {
      inbox, rows, consumed := {}, map[], [];
    }

    /** Inbox marker and progress in one transaction; a known event only reads. */
    method AddProgressEvent(id: string, role: int, activity: int, delta: int)
      returns (state: ActivityState, applied: bool)
      requires Valid()
      modifies this
      ensures Valid() && consumed == old(consumed) + [Progress(id, (role, activity), delta)]
      ensures applied == (id !in old(inbox)) && state == StateOf(rows, (role, activity))
    {
      var key := (role, activity);
      consumed := consumed + [Progress(id, key, delta)];
      assert consumed[..|consumed| - 1] == old(consumed);
      if id in inbox { return StateOf(rows, key), false; }
      inbox, rows := inbox + {id}, Advanced(rows, key, delta);
      return rows[key], true;
    }
  }

  /* ---------- mail: one mail per event, one reward per mail ---------- */

  /** `items` is None for a mail without attachment; `event` is where the mail came from, None for a
      mail sent over HTTP. */
  datatype Mail = Mail(role: int, items: Option<Bundle>, claimed: bool, event: Option<string>)

  datatype Source = FromMail(id: nat) | Elsewhere(name: string)

  /** A claim under way: mails read and not yet granted, and mails granted and not yet marked. */
  datatype Claim = Claim(role: int, todo: set<nat>, granted: set<nat>)

  /** A mail's id is its position. */
  datatype State = State(inbox: set<string>, mails: seq<Mail>, econ: Econ<Source>, claims: map<nat, Claim>)

  datatype Step =
    | InsertStep(event: string, role: int, items: Option<Bundle>)
    | SendStep(role: int, items: Option<Bundle>)
    | ReadStep(w: nat, role: int, ids: set<nat>)
    | GrantStep(w: nat, id: nat)
    | GiveUpStep(w: nat, id: nat)
    | MarkStep(w: nat)
    | CrashStep(w: nat)
    | RoleStep(role: int)
    | OutsideStep(role: int, name: Option<string>, bundle: Bundle)

  const Start := State({}, [], Econ(map[], map[], map[]), map[])

  /** Inbox row and mail row in one transaction. */
  function Insert(s: State, event: string, role: int, items: Option<Bundle>): State {
    if event in s.inbox then s
    else s.(inbox := s.inbox + {event}, mails := s.mails + [Mail(role, items, false, Some(event))])
  }

  /** A mail without event is inserted whenever it is sent. */
  function Sent(s: State, role: int, items: Option<Bundle>): State {
    s.(mails := s.mails + [Mail(role, items, false, None)])
  }

  predicate Readable(mails: seq<Mail>, role: int, id: nat) {
    id < |mails| && mails[id].role == role && !mails[id].claimed
  }

  function Marked(mails: seq<Mail>, ids: set<nat>): seq<Mail> {
    seq(|mails|, i requires 0 <= i < |mails| => if i in ids then mails[i].(claimed := true) else mails[i])
  }

  /** A claim reads one mail, or all unclaimed ones; each read mail is granted (a mail without
      attachment needs none) or given up; at the end the granted ones are marked. */
  function Next(s: State, step: Step): State {
    match step
    case InsertStep(event, role, items) => Insert(s, event, role, items)
    case SendStep(role, items) => Sent(s, role, items)
    case ReadStep(w, role, ids) =>
      if w in s.claims || exists id :: id in ids && !Readable(s.mails, role, id) then s
      else s.(claims := s.claims[w := Claim(role, ids, {})])
    case GrantStep(w, id) =>
      if w !in s.claims || id !in s.claims[w].todo || id >= |s.mails| then s
      else
        var c, m := s.claims[w], s.mails[id];
        var next := s.claims[w := c.(todo := c.todo - {id}, granted := c.granted + {id})];
        if m.items.None? then s.(claims := next)
        else
          var e := GrantTo(s.econ, c.role, FromMail(id), m.items.value);
          if e.None? then s else s.(econ := e.value, claims := next)
    case GiveUpStep(w, id) =>
      if w !in s.claims then s else s.(claims := s.claims[w := s.claims[w].(todo := s.claims[w].todo - {id})])
    case MarkStep(w) =>
      if w !in s.claims || s.claims[w].todo != {} then s
      else s.(mails := Marked(s.mails, s.claims[w].granted), claims := s.claims - {w})
    case CrashStep(w) => s.(claims := s.claims - {w})
    case RoleStep(role) => s.(econ := NewRole(s.econ, role))
    case OutsideStep(role, name, b) =>
      if !CanApply(s.econ, role, b) then s
      else if name.None? then s.(econ := Applied(s.econ, role, b))
      else if (role, Elsewhere(name.value)) in s.econ.ledger then s
      else s.(econ := Booked(s.econ, role, Elsewhere(name.value), b))
  }

  function Run(s: State, steps: seq<Step>): State {
    if steps == [] then s else Next(Run(s, steps[..|steps| - 1]), steps[|steps| - 1])
  }

  /* ---------- what one statement or claim does ---------- */

  /** A new event adds one unclaimed mail for its recipient with its attachment; a known one adds nothing. */
  lemma InsertedMail(s: State, event: string, role: int, items: Option<Bundle>)
    ensures var t := Insert(s, event, role, items);
            if event in s.inbox then t == s
            else t.inbox == s.inbox + {event} && t.econ == s.econ && t.claims == s.claims
                 && |t.mails| == |s.mails| + 1 && t.mails[..|s.mails|] == s.mails
                 && var m := t.mails[|s.mails|];
                 m.role == role && m.items == items && !m.claimed && m.event == Some(event)
  {
  }

  /** Marking claims exactly the given mails and leaves everything else of every mail. */
  lemma MarkedMails(mails: seq<Mail>, ids: set<nat>, i: nat)
    requires i < |mails|
    ensures |Marked(mails, ids)| == |mails|
    ensures Marked(mails, ids)[i].claimed == (mails[i].claimed || i in ids)
    ensures Marked(mails, ids)[i].(claimed := mails[i].claimed) == mails[i]
  {
  }

  /** A claim starts only on unclaimed mails of its own role. */
  lemma ClaimReadsOwnMails(s: State, w: nat, role: int, ids: set<nat>)
    requires w !in s.claims
    ensures w in Next(s, ReadStep(w, role, ids)).claims
         <==> forall id :: id in ids ==> id < |s.mails| && s.mails[id].role == role && !s.mails[id].claimed
    ensures w in Next(s, ReadStep(w, role, ids)).claims ==>
              Next(s, ReadStep(w, role, ids)).claims[w] == Claim(role, ids, {})
  {
  }

  /** A role that owns an unclaimed mail claims it: three steps end with the mail claimed and, if it has an
      attachment that the role can take, the reward booked. */
  lemma ClaimCompletes(s: State, w: nat, id: nat)
    requires w !in s.claims && id < |s.mails| && !s.mails[id].claimed
    requires var m := s.mails[id]; m.items.Some? ==> CanApply(s.econ, m.role, m.items.value)
    ensures var m := s.mails[id];
            var t := Next(Next(Next(s, ReadStep(w, m.role, {id})), GrantStep(w, id)), MarkStep(w));
            && |t.mails| == |s.mails| && t.mails[id].claimed && w !in t.claims
            && (m.items.Some? ==> (m.role, FromMail(id)) in t.econ.ledger)
            && (m.items.Some? && (m.role, FromMail(id)) !in s.econ.ledger ==>
                  t.econ == Booked(s.econ, m.role, FromMail(id), m.items.value))
  {
    var m := s.mails[id];
    var a := Next(s, ReadStep(w, m.role, {id}));
    assert a.claims[w] == Claim(m.role, {id}, {});
    var b := Next(a, GrantStep(w, id));
    assert b.claims[w].todo == {} && b.claims[w].granted == {id};
  }

  /** A claim that stops is gone, and leaves mails and economy as they are. */
  lemma CrashedClaimIsGone(s: State, w: nat)
    ensures var t := Next(s, CrashStep(w)); t.claims == s.claims - {w} && t.mails == s.mails && t.econ == s.econ && t.inbox == s.inbox
  {
  }

  /** A mail sent over HTTP is one more unclaimed mail as it was sent, without event. */
  lemma SentMail(s: State, role: int, items: Option<Bundle>)
    ensures var t := Next(s, SendStep(role, items));
            && t.inbox == s.inbox && t.econ == s.econ && t.claims == s.claims
            && |t.mails| == |s.mails| + 1 && t.mails[..|s.mails|] == s.mails
            && var m := t.mails[|s.mails|];
            m.role == role && m.items == items && !m.claimed && m.event == None
  {
  }

  /** A mail given up is not marked by the claim that gave it up. */
  lemma GivenUpStaysUnclaimed(s: State, w: nat, id: nat)
    requires w in s.claims && id < |s.mails| && !s.mails[id].claimed && id !in s.claims[w].granted
    ensures var t := Next(Next(s, GiveUpStep(w, id)), MarkStep(w)); !t.mails[id].claimed && t.econ == s.econ
    ensures id !in Next(s, GiveUpStep(w, id)).claims[w].todo
  {
  }

  /** The mail's reward is booked, if it has one. */
  predicate Rewarded(s: State, id: nat)
    requires id < |s.mails|
  {
    s.mails[id].items.Some? ==> (s.mails[id].role, FromMail(id)) in s.econ.ledger
  }

  predicate EntryOk(s: State, k: (int, Source))
    requires k in s.econ.ledger
  {
    k.1.FromMail? ==>
      k.1.id < |s.mails| && k.0 == s.mails[k.1.id].role && s.mails[k.1.id].items == Some(s.econ.ledger[k])
  }

  predicate ClaimOk(s: State, c: Claim) {
    && (forall id :: id in c.todo ==> id < |s.mails| && s.mails[id].role == c.role)
    && (forall id :: id in c.granted ==> id < |s.mails| && Rewarded(s, id))
  }

  /** Every event in the inbox has its mail, every mail's event is in the inbox, and no two mails share one. */
  predicate OnePerEvent(s: State) {
    && (forall e :: e in s.inbox ==> exists i :: 0 <= i < |s.mails| && s.mails[i].event == Some(e))
    && (forall i :: 0 <= i < |s.mails| && s.mails[i].event.Some? ==> s.mails[i].event.value in s.inbox)
    && (forall i, j :: 0 <= i < j < |s.mails| && s.mails[i].event.Some? ==> s.mails[i].event != s.mails[j].event)
  }

  predicate Inv(s: State) {
    && OnePerEvent(s)
    && (forall id :: 0 <= id < |s.mails| && s.mails[id].claimed ==> Rewarded(s, id))
    && (forall k :: k in s.econ.ledger ==> EntryOk(s, k))
    && (forall w :: w in s.claims ==> ClaimOk(s, s.claims[w]))
  }

  /** Mails keep their terms, the ledger only grows, and new entries and claims are in order. */
  predicate Moves(s: State, t: State) {
    && |s.mails| <= |t.mails|
    && (forall i :: 0 <= i < |s.mails| ==> t.mails[i].role == s.mails[i].role && t.mails[i].items == s.mails[i].items)
    && (forall k :: k in s.econ.ledger ==> k in t.econ.ledger && t.econ.ledger[k] == s.econ.ledger[k])
    && (forall k :: k in t.econ.ledger && k !in s.econ.ledger ==> EntryOk(t, k))
    && (forall w :: w in t.claims ==> (w in s.claims && t.claims[w] == s.claims[w]) || ClaimOk(t, t.claims[w]))
  }

  lemma ClaimStaysOk(s: State, t: State, c: Claim)
    requires ClaimOk(s, c) && Moves(s, t)
    ensures ClaimOk(t, c)
  {
    forall id | id in c.granted ensures id < |t.mails| && Rewarded(t, id) {
      assert id < |s.mails| && Rewarded(s, id);
    }
  }

  lemma MovesKeep(s: State, t: State)
    requires Inv(s) && Moves(s, t) && OnePerEvent(t)
    requires forall id :: 0 <= id < |t.mails| && t.mails[id].claimed ==>
               (id < |s.mails| && s.mails[id].claimed) || Rewarded(t, id)
    ensures Inv(t)
  {
    forall id | 0 <= id < |t.mails| && t.mails[id].claimed ensures Rewarded(t, id) {
      assert id < |s.mails| && s.mails[id].claimed ==> Rewarded(s, id);
    }
    forall k | k in t.econ.ledger ensures EntryOk(t, k) {
      assert k in s.econ.ledger ==> EntryOk(s, k);
    }
    forall w | w in t.claims ensures ClaimOk(t, t.claims[w]) {
      if w in s.claims && t.claims[w] == s.claims[w] {
        assert ClaimOk(s, s.claims[w]);
        ClaimStaysOk(s, t, s.claims[w]);
      }
    }
  }

  lemma InsertKeeps(s: State, step: Step)
    requires Inv(s) && step.InsertStep?
    ensures Inv(Next(s, step))
  {
    var t := Next(s, step);
    if step.event !in s.inbox {
      InsertOnePerEvent(s, step.event, step.role, step.items);
      MovesKeep(s, t);
    }
  }

  lemma SendKeeps(s: State, role: int, items: Option<Bundle>)
    requires Inv(s)
    ensures Inv(Sent(s, role, items))
  {
    var t := Sent(s, role, items);
    forall e | e in t.inbox ensures exists i :: 0 <= i < |t.mails| && t.mails[i].event == Some(e) {
      var i :| 0 <= i < |s.mails| && s.mails[i].event == Some(e);
      assert t.mails[i].event == Some(e);
    }
    MovesKeep(s, t);
  }

  lemma InsertOnePerEvent(s: State, event: string, role: int, items: Option<Bundle>)
    requires OnePerEvent(s) && event !in s.inbox
    ensures OnePerEvent(Insert(s, event, role, items))
  {
    var t := Insert(s, event, role, items);
    assert t.mails[|s.mails|].event == Some(event);
    forall e | e in t.inbox ensures exists i :: 0 <= i < |t.mails| && t.mails[i].event == Some(e) {
      if e in s.inbox {
        var i :| 0 <= i < |s.mails| && s.mails[i].event == Some(e);
        assert t.mails[i].event == Some(e);
      }
    }
  }

  /** A grant books exactly the mail's attachment, once, and its claim may then be marked. */
  lemma GrantMoves(s: State, w: nat, id: nat)
    requires w in s.claims && ClaimOk(s, s.claims[w])
    ensures var t := Next(s, GrantStep(w, id)); Moves(s, t) && t.mails == s.mails && t.inbox == s.inbox
  {
    var t := Next(s, GrantStep(w, id));
    if t != s {
      var c := s.claims[w];
      forall i | i in t.claims[w].granted ensures i < |t.mails| && Rewarded(t, i) {
        assert i in c.granted ==> Rewarded(s, i);
      }
    }
  }

  lemma MarkKeeps(s: State, w: nat)
    requires Inv(s) && w in s.claims && ClaimOk(s, s.claims[w])
    ensures Inv(Next(s, MarkStep(w)))
  {
    var t := Next(s, MarkStep(w));
    if t != s {
      assert forall i :: 0 <= i < |s.mails| ==> t.mails[i].event == s.mails[i].event;
      forall e | e in t.inbox ensures exists i :: 0 <= i < |t.mails| && t.mails[i].event == Some(e) {
        var i :| 0 <= i < |s.mails| && s.mails[i].event == Some(e);
        assert t.mails[i].event == Some(e);
      }
      forall id | 0 <= id < |t.mails| && t.mails[id].claimed ensures s.mails[id].claimed || Rewarded(t, id) {
        assert id in s.claims[w].granted ==> Rewarded(s, id);
      }
      MovesKeep(s, t);
    }
  }

  lemma SameMailsKeep(s: State, t: State)
    requires Inv(s) && Moves(s, t) && t.mails == s.mails && t.inbox == s.inbox
    ensures Inv(t)
  {
    MovesKeep(s, t);
  }

  lemma GrantKeeps(s: State, w: nat, id: nat)
    requires Inv(s)
    ensures Inv(Next(s, GrantStep(w, id)))
  {
    if w in s.claims {
      GrantMoves(s, w, id);
      SameMailsKeep(s, Next(s, GrantStep(w, id)));
    }
  }

  lemma StepKeeps(s: State, step: Step)
    requires Inv(s)
    ensures Inv(Next(s, step))
  {
    match step
    case InsertStep(_, _, _) => InsertKeeps(s, step);
    case SendStep(role, items) => SendKeeps(s, role, items);
    case MarkStep(w) => if w in s.claims { MarkKeeps(s, w); }
    case GrantStep(w, id) => GrantKeeps(s, w, id);
    case _ => QuietMoves(s, step); SameMailsKeep(s, Next(s, step));
  }

  lemma QuietMoves(s: State, step: Step)
    requires step.ReadStep? || step.GiveUpStep? || step.CrashStep? || step.RoleStep? || step.OutsideStep?
    requires forall w :: w in s.claims ==> ClaimOk(s, s.claims[w])
    ensures Moves(s, Next(s, step)) && Next(s, step).mails == s.mails && Next(s, step).inbox == s.inbox
  {
  }

  lemma {:induction false} RunKeeps(steps: seq<Step>)
    ensures Inv(Run(Start, steps))
  {
    if steps != [] {
      RunKeeps(steps[..|steps| - 1]);
      StepKeeps(Run(Start, steps[..|steps| - 1]), steps[|steps| - 1]);
    }
  }

  /** In every run each consumed event has exactly one mail, and no mail carries an event that was not
      consumed. */
  lemma OneMailPerEvent(steps: seq<Step>, event: string)
    ensures var s := Run(Start, steps);
            && (event in s.inbox <==> exists i :: 0 <= i < |s.mails| && s.mails[i].event == Some(event))
            && forall i, j :: 0 <= i < j < |s.mails| && s.mails[i].event == Some(event) ==> s.mails[j].event != Some(event)
  {
    RunKeeps(steps);
  }

  /** The roles a reward was booked for under the source of a mail. */
  function RewardedFor(ledger: map<(int, Source), Bundle>, id: nat): set<int> {
    set k | k in ledger && k.1 == FromMail(id) :: k.0
  }

  /** In every run a mail is rewarded at most once, to its own role, with its own attachment; a
      claimed mail with an attachment has been rewarded. */
  lemma MailRewardedOnce(steps: seq<Step>, id: nat)
    requires id < |Run(Start, steps).mails|
    ensures var s := Run(Start, steps);
            var m := s.mails[id];
            && (RewardedFor(s.econ.ledger, id) == {} || RewardedFor(s.econ.ledger, id) == {m.role})
            && ((m.role, FromMail(id)) in s.econ.ledger ==> m.items == Some(s.econ.ledger[(m.role, FromMail(id))]))
            && (m.claimed && m.items.Some? ==> RewardedFor(s.econ.ledger, id) == {m.role})
  {
    RunKeeps(steps);
    var s := Run(Start, steps);
    forall k | k in s.econ.ledger && k.1 == FromMail(id) ensures k.0 == s.mails[id].role {
      assert EntryOk(s, k);
    }
    if (s.mails[id].role, FromMail(id)) in s.econ.ledger {
      assert EntryOk(s, (s.mails[id].role, FromMail(id)));
      assert RewardedFor(s.econ.ledger, id) == {s.mails[id].role};
    } else {
      assert RewardedFor(s.econ.ledger, id) == {};
    }
  }
}
