/**
 * The player mailbox: posting and calling goroutines, a closer and one consumer, interleaved at
 * every lock and channel operation. Senders hold the read lock while they wait for room; closing
 * takes the write lock. A step that is not enabled changes nothing.
 */
module Mailbox {
  import opened Base

  /** What a request does to the player. A post has no result, and a nil post is skipped by the
      consumer; a call waits for its result. */
  datatype Job<!P, !R> = Post(effect: Option<P -> P>) | Call(task: P -> (P, R))

  datatype Phase<R> = Sending | Waiting | Posted | Rejected | Cancelled | Returned(result: R)

  /**
   * `player` is what the tasks work on; `results` are the one-slot result channels of calls.
   * `accepted` and `ran` are history: requests in the order they entered the channel, and in the
   * order the consumer finished them. `panicked` records a send on a closed channel.
   */
  datatype State<P, R> = State(
    player: P,
    queue: seq<nat>,
    running: Option<nat>,
    closed: bool,
    readers: set<nat>,
    writer: bool,
    phase: map<nat, Phase<R>>,
    results: map<nat, R>,
    stopped: bool,
    panicked: bool,
    accepted: seq<nat>,
    ran: seq<nat>)

  datatype Step =
    | Begin(c: nat)
    | Send(c: nat)
    | Cancel(c: nat)
    | Receive(c: nat)
    | LockClose
    | DoClose
    | Take
    | RunTask
    | StopLoop

  /** All requests of a run by number, the player at the start and the channel size. */
  datatype World<!P, !R> = World(jobs: nat -> Job<P, R>, start: P, size: int)

  const DEFAULT_SIZE := 256

  function Capacity(size: int): (n: nat)
    ensures n > 0 && (size > 0 ==> n == size) && (size <= 0 ==> n == 256)
  {
    if size <= 0 then DEFAULT_SIZE else size
  }

  function Initial<P, R>(w: World<P, R>): State<P, R> {
    State(w.start, [], None, false, {}, false, map[], map[], false, false, [], [])
  }

  function Effect<P, R>(job: Job<P, R>, p: P): P {
    match job
    case Post(effect) => if effect.Some? then (effect.value)(p) else p
    case Call(task) => task(p).0
  }

  predicate InPhase<P, R>(s: State<P, R>, c: nat, sending: bool) {
    c in s.phase && if sending then s.phase[c].Sending? else s.phase[c].Waiting?
  }

  function Next<P, R>(w: World<P, R>, s: State<P, R>, step: Step): State<P, R> {
    match step
    case Begin(c) =>
      if c in s.phase || s.writer then s
      else if s.closed then s.(phase := s.phase[c := Rejected])
      else s.(phase := s.phase[c := Sending], readers := s.readers + {c})
    case Send(c) =>
      if !InPhase(s, c, true) then s
      else if s.closed then s.(panicked := true)
      else if |s.queue| >= Capacity(w.size) then s
      else
        s.(queue := s.queue + [c], accepted := s.accepted + [c], readers := s.readers - {c},
           phase := s.phase[c := if w.jobs(c).Call? then Waiting else Posted])
    case Cancel(c) =>
      if !InPhase(s, c, true) || !w.jobs(c).Call? then s
      else s.(phase := s.phase[c := Cancelled], readers := s.readers - {c})
    case Receive(c) =>
      if !InPhase(s, c, false) || c !in s.results then s
      else s.(phase := s.phase[c := Returned(s.results[c])])
    case LockClose => if s.writer || s.readers != {} then s else s.(writer := true)
    case DoClose => if !s.writer then s else s.(closed := true, writer := false)
    case Take =>
      if s.stopped || s.running.Some? || s.queue == [] then s
      else s.(running := Some(s.queue[0]), queue := s.queue[1..])
    case RunTask =>
      if s.running.None? then s
      else
        var c := s.running.value;
        var job := w.jobs(c);
        s.(player := Effect(job, s.player), running := None, ran := s.ran + [c],
           results := if job.Call? then s.results[c := job.task(s.player).1] else s.results)
    case StopLoop => if s.closed && s.queue == [] && s.running.None? then s.(stopped := true) else s
  }

  function Run<P, R>(w: World<P, R>, s: State<P, R>, steps: seq<Step>): State<P, R> {
    if steps == [] then s else Next(w, Run(w, s, steps[..|steps| - 1]), steps[|steps| - 1])
  }

  /* ---------- one after the other ---------- */

  /** The player after some requests, one at a time. */
  function Serial<P, R>(w: World<P, R>, ids: seq<nat>): P {
    if ids == [] then w.start else Effect(w.jobs(ids[|ids| - 1]), Serial(w, ids[..|ids| - 1]))
  }

  /** `r` is what request `c` returns when the requests before it have run, one at a time. */
  ghost predicate OwnResult<P(!new), R(!new)>(w: World<P, R>, ran: seq<nat>, c: nat, r: R) {
    exists i :: 0 <= i < |ran| && ran[i] == c && w.jobs(c).Call?
                && w.jobs(c).task(Serial(w, ran[..i])).1 == r
  }

  predicate NoneTwice(ids: seq<nat>) {
    forall i, j :: 0 <= i < j < |ids| ==> ids[i] != ids[j]
  }

  function InHand(running: Option<nat>): seq<nat> { if running.Some? then [running.value] else [] }

  /** Accepted, in acceptance order: finished, then the running one, then the queue. */
  predicate Ordered<P, R>(s: State<P, R>) {
    s.accepted == s.ran + InHand(s.running) + s.queue && NoneTwice(s.accepted)
  }

  /** Accepted requests are exactly the posted, waiting and returned ones. */
  predicate Phased<P, R>(s: State<P, R>) {
    && (forall c :: c in s.accepted ==> c in s.phase)
    && (forall c :: c in s.phase ==>
          (c in s.accepted <==> s.phase[c].Waiting? || s.phase[c].Posted? || s.phase[c].Returned?))
  }

  /** The lock: senders are the readers, a writer is alone, and after closing nobody sends. */
  ghost predicate Locked<P, R>(s: State<P, R>) {
    && (forall c :: c in s.readers <==> c in s.phase && s.phase[c].Sending?)
    && (s.writer || s.closed ==> s.readers == {})
    && !s.panicked
    && (s.stopped ==> s.closed && s.queue == [] && s.running.None?)
  }

  ghost predicate Answered<P(!new), R(!new)>(w: World<P, R>, s: State<P, R>) {
    && (forall c :: c in s.results ==> OwnResult(w, s.ran, c, s.results[c]))
    && (forall c :: c in s.phase && s.phase[c].Returned? ==> c in s.results && s.phase[c].result == s.results[c])
  }

  ghost predicate Inv<P(!new), R(!new)>(w: World<P, R>, s: State<P, R>) {
    && Ordered(s) && Phased(s) && Locked(s)
    && Answered(w, s)
    && s.player == Serial(w, s.ran)
    && |s.queue| <= Capacity(w.size)
  }

  lemma OrderedKeeps<P, R>(w: World<P, R>, s: State<P, R>, step: Step)
    requires Ordered(s) && Phased(s)
    ensures Ordered(Next(w, s, step))
  {
    var t := Next(w, s, step);
    match step
    case Take => TakeOrdered(w, s);
    case RunTask => FinishOrdered(w, s);
    case Send(c) => SendOrdered(w, s, c);
    case _ =>
  }

  lemma TakeOrdered<P, R>(w: World<P, R>, s: State<P, R>)
    requires Ordered(s)
    ensures Ordered(Next(w, s, Take))
  {
    if s.queue != [] {
      assert s.queue == [s.queue[0]] + s.queue[1..];
    }
  }

  lemma FinishOrdered<P, R>(w: World<P, R>, s: State<P, R>)
    requires Ordered(s)
    ensures Ordered(Next(w, s, RunTask))
  {
    if s.running.Some? {
      assert s.ran + InHand(s.running) + s.queue == (s.ran + [s.running.value]) + [] + s.queue;
    }
  }

  lemma SendOrdered<P, R>(w: World<P, R>, s: State<P, R>, c: nat)
    requires Ordered(s) && Phased(s)
    ensures Ordered(Next(w, s, Send(c)))
  {
    var t := Next(w, s, Send(c));
    if t.accepted != s.accepted {
      assert c !in s.accepted;
      assert s.accepted + [c] == s.ran + InHand(s.running) + (s.queue + [c]);
    }
  }

  lemma PhasedKeeps<P, R>(w: World<P, R>, s: State<P, R>, step: Step)
    requires Phased(s)
    ensures Phased(Next(w, s, step))
  {
  }

  lemma LockedKeeps<P, R>(w: World<P, R>, s: State<P, R>, step: Step)
    requires Locked(s)
    ensures Locked(Next(w, s, step))
  {
    if step.Send? && InPhase(s, step.c, true) {
      assert step.c in s.readers;
    }
  }

  lemma OwnResultStays<P(!new), R(!new)>(w: World<P, R>, ran: seq<nat>, last: nat, c: nat, r: R)
    requires OwnResult(w, ran, c, r)
    ensures OwnResult(w, ran + [last], c, r)
  {
    var i :| 0 <= i < |ran| && ran[i] == c && w.jobs(c).Call?
             && w.jobs(c).task(Serial(w, ran[..i])).1 == r;
    assert (ran + [last])[..i] == ran[..i] && (ran + [last])[i] == c;
  }

  /** A finished task is applied to the player as the finished ones before it left it. */
  lemma RunTaskKeeps<P(!new), R(!new)>(w: World<P, R>, s: State<P, R>)
    requires Answered(w, s) && s.player == Serial(w, s.ran)
    requires forall c :: c in s.phase && s.phase[c].Returned? ==> s.running != Some(c)
    ensures var t := Next(w, s, RunTask); Answered(w, t) && t.player == Serial(w, t.ran)
  {
    var t := Next(w, s, RunTask);
    if s.running.Some? {
      var id := s.running.value;
      assert t.ran[..|s.ran|] == s.ran && t.ran[|s.ran|] == id;
      forall c | c in t.results ensures OwnResult(w, t.ran, c, t.results[c]) {
        if c in s.results && t.results[c] == s.results[c] {
          OwnResultStays(w, s.ran, id, c, s.results[c]);
        }
      }
    }
  }

  /** A request being run has not returned yet: its result does not exist before. */
  lemma RunningHasNotReturned<P(!new), R(!new)>(w: World<P, R>, s: State<P, R>, c: nat)
    requires Ordered(s) && Answered(w, s) && c in s.phase && s.phase[c].Returned?
    ensures s.running != Some(c)
  {
    var i :| 0 <= i < |s.ran| && s.ran[i] == c;
    assert s.accepted[i] == s.ran[i];
    assert s.running.Some? ==> s.accepted[|s.ran|] == s.running.value;
  }

  lemma AnsweredKeeps<P(!new), R(!new)>(w: World<P, R>, s: State<P, R>, step: Step)
    requires Answered(w, s) && Ordered(s) && s.player == Serial(w, s.ran)
    ensures Answered(w, Next(w, s, step)) && Next(w, s, step).player == Serial(w, Next(w, s, step).ran)
  {
    if step.RunTask? {
      forall c | c in s.phase && s.phase[c].Returned? ensures s.running != Some(c) {
        RunningHasNotReturned(w, s, c);
      }
      RunTaskKeeps(w, s);
    } else {
      OtherStepsAnswer(w, s, step);
    }
  }

  lemma OtherStepsAnswer<P(!new), R(!new)>(w: World<P, R>, s: State<P, R>, step: Step)
    requires Answered(w, s) && !step.RunTask?
    ensures var t := Next(w, s, step); Answered(w, t) && t.player == s.player && t.ran == s.ran
  {
    OtherStepsKeepResults(w, s, step);
    AnswersStay(w, s, Next(w, s, step));
  }

  /** Only Receive turns a request into a returned one, with the result that is in its channel. */
  predicate ReturnsFromChannel<P, R(==)>(s: State<P, R>, t: State<P, R>) {
    forall c :: c in t.phase && t.phase[c].Returned? ==>
      (c in s.phase && s.phase[c] == t.phase[c]) || (c in s.results && t.phase[c].result == s.results[c])
  }

  lemma OtherStepsKeepResults<P, R>(w: World<P, R>, s: State<P, R>, step: Step)
    requires !step.RunTask?
    ensures var t := Next(w, s, step);
            t.results == s.results && t.ran == s.ran && t.player == s.player && ReturnsFromChannel(s, t)
  {
  }

  lemma AnswersStay<P(!new), R(!new)>(w: World<P, R>, s: State<P, R>, t: State<P, R>)
    requires Answered(w, s) && t.results == s.results && t.ran == s.ran && ReturnsFromChannel(s, t)
    ensures Answered(w, t)
  {
  }

  lemma StepKeeps<P(!new), R(!new)>(w: World<P, R>, s: State<P, R>, step: Step)
    requires Inv(w, s)
    ensures Inv(w, Next(w, s, step))
  {
    OrderedKeeps(w, s, step);
    PhasedKeeps(w, s, step);
    LockedKeeps(w, s, step);
    AnsweredKeeps(w, s, step);
    QueueBounded(w, s, step);
  }

  lemma QueueBounded<P, R>(w: World<P, R>, s: State<P, R>, step: Step)
    requires |s.queue| <= Capacity(w.size)
    ensures |Next(w, s, step).queue| <= Capacity(w.size)
  {
  }

  lemma {:induction false} RunKeeps<P(!new), R(!new)>(w: World<P, R>, steps: seq<Step>)
    ensures Inv(w, Run(w, Initial(w), steps))
  {
    if steps != [] {
      RunKeeps(w, steps[..|steps| - 1]);
      StepKeeps(w, Run(w, Initial(w), steps[..|steps| - 1]), steps[|steps| - 1]);
    }
  }

  /* ---------- theorems ---------- */

  /** In every interleaving: nothing is ever sent on a closed channel; what has run is the front of
      what was accepted, in that order and without repetition; and the player is what those tasks
      make of it one at a time. Once the loop has ended after closing, every accepted task has run. */
  lemma AcceptedRunOnceInOrder<P(!new), R(!new)>(w: World<P, R>, steps: seq<Step>)
    ensures var s := Run(w, Initial(w), steps);
            && !s.panicked
            && NoneTwice(s.accepted) && s.ran <= s.accepted
            && s.player == Serial(w, s.ran)
            && (s.stopped ==> s.ran == s.accepted)
  {
    RunKeeps(w, steps);
  }

  /** A rejected or cancelled request never runs. */
  lemma RefusedNeverRun<P(!new), R(!new)>(w: World<P, R>, steps: seq<Step>, c: nat)
    requires var s := Run(w, Initial(w), steps); c in s.phase && (s.phase[c].Rejected? || s.phase[c].Cancelled?)
    ensures c !in Run(w, Initial(w), steps).ran
  {
    RunKeeps(w, steps);
    var s := Run(w, Initial(w), steps);
    assert forall i :: 0 <= i < |s.ran| ==> s.ran[i] == s.accepted[i];
  }

  lemma RefusalStays<P, R>(w: World<P, R>, s: State<P, R>, step: Step, c: nat)
    requires c in s.phase && (s.phase[c].Rejected? || s.phase[c].Cancelled?)
    ensures c in Next(w, s, step).phase && Next(w, s, step).phase[c] == s.phase[c]
  {
  }

  /** A refusal is final: the request's phase never changes again. */
  lemma {:induction false} RefusalIsFinal<P(!new), R(!new)>(w: World<P, R>, s: State<P, R>, steps: seq<Step>, c: nat)
    requires c in s.phase && (s.phase[c].Rejected? || s.phase[c].Cancelled?)
    ensures c in Run(w, s, steps).phase && Run(w, s, steps).phase[c] == s.phase[c]
  {
    if steps != [] {
      RefusalIsFinal(w, s, steps[..|steps| - 1], c);
      RefusalStays(w, Run(w, s, steps[..|steps| - 1]), steps[|steps| - 1], c);
    }
  }

  /** A call returns what its own task returned, applied after exactly the tasks accepted before it. */
  lemma CallReturnsItsOwnResult<P(!new), R(!new)>(w: World<P, R>, steps: seq<Step>, c: nat)
    requires var s := Run(w, Initial(w), steps); c in s.phase && s.phase[c].Returned?
    ensures var s := Run(w, Initial(w), steps); OwnResult(w, s.accepted, c, s.phase[c].result)
  {
    RunKeeps(w, steps);
    var s := Run(w, Initial(w), steps);
    var r := s.phase[c].result;
    var i :| 0 <= i < |s.ran| && s.ran[i] == c && w.jobs(c).Call?
             && w.jobs(c).task(Serial(w, s.ran[..i])).1 == r;
    assert s.accepted[..i] == s.ran[..i] && s.accepted[i] == c;
  }

  /** From every reachable state the consumer alone can finish all that was accepted, before or after
      closing. */
  lemma AcceptedCanFinish<P(!new), R(!new)>(w: World<P, R>, steps: seq<Step>)
    ensures CanFinish(w, Run(w, Initial(w), steps))
  {
    RunKeeps(w, steps);
    var more := Drain(w, Run(w, Initial(w), steps));
  }

  ghost predicate CanFinish<P(!new), R(!new)>(w: World<P, R>, s: State<P, R>) {
    exists more :: Run(w, s, more).ran == s.accepted
  }

  lemma RunSnoc<P, R>(w: World<P, R>, s: State<P, R>, steps: seq<Step>, step: Step)
    ensures Run(w, s, steps + [step]) == Next(w, Run(w, s, steps), step)
  {
    assert (steps + [step])[..|steps|] == steps;
  }

  /** Finish the running task, then take and run the first n of the queue. */
  lemma {:induction false} DrainSome<P(!new), R(!new)>(w: World<P, R>, s: State<P, R>, n: nat) returns (more: seq<Step>)
    requires n <= |s.queue| && (s.stopped ==> s.queue == [])
    ensures Drained(s, Run(w, s, more), n)
    ensures forall i :: 0 <= i < |more| ==> more[i].Take? || more[i].RunTask?
  {
    if n == 0 {
      more := [RunTask];
      RunSnoc(w, s, [], RunTask);
    } else {
      var front := DrainSome(w, s, n - 1);
      RunSnoc(w, s, front, Take);
      RunSnoc(w, s, front + [Take], RunTask);
      more := front + [Take] + [RunTask];
      TakeAndRun(w, s, Run(w, s, front), n);
    }
  }

  /** `t` has finished the first n of the queue of `s`. */
  predicate Drained<P, R>(s: State<P, R>, t: State<P, R>, n: nat)
    requires n <= |s.queue|
  {
    t.running.None? && t.queue == s.queue[n..] && t.stopped == s.stopped
    && t.ran == s.ran + InHand(s.running) + s.queue[..n]
  }

  lemma TakeAndRun<P, R>(w: World<P, R>, s: State<P, R>, t: State<P, R>, n: nat)
    requires 0 < n <= |s.queue| && !s.stopped && Drained(s, t, n - 1)
    ensures Drained(s, Next(w, Next(w, t, Take), RunTask), n)
  {
    assert s.queue[n - 1..][1..] == s.queue[n..];
    assert s.queue[..n] == s.queue[..n - 1] + [s.queue[n - 1]];
  }

  lemma Drain<P(!new), R(!new)>(w: World<P, R>, s: State<P, R>) returns (more: seq<Step>)
    requires Ordered(s) && Locked(s)
    ensures Run(w, s, more).ran == s.accepted
  {
    more := DrainSome(w, s, |s.queue|);
    assert s.queue[..|s.queue|] == s.queue;
  }

  /* ---------- what one task or caller does ---------- */

  /** A finished task has changed the player as its function says, and a call's result is in its channel; a
      nil post has changed nothing. */
  lemma TaskTakesEffect<P, R>(w: World<P, R>, s: State<P, R>)
    requires s.running.Some?
    ensures var t, c := Next(w, s, RunTask), s.running.value;
            && t.running.None? && t.ran == s.ran + [c]
            && match w.jobs(c)
               case Post(effect) => t.results == s.results && if effect.None? then t.player == s.player else t.player == (effect.value)(s.player)
               case Call(task) => (t.player, t.results) == (task(s.player).0, s.results[c := task(s.player).1])
  {
  }

  /** A call that waits for room gives up when it is cancelled, and is then neither accepted nor in the way
      of closing; a post cannot be cancelled. */
  lemma CancelGivesUp<P, R>(w: World<P, R>, s: State<P, R>, c: nat)
    requires InPhase(s, c, true)
    ensures var t := Next(w, s, Cancel(c));
            if w.jobs(c).Call? then t.phase == s.phase[c := Cancelled] && t.readers == s.readers - {c} && t.accepted == s.accepted
            else t == s
  {
  }

  /* ---------- an open mailbox accepts ---------- */

  /** A request is rejected only if the mailbox was closed when it began, and cancelled only by its own
      caller before it was sent, if it is a call. */
  lemma RefusedOnlyIf<P, R>(w: World<P, R>, s: State<P, R>, step: Step, c: nat)
    requires var t := Next(w, s, step);
             c in t.phase && (t.phase[c].Rejected? || t.phase[c].Cancelled?) && !(c in s.phase && s.phase[c] == t.phase[c])
    ensures var t := Next(w, s, step);
            && (t.phase[c].Rejected? ==> step == Begin(c) && s.closed && c !in s.phase)
            && (t.phase[c].Cancelled? ==> step == Cancel(c) && w.jobs(c).Call? && c in s.phase && s.phase[c].Sending?)
  {
  }

  /** The lock and the requests that are not running are as before. */
  predicate SameSenders<P, R(==)>(s: State<P, R>, t: State<P, R>) {
    t.closed == s.closed && t.writer == s.writer && t.readers == s.readers && t.phase == s.phase && t.accepted == s.accepted
  }

  lemma TakeKeepsSenders<P, R>(w: World<P, R>, s: State<P, R>, step: Step)
    requires step.Take? || step.RunTask?
    ensures SameSenders(s, Next(w, s, step))
  {
  }

  lemma {:induction false} ConsumerKeepsSenders<P, R>(w: World<P, R>, s: State<P, R>, steps: seq<Step>)
    requires forall i :: 0 <= i < |steps| ==> steps[i].Take? || steps[i].RunTask?
    ensures SameSenders(s, Run(w, s, steps))
  {
    if steps != [] {
      var front := steps[..|steps| - 1];
      assert forall i :: 0 <= i < |front| ==> front[i] == steps[i];
      ConsumerKeepsSenders(w, s, front);
      TakeKeepsSenders(w, Run(w, s, front), steps[|steps| - 1]);
    }
  }

  /** The consumer can empty the queue without touching anything else. */
  lemma EmptiesQueue<P(!new), R(!new)>(w: World<P, R>, s: State<P, R>) returns (more: seq<Step>)
    requires Inv(w, s)
    ensures var t := Run(w, s, more); Inv(w, t) && SameSenders(s, t) && t.queue == [] && t.running.None?
  {
    more := DrainSome(w, s, |s.queue|);
    ConsumerKeepsSenders(w, s, more);
    RunStays(w, s, more);
  }

  lemma {:induction false} RunStays<P(!new), R(!new)>(w: World<P, R>, s: State<P, R>, steps: seq<Step>)
    requires Inv(w, s)
    ensures Inv(w, Run(w, s, steps))
  {
    if steps != [] {
      RunStays(w, s, steps[..|steps| - 1]);
      StepKeeps(w, Run(w, s, steps[..|steps| - 1]), steps[|steps| - 1]);
    }
  }

  /** The request went through: accepted and run, and a call has its result. */
  predicate Through<P, R>(w: World<P, R>, t: State<P, R>, c: nat) {
    && c in t.accepted && c in t.ran && c in t.phase
    && if w.jobs(c).Call? then t.phase[c].Returned? else t.phase[c].Posted?
  }

  ghost predicate CanGoThrough<P(!new), R(!new)>(w: World<P, R>, s: State<P, R>, c: nat) {
    exists more :: Through(w, Run(w, s, more), c)
  }

  /** With an empty queue a request that is sending goes straight through. */
  lemma SenderGoesThrough<P, R>(w: World<P, R>, s: State<P, R>, c: nat)
    requires Locked(s) && s.queue == [] && s.running.None? && InPhase(s, c, true) && c !in s.results
    ensures var t := Next(w, Next(w, Next(w, s, Send(c)), Take), RunTask);
            && c in t.accepted && c in t.ran && c in t.phase
            && if w.jobs(c).Call? then t.phase[c].Waiting? && c in t.results else t.phase[c].Posted?
  {
    assert c in s.readers;
    var sent := Next(w, s, Send(c));
    assert sent.queue == [c] && sent.accepted[|s.accepted|] == c;
    var taken := Next(w, sent, Take);
    assert taken.running == Some(c);
    var done := Next(w, taken, RunTask);
    assert done.ran[|s.ran|] == c;
  }

  lemma FinishesFromEmpty<P(!new), R(!new)>(w: World<P, R>, s: State<P, R>, c: nat) returns (more: seq<Step>)
    requires Inv(w, s) && s.queue == [] && s.running.None? && InPhase(s, c, true)
    ensures Through(w, Run(w, s, more), c)
  {
    SendingHasNoResult(w, s, c);
    SenderGoesThrough(w, s, c);
    RunSnoc(w, s, [], Send(c));
    RunSnoc(w, s, [Send(c)], Take);
    RunSnoc(w, s, [Send(c)] + [Take], RunTask);
    more := [Send(c)] + [Take] + [RunTask];
    if w.jobs(c).Call? {
      RunSnoc(w, s, more, Receive(c));
      more := more + [Receive(c)];
    }
  }

  lemma SendingHasNoResult<P(!new), R(!new)>(w: World<P, R>, s: State<P, R>, c: nat)
    requires Ordered(s) && Phased(s) && Answered(w, s) && InPhase(s, c, true)
    ensures c !in s.results
  {
    assert forall i :: 0 <= i < |s.ran| ==> s.ran[i] == s.accepted[i];
  }

  /** In every reachable state that is neither closed nor being closed, a new request can be accepted,
      run and, if it is a call, return: an open mailbox turns nobody away. */
  lemma OpenMailboxServes<P(!new), R(!new)>(w: World<P, R>, steps: seq<Step>, c: nat)
    requires var s := Run(w, Initial(w), steps); !s.closed && !s.writer && c !in s.phase
    ensures CanGoThrough(w, Run(w, Initial(w), steps), c)
  {
    RunKeeps(w, steps);
    var s := Run(w, Initial(w), steps);
    var begun := Next(w, s, Begin(c));
    StepKeeps(w, s, Begin(c));
    RunSnoc(w, s, [], Begin(c));
    SendingCanFinish(w, s, [Begin(c)], c);
  }

  /** A request that waits for room gets through once the consumer has made some. */
  lemma SendingCanFinish<P(!new), R(!new)>(w: World<P, R>, s: State<P, R>, first: seq<Step>, c: nat)
    requires Inv(w, Run(w, s, first)) && InPhase(Run(w, s, first), c, true)
    ensures CanGoThrough(w, s, c)
  {
    var t := Run(w, s, first);
    var empty := EmptiesQueue(w, t);
    var last := FinishesFromEmpty(w, Run(w, t, empty), c);
    RunConcat(w, t, empty, last);
    RunConcat(w, s, first, empty + last);
    assert Through(w, Run(w, s, first + (empty + last)), c);
  }

  /** In every reachable state a request that waits for room can still get through. */
  lemma WaitingSenderServed<P(!new), R(!new)>(w: World<P, R>, steps: seq<Step>, c: nat)
    requires InPhase(Run(w, Initial(w), steps), c, true)
    ensures CanGoThrough(w, Run(w, Initial(w), steps), c)
  {
    RunKeeps(w, steps);
    var s := Run(w, Initial(w), steps);
    assert Run(w, s, []) == s;
    SendingCanFinish(w, s, [], c);
  }

  lemma {:induction false} RunConcat<P, R>(w: World<P, R>, s: State<P, R>, a: seq<Step>, b: seq<Step>)
    ensures Run(w, s, a + b) == Run(w, Run(w, s, a), b)
  {
    if b == [] {
      assert a + b == a;
    } else {
      RunConcat(w, s, a, b[..|b| - 1]);
      assert (a + b)[..|a + b| - 1] == a + b[..|b| - 1];
    }
  }

  /* ---------- an open mailbox closes ---------- */

  ghost predicate CanCloseDown<P(!new), R(!new)>(w: World<P, R>, s: State<P, R>) {
    exists more :: var t := Run(w, s, more); t.closed && t.stopped && t.ran == t.accepted
  }

  /** From every reachable state the mailbox can be closed and the loop ended, with everything that was
      accepted run; a sender does not have to give up for that. */
  lemma CanAlwaysClose<P(!new), R(!new)>(w: World<P, R>, steps: seq<Step>)
    ensures CanCloseDown(w, Run(w, Initial(w), steps))
  {
    RunKeeps(w, steps);
    var s := Run(w, Initial(w), steps);
    assert Run(w, s, []) == s;
    var more := ClosesDown(w, s);
    assert Run(w, s, more).closed;
  }

  /** Let the senders through one after the other, lock, close, run what is queued, end the loop. */
  lemma {:induction false} ClosesDown<P(!new), R(!new)>(w: World<P, R>, s: State<P, R>) returns (more: seq<Step>)
    requires Inv(w, s)
    ensures var t := Run(w, s, more); t.closed && t.stopped && t.ran == t.accepted
    decreases s.readers
  {
    var first := EmptiesQueue(w, s);
    var t := Run(w, s, first);
    if c :| c in t.readers {
      var sent := Next(w, t, Send(c));
      StepKeeps(w, t, Send(c));
      SendLeaves(w, t, c);
      var rest := ClosesDown(w, sent);
      RunSnoc(w, s, first, Send(c));
      RunConcat(w, s, first + [Send(c)], rest);
      more := first + [Send(c)] + rest;
    } else {
      LocksAndStops(w, t);
      RunSnoc(w, t, [], LockClose);
      RunSnoc(w, t, [LockClose], DoClose);
      RunSnoc(w, t, [LockClose] + [DoClose], StopLoop);
      RunConcat(w, s, first, [LockClose] + [DoClose] + [StopLoop]);
      more := first + ([LockClose] + [DoClose] + [StopLoop]);
    }
  }

  lemma SendLeaves<P, R>(w: World<P, R>, s: State<P, R>, c: nat)
    requires Locked(s) && s.queue == [] && c in s.readers
    ensures Next(w, s, Send(c)).readers == s.readers - {c}
  {
  }

  lemma LocksAndStops<P, R>(w: World<P, R>, s: State<P, R>)
    requires Ordered(s) && Locked(s) && s.queue == [] && s.running.None? && s.readers == {}
    ensures var t := Next(w, Next(w, Next(w, s, LockClose), DoClose), StopLoop); t.closed && t.stopped && t.ran == t.accepted
  {
    assert s.accepted == s.ran;
  }
}
