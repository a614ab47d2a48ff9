/** What becomes of one message of the stream: its deliveries and how the consumer settles it. */
module Delivery {

  const MAX_DELIVERIES := 10

  /** One delivery: whether the handler succeeded and whether a dead letter could be stored. */
  datatype Attempt = Attempt(handled: bool, letterStored: bool)

  datatype Fate = Pending | Handled | DeadLettered | Lost

  /** The consumer's decision on the n-th delivery: acknowledge, terminate or ask again. */
  function Decide(valid: bool, a: Attempt, n: nat): Fate {
    if !valid then (if a.letterStored then DeadLettered else if n >= MAX_DELIVERIES then Lost else Pending)
    else if a.handled then Handled
    else if n >= MAX_DELIVERIES then (if a.letterStored then DeadLettered else Lost)
    else Pending
  }

  /** The stream redelivers until the message is settled. */
  function FateAfter(valid: bool, attempts: seq<Attempt>): Fate {
    if attempts == [] then Pending
    else
      var before := FateAfter(valid, attempts[..|attempts| - 1]);
      if before != Pending then before else Decide(valid, attempts[|attempts| - 1], |attempts|)
  }

  /** A message whose handler and whose dead letter fail every time is asked for again nine times, and lost
      with the tenth delivery. */
  lemma {:induction false} GivesUpAfterTen(valid: bool, k: nat)
    ensures FateAfter(valid, seq(k, i => Attempt(false, false))) == if k < 10 then Pending else Lost
  {
    if k > 0 {
      GivesUpAfterTen(valid, k - 1);
      var attempts := seq(k, i => Attempt(false, false));
      assert attempts[..k - 1] == seq(k - 1, i => Attempt(false, false));
    }
  }

  predicate Stops(valid: bool, a: Attempt) { if valid then a.handled else a.letterStored }

  /** A message is dropped without effect and without dead letter exactly when all ten deliveries
      failed and the dead letter of the tenth could not be stored; a message that is still open has
      only failed so far; it counts as handled exactly when some delivery up to the tenth succeeded. */
  lemma {:induction false} FateOfMessage(valid: bool, attempts: seq<Attempt>)
    ensures var f := FateAfter(valid, attempts);
            var stopped := exists i :: 0 <= i < |attempts| && i < MAX_DELIVERIES && Stops(valid, attempts[i]);
            && (f == Pending <==> |attempts| < MAX_DELIVERIES && !stopped)
            && (f == Handled <==> valid && stopped)
            && (f == Lost <==> |attempts| >= MAX_DELIVERIES && !stopped && !attempts[MAX_DELIVERIES - 1].letterStored)
  {
    if attempts != [] {
      var n := |attempts| - 1;
      var rest := attempts[..n];
      FateOfMessage(valid, rest);
      assert forall i :: 0 <= i < n ==> rest[i] == attempts[i];
      if n < MAX_DELIVERIES && Stops(valid, attempts[n]) {
        assert exists i :: 0 <= i < |attempts| && i < MAX_DELIVERIES && Stops(valid, attempts[i]);
      }
      assert (exists i :: 0 <= i < n && i < MAX_DELIVERIES && Stops(valid, rest[i]))
          <==> (exists i :: 0 <= i < n && i < MAX_DELIVERIES && Stops(valid, attempts[i]));
    }
  }
}
