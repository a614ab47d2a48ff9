/**
 * The economy as the sagas see it: balances per role and one ledger entry per (role, source).
 * A grant call either books its bundle under a new source, finds the source booked already,
 * or changes nothing.
 */
module Ledger {
  import opened Base
  import opened Roles

  datatype Econ<S(==)> = Econ(gold: map<int, int>, bags: map<int, Counts>, ledger: map<(int, S), Bundle>)

  predicate CanApply<S(==)>(e: Econ<S>, role: int, b: Bundle) {
    && role in e.gold && role in e.bags
    && (b.gold < 0 ==> e.gold[role] >= -b.gold)
    && Affordable(e.bags[role], b.items)
  }

  /** Balances moved by a bundle, with no ledger entry. */
  function Applied<S(==)>(e: Econ<S>, role: int, b: Bundle): Econ<S>
    requires CanApply(e, role, b)
  {
    e.(gold := e.gold[role := e.gold[role] + b.gold], bags := e.bags[role := Shifted(e.bags[role], b.items)])
  }

  /** Balances moved by a bundle together with its ledger entry. */
  function Booked<S(==)>(e: Econ<S>, role: int, source: S, b: Bundle): Econ<S>
    requires CanApply(e, role, b)
  {
    Applied(e, role, b).(ledger := e.ledger[(role, source) := b])
  }

  function NewRole<S(==)>(e: Econ<S>, role: int): Econ<S> {
    if role in e.gold then e else e.(gold := e.gold[role := 0], bags := e.bags[role := map[]])
  }

  /** A grant that reports success: booked now, or found booked already. */
  function GrantTo<S(==)>(e: Econ<S>, role: int, source: S, b: Bundle): Option<Econ<S>> {
    if (role, source) in e.ledger then Some(e)
    else if CanApply(e, role, b) then Some(Booked(e, role, source, b))
    else None
  }

  /** What a step of the role tables can do that books no source of `own`. */
  ghost predicate OutsideStepOf<S(!new)>(e: Econ<S>, e': Econ<S>, own: S -> bool) {
    || e' == e
    || (exists role :: role !in e.gold && e' == NewRole(e, role))
    || (exists role, b :: CanApply(e, role, b) && e' == Applied(e, role, b))
    || (exists role, source, b :: !own(source) && BookedNow(e, e', role, source, b))
  }

  predicate BookedNow<S(==)>(e: Econ<S>, e': Econ<S>, role: int, source: S, b: Bundle) {
    CanApply(e, role, b) && (role, source) !in e.ledger && e' == Booked(e, role, source, b)
  }

  /** Everything one step of the role tables can do to the economy. */
  ghost predicate EconStep<S(!new)>(e: Econ<S>, e': Econ<S>) {
    || e' == e
    || (exists role :: role !in e.gold && e' == NewRole(e, role))
    || (exists role, b :: CanApply(e, role, b) && e' == Applied(e, role, b))
    || (exists role, source, b :: BookedNow(e, e', role, source, b))
  }

  function Delta(m: Mutation): Bundle {
    match m
    case GainGold(n) => Bundle(if n > 0 then n else 0, map[])
    case TakeItem(item, n) => Bundle(0, if n > 0 then map[item := -n] else map[])
    case PassDungeon => Bundle(GOLD_PER_PASS, map["potion" := 1])
    case Grant(b) => b
    case _ => Bundle(0, map[])
  }

  lemma TakingMovesByDelta(bag: Counts, item: string, n: int)
    requires RemoveItem(bag, item, n).Some? && n > 0
    ensures RemoveItem(bag, item, n).value == Shifted(bag, map[item := -n])
    ensures Affordable(bag, map[item := -n])
  {
    var items := map[item := -n];
    assert forall i :: i != item ==> Count(items, i) == 0;
  }

  lemma AddingMovesByDelta(bag: Counts, item: string, n: int)
    requires n > 0
    ensures AddItem(bag, item, n) == Shifted(bag, map[item := n])
  {
    var items := map[item := n];
    assert forall i :: i != item ==> Count(items, i) == 0;
  }

  lemma ShiftByNothing(bag: Counts)
    ensures Shifted(bag, map[]) == bag
  {
  }

  lemma TakeItemMovesByDelta(s: Snapshot, item: string, n: int)
    requires Mutate(s, TakeItem(item, n)).Ok?
    ensures var t, d := Mutate(s, TakeItem(item, n)).value, Delta(TakeItem(item, n));
            t.gold == s.gold && d.gold == 0 && t.bag == Shifted(s.bag, d.items) && Affordable(s.bag, d.items)
  {
    if n > 0 {
      TakingMovesByDelta(s.bag, item, n);
    } else {
      ShiftByNothing(s.bag);
    }
  }

  /** Whatever a mutation does, gold and bag move by its delta, which they could afford. */
  lemma MutationMovesByDelta(s: Snapshot, m: Mutation)
    requires Mutate(s, m).Ok?
    ensures var t, d := Mutate(s, m).value, Delta(m);
            && t.gold == s.gold + d.gold && t.bag == Shifted(s.bag, d.items)
            && (d.gold < 0 ==> s.gold >= -d.gold) && Affordable(s.bag, d.items)
  {
    match m
    case TakeItem(item, n) => TakeItemMovesByDelta(s, item, n);
    case PassDungeon => AddingMovesByDelta(s.bag, "potion", 1);
    case Grant(_) =>
    case _ => ShiftByNothing(s.bag);
  }
}
