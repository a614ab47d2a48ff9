/** What the auction saga keeps in every run, and exactly when it keeps the rest. */
module AuctionTheorems {
  import opened Base
  import opened Roles
  import opened Ledger
  import opened Auction

  /* ---------- settlement, in every run ---------- */

  /** With crashes and retries anywhere: a listing on sale or sold has its escrow booked; a paid
      seller means somebody was charged; a sold listing has all three bookings. Every booking
      carries the fixed amounts of its listing. */
  lemma Settlement(steps: seq<Step>, id: nat)
    requires id in Run(Start, steps).listings
    ensures var s := Run(Start, steps);
            var l, book := s.listings[id], s.econ.ledger;
            && (l.status != Pending ==> (l.seller, Escrow(id)) in book)
            && ((l.seller, Escrow(id)) in book ==> book[(l.seller, Escrow(id))] == EscrowBundle(l))
            && ((l.seller, Seller(id)) in book ==>
                  book[(l.seller, Seller(id))] == SellerBundle(l)
                  && exists b :: b != l.seller && (b, Buyer(id)) in book)
            && (forall b :: (b, Buyer(id)) in book ==> book[(b, Buyer(id))] == BuyerBundle(l))
            && (l.status == Sold ==>
                  l.buyer.Some? && (l.buyer.value, Buyer(id)) in book && (l.seller, Seller(id)) in book)
  {
    RunKeeps(steps);
    var s := Run(Start, steps);
    assert ListingOk(s, id);
    forall k | k in s.econ.ledger ensures EntryOk(s, k) {
    }
    if (s.listings[id].seller, Seller(id)) in s.econ.ledger {
      var b :| b in ChargedFor(s.econ.ledger, id);
      assert EntryOk(s, (b, Buyer(id)));
    }
  }

  /** A sold listing never changes again. */
  lemma {:induction false} SoldIsTerminal(s: State, more: seq<Step>, id: nat)
    requires id in s.listings && s.listings[id].status == Sold
    ensures var t := Run(s, more); id in t.listings && t.listings[id] == s.listings[id]
  {
    if more != [] {
      SoldIsTerminal(s, more[..|more| - 1], id);
      SoldStays(Run(s, more[..|more| - 1]), more[|more| - 1], id);
    }
  }

  lemma SoldStays(s: State, step: Step, id: nat)
    requires id in s.listings && s.listings[id].status == Sold
    ensures var t := Next(s, step); id in t.listings && t.listings[id] == s.listings[id]
  {
  }

  /* ---------- conservation ---------- */

  ghost function TotalGold(e: Econ<Source>): int { SumValues(e.gold) }

  function ItemCounts(e: Econ<Source>, item: string): map<int, int> {
    map r | r in e.bags :: Count(e.bags[r], item)
  }

  ghost function TotalItem(e: Econ<Source>, item: string): int { SumValues(ItemCounts(e, item)) }

  function GivenGold(given: seq<Bundle>): int {
    if given == [] then 0 else GivenGold(given[..|given| - 1]) + given[|given| - 1].gold
  }

  function GivenItem(given: seq<Bundle>, item: string): int {
    if given == [] then 0
    else GivenItem(given[..|given| - 1], item) + Count(given[|given| - 1].items, item)
  }

  predicate IsEscrowed(s: State, id: nat) {
    id in s.listings && (s.listings[id].seller, Escrow(id)) in s.econ.ledger
  }

  predicate IsPaidOut(s: State, id: nat) {
    id in s.listings && (s.listings[id].seller, Seller(id)) in s.econ.ledger
  }

  function Charges(s: State, id: nat): nat { |ChargedFor(s.econ.ledger, id)| }

  /** `x` counted `n` times. */
  function Times(x: int, n: nat): int { if n == 0 then 0 else x + Times(x, n - 1) }

  /** Gold charged for a listing and not yet paid out. */
  function UnpaidOf(s: State, id: nat): int
    requires id in s.listings
  {
    Times(s.listings[id].price, Charges(s, id)) - if IsPaidOut(s, id) then s.listings[id].price else 0
  }

  /** Items of a listing in escrow, less the deliveries made from it. */
  function HeldOf(s: State, id: nat): int
    requires id in s.listings
  {
    (if IsEscrowed(s, id) then s.listings[id].qty else 0) - Times(s.listings[id].qty, Charges(s, id))
  }

  function Unpaid(s: State): map<nat, int> { map id | id in s.listings :: UnpaidOf(s, id) }

  function InEscrow(s: State, item: string): map<nat, int> {
    map id | id in s.listings :: if s.listings[id].item == item then HeldOf(s, id) else 0
  }

  ghost predicate GoldBalanced(s: State) {
    TotalGold(s.econ) + SumValues(Unpaid(s)) == GivenGold(s.given)
  }

  ghost predicate ItemsBalanced(s: State, item: string) {
    TotalItem(s.econ, item) + SumValues(InEscrow(s, item)) == GivenItem(s.given, item)
  }

  lemma ApplyMovesTotals(e: Econ<Source>, role: int, b: Bundle, item: string)
    requires CanApply(e, role, b)
    ensures TotalGold(Applied(e, role, b)) == TotalGold(e) + b.gold
    ensures TotalItem(Applied(e, role, b), item) == TotalItem(e, item) + Count(b.items, item)
  {
    SumUpdate(e.gold, role, e.gold[role] + b.gold);
    ShiftedCounts(e.bags[role], b.items, item);
    SumShift(ItemCounts(e, item), ItemCounts(Applied(e, role, b), item), role, Count(b.items, item));
  }

  lemma BookMovesTotals(e: Econ<Source>, role: int, source: Source, b: Bundle, item: string)
    requires CanApply(e, role, b)
    ensures TotalGold(Booked(e, role, source, b)) == TotalGold(e) + b.gold
    ensures TotalItem(Booked(e, role, source, b), item) == TotalItem(e, item) + Count(b.items, item)
  {
    ApplyMovesTotals(e, role, b, item);
    assert ItemCounts(Booked(e, role, source, b), item) == ItemCounts(Applied(e, role, b), item);
  }

  /** The two accounts of a listing depend on its terms and on its three bookings only. */
  lemma AccountsKept(s: State, t: State, id: nat)
    requires id in s.listings && id in t.listings && SameTerms(t.listings[id], s.listings[id])
    requires ChargedFor(t.econ.ledger, id) == ChargedFor(s.econ.ledger, id)
    requires IsEscrowed(t, id) == IsEscrowed(s, id) && IsPaidOut(t, id) == IsPaidOut(s, id)
    ensures UnpaidOf(t, id) == UnpaidOf(s, id) && HeldOf(t, id) == HeldOf(s, id)
  {
  }

  /** All accounts kept: the sums are kept. */
  lemma AllAccountsKept(s: State, t: State, item: string)
    requires t.listings.Keys == s.listings.Keys
    requires forall id :: id in s.listings ==> SameTerms(t.listings[id], s.listings[id])
    requires forall id :: id in s.listings ==> UnpaidOf(t, id) == UnpaidOf(s, id) && HeldOf(t, id) == HeldOf(s, id)
    ensures SumValues(Unpaid(t)) == SumValues(Unpaid(s))
    ensures SumValues(InEscrow(t, item)) == SumValues(InEscrow(s, item))
  {
    assert Unpaid(t) == Unpaid(s);
    assert InEscrow(t, item) == InEscrow(s, item);
  }

  /** Listing `i` in `t` against `s`: only the accounts of `id` move, by `gold` and by `qty`. */
  predicate Moved(s: State, t: State, id: nat, gold: int, qty: int, i: nat) {
    && i in t.listings
    && (if i in s.listings then
          && t.listings[i].item == s.listings[i].item
          && UnpaidOf(t, i) == UnpaidOf(s, i) + (if i == id then gold else 0)
          && HeldOf(t, i) == HeldOf(s, i) + (if i == id then qty else 0)
        else i == id && UnpaidOf(t, i) == gold && HeldOf(t, i) == qty)
  }

  lemma UnpaidShifts(s: State, t: State, id: nat, gold: int, qty: int)
    requires t.listings.Keys == s.listings.Keys + {id}
    requires forall i :: i in t.listings ==> Moved(s, t, id, gold, qty, i)
    ensures SumValues(Unpaid(t)) == SumValues(Unpaid(s)) + gold
  {
    forall i | i in t.listings ensures Unpaid(t)[i] == Count(Unpaid(s), i) + if i == id then gold else 0 {
      assert Moved(s, t, id, gold, qty, i);
    }
    SumShift(Unpaid(s), Unpaid(t), id, gold);
  }

  lemma HeldShifts(s: State, t: State, id: nat, gold: int, qty: int, item: string)
    requires t.listings.Keys == s.listings.Keys + {id}
    requires forall i :: i in t.listings ==> Moved(s, t, id, gold, qty, i)
    ensures SumValues(InEscrow(t, item))
         == SumValues(InEscrow(s, item)) + if t.listings[id].item == item then qty else 0
  {
    var q := if t.listings[id].item == item then qty else 0;
    forall i | i in t.listings
      ensures InEscrow(t, item)[i] == Count(InEscrow(s, item), i) + if i == id then q else 0
    {
      assert Moved(s, t, id, gold, qty, i);
    }
    SumShift(InEscrow(s, item), InEscrow(t, item), id, q);
  }

  /** One account moved, or appeared: the sums move by as much. */
  lemma AccountsShift(s: State, t: State, id: nat, gold: int, qty: int, item: string)
    requires t.listings.Keys == s.listings.Keys + {id}
    requires forall i :: i in t.listings ==> Moved(s, t, id, gold, qty, i)
    ensures SumValues(Unpaid(t)) == SumValues(Unpaid(s)) + gold
    ensures SumValues(InEscrow(t, item))
         == SumValues(InEscrow(s, item)) + if t.listings[id].item == item then qty else 0
  {
    UnpaidShifts(s, t, id, gold, qty);
    HeldShifts(s, t, id, gold, qty, item);
  }

  /** A table statement on an existing listing, or no table statement at all, moves no value. */
  lemma TablesMoveNothing(s: State, t: State, item: string)
    requires GoldBalanced(s) && ItemsBalanced(s, item)
    requires t.econ == s.econ && t.given == s.given && t.listings.Keys == s.listings.Keys
    requires forall id :: id in s.listings ==> SameTerms(t.listings[id], s.listings[id])
    ensures GoldBalanced(t) && ItemsBalanced(t, item)
  {
    forall id | id in s.listings ensures UnpaidOf(t, id) == UnpaidOf(s, id) && HeldOf(t, id) == HeldOf(s, id) {
      AccountsKept(s, t, id);
    }
    AllAccountsKept(s, t, item);
  }

  /** A new listing has nothing charged, nothing paid out and nothing in escrow. */
  lemma NewListingIsEmpty(s: State, t: State, id: nat)
    requires Inv(s) && id !in s.listings && id in t.listings && t.econ == s.econ
    ensures UnpaidOf(t, id) == 0 && HeldOf(t, id) == 0
  {
    forall k | k in s.econ.ledger ensures k.1.Elsewhere? || k.1.id != id {
      assert EntryOk(s, k);
    }
    assert ChargedFor(t.econ.ledger, id) == {};
  }

  lemma InsertMovesNothing(s: State, t: State, id: nat, item: string)
    requires GoldBalanced(s) && ItemsBalanced(s, item)
    requires id !in s.listings && id in t.listings && t.listings == s.listings[id := t.listings[id]]
    requires t.econ == s.econ && t.given == s.given
    requires UnpaidOf(t, id) == 0 && HeldOf(t, id) == 0
    ensures GoldBalanced(t) && ItemsBalanced(t, item)
  {
    forall i | i in t.listings ensures Moved(s, t, id, 0, 0, i) {
      if i != id {
        AccountsKept(s, t, i);
      }
    }
    AccountsShift(s, t, id, 0, 0, item);
  }

  /** How the accounts of listing `id` move when (role, source) is booked. */
  lemma AccountAfterBooking(s: State, t: State, role: int, source: Source, id: nat)
    requires id in s.listings && t.listings == s.listings && (role, source) !in s.econ.ledger
    requires t.econ.ledger.Keys == s.econ.ledger.Keys + {(role, source)}
    requires source.Escrow? || source.Seller? ==> source.id == id ==> role == s.listings[id].seller
    ensures var l := s.listings[id];
            && UnpaidOf(t, id) == UnpaidOf(s, id)
               + (if source == Buyer(id) then l.price else if source == Seller(id) then -l.price else 0)
            && HeldOf(t, id) == HeldOf(s, id)
               + (if source == Buyer(id) then -l.qty else if source == Escrow(id) then l.qty else 0)
  {
    var before, after := ChargedFor(s.econ.ledger, id), ChargedFor(t.econ.ledger, id);
    if source == Buyer(id) {
      assert (role, Buyer(id)) in t.econ.ledger;
      assert after == before + {role};
    } else {
      assert after == before;
    }
  }

  /** What a booking of a listing must look like. */
  predicate Proper(s: State, role: int, source: Source, b: Bundle) {
    && !source.Elsewhere? && source.id in s.listings
    && var l := s.listings[source.id];
    match source
    case Escrow(_) => role == l.seller && b == EscrowBundle(l)
    case Buyer(_) => b == BuyerBundle(l)
    case Seller(_) => role == l.seller && b == SellerBundle(l)
  }

  lemma MovedByBooking(s: State, t: State, role: int, source: Source, b: Bundle, i: nat)
    requires t.listings == s.listings && (role, source) !in s.econ.ledger && Proper(s, role, source, b)
    requires t.econ.ledger.Keys == s.econ.ledger.Keys + {(role, source)} && i in t.listings
    ensures Moved(s, t, source.id, -b.gold, -Count(b.items, s.listings[source.id].item), i)
  {
    AccountAfterBooking(s, t, role, source, i);
  }

  lemma BookingMovesAccounts(s: State, t: State, role: int, source: Source, b: Bundle, item: string)
    requires t.listings == s.listings && (role, source) !in s.econ.ledger && Proper(s, role, source, b)
    requires t.econ.ledger.Keys == s.econ.ledger.Keys + {(role, source)}
    ensures SumValues(Unpaid(t)) == SumValues(Unpaid(s)) - b.gold
    ensures SumValues(InEscrow(t, item)) == SumValues(InEscrow(s, item)) - Count(b.items, item)
  {
    AllMovedByBooking(s, t, role, source, b);
    OnlyItsItem(s, role, source, b, item);
    assert t.listings.Keys == s.listings.Keys + {source.id};
    AccountsShift(s, t, source.id, -b.gold, -Count(b.items, s.listings[source.id].item), item);
  }

  lemma AllMovedByBooking(s: State, t: State, role: int, source: Source, b: Bundle)
    requires t.listings == s.listings && (role, source) !in s.econ.ledger && Proper(s, role, source, b)
    requires t.econ.ledger.Keys == s.econ.ledger.Keys + {(role, source)}
    ensures forall i :: i in t.listings ==>
              Moved(s, t, source.id, -b.gold, -Count(b.items, s.listings[source.id].item), i)
  {
    forall i | i in t.listings
      ensures Moved(s, t, source.id, -b.gold, -Count(b.items, s.listings[source.id].item), i)
    {
      MovedByBooking(s, t, role, source, b, i);
    }
  }

  lemma OnlyItsItem(s: State, role: int, source: Source, b: Bundle, item: string)
    requires Proper(s, role, source, b)
    ensures Count(b.items, item) == if s.listings[source.id].item == item then Count(b.items, item) else 0
  {
  }

  /** One more booking moves exactly as much between the balances and the listing's accounts. */
  lemma BookingBalances(s: State, t: State, role: int, source: Source, b: Bundle, item: string)
    requires GoldBalanced(s) && ItemsBalanced(s, item)
    requires t.listings == s.listings && t.given == s.given
    requires CanApply(s.econ, role, b) && (role, source) !in s.econ.ledger
    requires t.econ == Booked(s.econ, role, source, b) && Proper(s, role, source, b)
    ensures GoldBalanced(t) && ItemsBalanced(t, item)
  {
    BookMovesTotals(s.econ, role, source, b, item);
    BookingMovesAccounts(s, t, role, source, b, item);
  }

  lemma NewRoleIsEmpty(e: Econ<Source>, role: int, item: string)
    requires e.gold.Keys == e.bags.Keys
    ensures TotalGold(NewRole(e, role)) == TotalGold(e) && TotalItem(NewRole(e, role), item) == TotalItem(e, item)
  {
    if role !in e.gold {
      SumShift(e.gold, NewRole(e, role).gold, role, 0);
      SumShift(ItemCounts(e, item), ItemCounts(NewRole(e, role), item), role, 0);
    }
  }

  lemma RoleBalances(s: State, role: int, item: string)
    requires s.econ.gold.Keys == s.econ.bags.Keys && GoldBalanced(s) && ItemsBalanced(s, item)
    ensures var t := s.(econ := NewRole(s.econ, role)); GoldBalanced(t) && ItemsBalanced(t, item)
  {
    var t := s.(econ := NewRole(s.econ, role));
    NewRoleIsEmpty(s.econ, role, item);
    forall id | id in s.listings ensures UnpaidOf(t, id) == UnpaidOf(s, id) && HeldOf(t, id) == HeldOf(s, id) {
      AccountsKept(s, t, id);
    }
    AllAccountsKept(s, t, item);
  }

  lemma OutsideBalances(s: State, role: int, name: Option<string>, b: Bundle, item: string)
    requires GoldBalanced(s) && ItemsBalanced(s, item)
    ensures GoldBalanced(Outside(s, role, name, b)) && ItemsBalanced(Outside(s, role, name, b), item)
  {
    var t := Outside(s, role, name, b);
    if CanApply(s.econ, role, b) && t != s {
      ApplyMovesTotals(s.econ, role, b, item);
      if name.Some? {
        BookMovesTotals(s.econ, role, Elsewhere(name.value), b, item);
      }
      assert t.given[..|t.given| - 1] == s.given;
      forall id | id in s.listings ensures UnpaidOf(t, id) == UnpaidOf(s, id) && HeldOf(t, id) == HeldOf(s, id) {
        assert ChargedFor(t.econ.ledger, id) == ChargedFor(s.econ.ledger, id);
        AccountsKept(s, t, id);
      }
      AllAccountsKept(s, t, item);
    }
  }

  lemma EscrowBalances(s: State, sid: nat, item: string)
    requires GoldBalanced(s) && ItemsBalanced(s, item)
    ensures GoldBalanced(DoEscrow(s, sid)) && ItemsBalanced(DoEscrow(s, sid), item)
  {
    var t := DoEscrow(s, sid);
    if t.econ != s.econ {
      var id := s.sagas[sid].id;
      BookingBalances(s, t, s.listings[id].seller, Escrow(id), EscrowBundle(s.listings[id]), item);
    } else {
      TablesMoveNothing(s, t, item);
    }
  }

  lemma ChargeBalances(s: State, sid: nat, item: string)
    requires GoldBalanced(s) && ItemsBalanced(s, item) && (sid in s.sagas ==> SagaOk(s, s.sagas[sid]))
    ensures GoldBalanced(Charge(s, sid)) && ItemsBalanced(Charge(s, sid), item)
  {
    var t := Charge(s, sid);
    if t.econ != s.econ {
      var Holding(id, buyer, terms) := s.sagas[sid];
      BookingBalances(s, t, buyer, Buyer(id), BuyerBundle(terms), item);
    } else {
      TablesMoveNothing(s, t, item);
    }
  }

  lemma PayBalances(s: State, sid: nat, item: string)
    requires GoldBalanced(s) && ItemsBalanced(s, item) && (sid in s.sagas ==> SagaOk(s, s.sagas[sid]))
    ensures GoldBalanced(Pay(s, sid)) && ItemsBalanced(Pay(s, sid), item)
  {
    var t := Pay(s, sid);
    if t.econ != s.econ {
      var Charged(id, buyer, terms) := s.sagas[sid];
      BookingBalances(s, t, terms.seller, Seller(id), SellerBundle(terms), item);
    } else {
      TablesMoveNothing(s, t, item);
    }
  }

  lemma CreateBalances(s: State, sid: nat, id: nat, wanted: Listing, item: string)
    requires Inv(s) && GoldBalanced(s) && ItemsBalanced(s, item)
    ensures GoldBalanced(Create(s, sid, id, wanted)) && ItemsBalanced(Create(s, sid, id, wanted), item)
  {
    var t := Create(s, sid, id, wanted);
    if t.listings == s.listings {
      TablesMoveNothing(s, t, item);
    } else {
      NewListingIsEmpty(s, t, id);
      InsertMovesNothing(s, t, id, item);
    }
  }

  lemma OtherStepMovesNothing(s: State, step: Step)
    requires !step.CreateStep? && !step.EscrowStep? && !step.ChargeStep? && !step.PayStep?
    requires !step.RoleStep? && !step.OutsideStep?
    ensures var t := Next(s, step);
            && t.econ == s.econ && t.given == s.given && t.listings.Keys == s.listings.Keys
            && forall id :: id in s.listings ==> SameTerms(t.listings[id], s.listings[id])
  {
  }

  lemma StepBalances(s: State, step: Step, item: string)
    requires Inv(s) && GoldBalanced(s) && ItemsBalanced(s, item)
    ensures GoldBalanced(Next(s, step)) && ItemsBalanced(Next(s, step), item)
  {
    match step
    case CreateStep(sid, id, wanted) => CreateBalances(s, sid, id, wanted, item);
    case EscrowStep(sid) => EscrowBalances(s, sid, item);
    case ChargeStep(sid) => ChargeBalances(s, sid, item);
    case PayStep(sid) => PayBalances(s, sid, item);
    case RoleStep(role) => RoleBalances(s, role, item);
    case OutsideStep(role, name, b) => OutsideBalances(s, role, name, b, item);
    case _ => OtherStepMovesNothing(s, step); TablesMoveNothing(s, Next(s, step), item);
  }

  /** In every run: role balances plus the accounts of all listings are what the rest of the game
      put into the economy, for gold and for each item. */
  lemma {:induction false} EverythingIsAccounted(steps: seq<Step>, item: string)
    ensures GoldBalanced(Run(Start, steps)) && ItemsBalanced(Run(Start, steps), item)
  {
    if steps == [] {
      assert Unpaid(Start) == map[] && InEscrow(Start, item) == map[] && ItemCounts(Start.econ, item) == map[];
    } else {
      var s, step := Run(Start, steps[..|steps| - 1]), steps[|steps| - 1];
      EverythingIsAccounted(steps[..|steps| - 1], item);
      RunKeeps(steps[..|steps| - 1]);
      StepBalances(s, step, item);
    }
  }

  lemma {:induction false} TimesAtLeastOnce(x: int, n: nat)
    requires x >= 0 && n >= 1
    ensures Times(x, n) >= x
  {
    if n > 1 {
      TimesAtLeastOnce(x, n - 1);
    }
  }

  lemma UnpaidIsADebt(s: State, id: nat)
    requires id in s.listings && ListingOk(s, id)
    ensures UnpaidOf(s, id) >= 0
  {
    if Charges(s, id) >= 1 {
      TimesAtLeastOnce(s.listings[id].price, Charges(s, id));
    }
  }

  /** In every run the auction never creates gold: the roles hold what the rest of the game gave
      them, less what is charged and not yet paid out. */
  lemma AuctionNeverCreatesGold(steps: seq<Step>)
    ensures var s := Run(Start, steps);
            && TotalGold(s.econ) == GivenGold(s.given) - SumValues(Unpaid(s))
            && SumValues(Unpaid(s)) >= 0
  {
    EverythingIsAccounted(steps, "");
    var s := Run(Start, steps);
    forall id | id in s.listings ensures UnpaidOf(s, id) >= 0 {
      RunKeeps(steps);
      UnpaidIsADebt(s, id);
    }
    SumNonNegative(Unpaid(s));
  }
}
