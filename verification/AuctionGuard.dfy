/**
 * When the auction sells a listing once. Two checks, each possible just before the statement it
 * concerns, decide it: charge only while the reservation is still the buyer's, and release only a
 * buyer who has not been charged. The code makes neither check.
 */
module AuctionGuard {
  import opened Base
  import opened Roles
  import opened Ledger
  import opened Auction
  import opened AuctionTheorems

  /** The check that would precede a step. */
  predicate Guard(s: State, step: Step) {
    match step
    case ChargeStep(sid) =>
      sid in s.sagas && s.sagas[sid].Holding? ==>
        var Holding(id, buyer, terms) := s.sagas[sid];
        || (buyer, Buyer(id)) in s.econ.ledger
        || !CanApply(s.econ, buyer, BuyerBundle(terms))
        || (id in s.listings && ReservedFor(s.listings[id], buyer))
    case ReleaseStep(sid) =>
      sid in s.sagas && s.sagas[sid].Refused? ==>
        var Refused(id, buyer) := s.sagas[sid];
        id in s.listings && ReservedFor(s.listings[id], buyer) ==> (buyer, Buyer(id)) !in s.econ.ledger
    case _ => true
  }

  predicate Owns(l: Listing, buyer: int) {
    (l.status == Reserved || l.status == Sold) && l.buyer == Some(buyer)
  }

  /** Whoever was charged for a listing owns its reservation or bought it. */
  predicate Secure(s: State) {
    forall k :: k in s.econ.ledger && k.1.Buyer? ==>
      k.1.id in s.listings && Owns(s.listings[k.1.id], k.0)
  }

  /* ---------- the guard is exact ---------- */

  lemma ChargeGuardExact(s: State, sid: nat)
    requires Secure(s) && (sid in s.sagas ==> SagaOk(s, s.sagas[sid]))
    requires forall id :: id in s.listings ==> ListingOk(s, id)
    ensures Secure(Charge(s, sid)) <==> Guard(s, ChargeStep(sid))
  {
    var t := Charge(s, sid);
    if t.econ != s.econ {
      var Holding(id, buyer, terms) := s.sagas[sid];
      assert (buyer, Buyer(id)) in t.econ.ledger;
      assert ListingOk(s, id);
    }
  }

  lemma ReleaseGuardExact(s: State, sid: nat)
    requires Secure(s)
    ensures Secure(Release(s, sid)) <==> Guard(s, ReleaseStep(sid))
  {
    var t := Release(s, sid);
    if t.listings != s.listings {
      var Refused(id, buyer) := s.sagas[sid];
      if (buyer, Buyer(id)) !in s.econ.ledger {
        forall k | k in t.econ.ledger && k.1.Buyer?
          ensures k.1.id in t.listings && Owns(t.listings[k.1.id], k.0)
        {
          assert Owns(s.listings[k.1.id], k.0);
        }
      } else {
        assert !Owns(t.listings[id], buyer);
      }
    }
  }

  lemma OtherStepsStaySecure(s: State, step: Step)
    requires Secure(s) && !step.ChargeStep? && !step.ReleaseStep?
    ensures Secure(Next(s, step))
  {
    var t := Next(s, step);
    forall k | k in t.econ.ledger && k.1.Buyer?
      ensures k.1.id in t.listings && Owns(t.listings[k.1.id], k.0)
    {
      assert k in s.econ.ledger;
      assert Owns(s.listings[k.1.id], k.0);
      OwnerKeepsListing(s, step, k.1.id, k.0);
    }
  }

  lemma OwnerKeepsListing(s: State, step: Step, id: nat, b: int)
    requires id in s.listings && Owns(s.listings[id], b) && !step.ReleaseStep?
    ensures var t := Next(s, step); id in t.listings && Owns(t.listings[id], b)
  {
  }

  /** From a secure state, a step keeps it secure if and only if its guard holds. */
  lemma GuardIsExact(s: State, step: Step)
    requires Inv(s) && Secure(s)
    ensures Secure(Next(s, step)) <==> Guard(s, step)
  {
    match step
    case ChargeStep(sid) => ChargeGuardExact(s, sid);
    case ReleaseStep(sid) => ReleaseGuardExact(s, sid);
    case _ => OtherStepsStaySecure(s, step);
  }

  predicate Guarded(steps: seq<Step>) {
    forall i :: 0 <= i < |steps| ==> Guard(Run(Start, steps[..i]), steps[i])
  }

  predicate SecureThroughout(steps: seq<Step>) {
    forall i :: 0 <= i <= |steps| ==> Secure(Run(Start, steps[..i]))
  }

  lemma PrefixStep(steps: seq<Step>, i: nat)
    requires i < |steps|
    ensures Run(Start, steps[..i + 1]) == Next(Run(Start, steps[..i]), steps[i])
  {
    assert steps[..i + 1][..i] == steps[..i];
  }

  lemma {:induction false} GuardedPrefixIsSecure(steps: seq<Step>, i: nat)
    requires Guarded(steps) && i <= |steps|
    ensures Secure(Run(Start, steps[..i]))
  {
    if i > 0 {
      GuardedPrefixIsSecure(steps, i - 1);
      RunKeeps(steps[..i - 1]);
      PrefixStep(steps, i - 1);
      GuardIsExact(Run(Start, steps[..i - 1]), steps[i - 1]);
    }
  }

  /** A run is secure all the way if and only if every one of its steps is guarded. */
  lemma SecureExactlyWhenGuarded(steps: seq<Step>)
    ensures SecureThroughout(steps) <==> Guarded(steps)
  {
    if Guarded(steps) {
      forall i | 0 <= i <= |steps| ensures Secure(Run(Start, steps[..i])) {
        GuardedPrefixIsSecure(steps, i);
      }
    }
    if SecureThroughout(steps) {
      forall i | 0 <= i < |steps| ensures Guard(Run(Start, steps[..i]), steps[i]) {
        var s := Run(Start, steps[..i]);
        RunKeeps(steps[..i]);
        PrefixStep(steps, i);
        assert Secure(s) && Secure(Run(Start, steps[..i + 1]));
        GuardIsExact(s, steps[i]);
      }
    }
  }

  /* ---------- what a guarded run conserves ---------- */

  lemma SecureChargesOnce(s: State, id: nat)
    requires Secure(s) && id in s.listings
    ensures Charges(s, id) <= 1
    ensures Charges(s, id) == 1 ==>
              s.listings[id].buyer.Some? && ChargedFor(s.econ.ledger, id) == {s.listings[id].buyer.value}
  {
    var c := ChargedFor(s.econ.ledger, id);
    forall b | b in c ensures s.listings[id].buyer == Some(b) {
      assert (b, Buyer(id)) in s.econ.ledger;
      assert Owns(s.listings[id], b);
    }
    if c != {} {
      var b :| b in c;
      assert c == {b};
    }
  }

  /** In a guarded run at most one role is charged per listing, and the accounts of a listing are
      what they should be: its items are in escrow until it is charged, its price is owed from the
      charge until the payout. Together with EverythingIsAccounted: bags plus escrow, and gold plus
      unpaid prices, are constant under the auction. */
  lemma GuardedConservation(steps: seq<Step>, id: nat)
    requires Guarded(steps) && id in Run(Start, steps).listings
    ensures var s := Run(Start, steps);
            var l := s.listings[id];
            && Charges(s, id) <= 1
            && UnpaidOf(s, id) == (if Charges(s, id) == 1 && !IsPaidOut(s, id) then l.price else 0)
            && HeldOf(s, id) == (if Charges(s, id) == 0 && IsEscrowed(s, id) then l.qty else 0)
  {
    GuardedPrefixIsSecure(steps, |steps|);
    assert steps[..|steps|] == steps;
    RunKeeps(steps);
    var s := Run(Start, steps);
    SecureChargesOnce(s, id);
    assert ListingOk(s, id);
    if Charges(s, id) == 1 {
      var b :| b in ChargedFor(s.econ.ledger, id);
      assert (b, Buyer(id)) in s.econ.ledger;
      assert EntryOk(s, (b, Buyer(id)));
      assert Times(s.listings[id].price, 1) == s.listings[id].price;
      assert Times(s.listings[id].qty, 1) == s.listings[id].qty;
    }
  }

  /* ---------- the sale as one trade ---------- */

  /** What a sale does to one role's gold and items, as a single trade. */
  function TradeGold(sale: Listing, buyer: int, role: int): int {
    if role == sale.seller then sale.price else if role == buyer then -sale.price else 0
  }

  function TradeItem(sale: Listing, buyer: int, role: int, item: string): int {
    if item != sale.item then 0
    else if role == sale.seller then -sale.qty
    else if role == buyer then sale.qty else 0
  }

  function EntryGold(s: State, k: (int, Source)): int { if k in s.econ.ledger then s.econ.ledger[k].gold else 0 }

  function EntryItem(s: State, k: (int, Source), item: string): int {
    if k in s.econ.ledger then Count(s.econ.ledger[k].items, item) else 0
  }

  /** What the three bookings of a listing did to one role. */
  function SagaGold(s: State, id: nat, role: int): int {
    EntryGold(s, (role, Escrow(id))) + EntryGold(s, (role, Buyer(id))) + EntryGold(s, (role, Seller(id)))
  }

  function SagaItem(s: State, id: nat, role: int, item: string): int {
    EntryItem(s, (role, Escrow(id)), item) + EntryItem(s, (role, Buyer(id)), item)
    + EntryItem(s, (role, Seller(id)), item)
  }

  /** In a guarded run, a sold listing moved every role's gold and items exactly as the one trade
      between its seller and its buyer does. */
  lemma SoldEqualsTrade(steps: seq<Step>, id: nat, role: int, item: string)
    requires Guarded(steps)
    requires id in Run(Start, steps).listings && Run(Start, steps).listings[id].status == Sold
    ensures var s := Run(Start, steps);
            var sale := s.listings[id];
            && sale.buyer.Some?
            && SagaGold(s, id, role) == TradeGold(sale, sale.buyer.value, role)
            && SagaItem(s, id, role, item) == TradeItem(sale, sale.buyer.value, role, item)
  {
    GuardedPrefixIsSecure(steps, |steps|);
    assert steps[..|steps|] == steps;
    RunKeeps(steps);
    SecureSaleIsTrade(Run(Start, steps), id, role, item);
  }

  lemma SecureSaleIsTrade(s: State, id: nat, role: int, item: string)
    requires Inv(s) && Secure(s) && id in s.listings && s.listings[id].status == Sold
    ensures var sale := s.listings[id];
            && sale.buyer.Some?
            && SagaGold(s, id, role) == TradeGold(sale, sale.buyer.value, role)
            && SagaItem(s, id, role, item) == TradeItem(sale, sale.buyer.value, role, item)
  {
    var sale := s.listings[id];
    assert ListingOk(s, id);
    forall k | k in s.econ.ledger ensures EntryOk(s, k) {
    }
    assert (role, Buyer(id)) in s.econ.ledger <==> role == sale.buyer.value;
    assert (role, Escrow(id)) in s.econ.ledger <==> role == sale.seller;
    assert (role, Seller(id)) in s.econ.ledger <==> role == sale.seller;
  }

  /* ---------- what an unguarded step leads to ---------- */

  /** No step of the run is a refusal by a stale memory. */
  predicate Honest(steps: seq<Step>) {
    forall i :: 0 <= i < |steps| ==> steps[i].RefuseStep? ==> !steps[i].stale
  }

  lemma {:induction false} RunConcat(s: State, a: seq<Step>, b: seq<Step>)
    ensures Run(s, a + b) == Run(Run(s, a), b)
  {
    if b == [] {
      assert a + b == a;
    } else {
      RunConcat(s, a, b[..|b| - 1]);
      assert (a + b)[..|a + b| - 1] == a + b[..|b| - 1];
    }
  }

  lemma RunOne(s: State, a: Step)
    ensures Run(s, [a]) == Next(s, a)
  {
    assert [a][..0] == [];
  }

  lemma RunTwo(s: State, a: Step, b: Step)
    ensures Run(s, [a, b]) == Next(Next(s, a), b)
  {
    RunOne(s, a);
    assert [a, b][..1] == [a];
  }

  lemma {:induction false} FreshNumber(used: set<int>) returns (n: nat)
    ensures n > 0 && n !in used
  {
    n := 1;
    var left := used;
    while n in left
      invariant n > 0 && left <= used && forall x :: x in used && x !in left ==> 0 < x < n
      decreases left
    {
      left := left - {n};
      n := n + 1;
    }
  }

  /** Fund a role with exactly the price of a listing. */
  lemma Funded(s: State, role: int, price: int) returns (steps: seq<Step>)
    requires s.econ.gold.Keys == s.econ.bags.Keys && price > 0
    ensures var t := Run(s, steps);
            && t.listings == s.listings && t.sagas == s.sagas && t.econ.ledger == s.econ.ledger
            && t.econ.gold.Keys == t.econ.bags.Keys == s.econ.gold.Keys + {role}
            && t.econ.gold[role] == Count(s.econ.gold, role) + price
    ensures Honest(steps)
  {
    var gift := Bundle(price, map[]);
    steps := [RoleStep(role), OutsideStep(role, None, gift)];
    RunTwo(s, RoleStep(role), OutsideStep(role, None, gift));
    var m := s.(econ := NewRole(s.econ, role));
    assert Next(s, RoleStep(role)) == m;
    GiftArrives(m, role, price);
  }

  lemma GiftArrives(m: State, role: int, price: int)
    requires role in m.econ.gold && role in m.econ.bags && price > 0
    ensures var t := Next(m, OutsideStep(role, None, Bundle(price, map[])));
            && t.listings == m.listings && t.sagas == m.sagas && t.econ.ledger == m.econ.ledger
            && t.econ.gold.Keys == m.econ.gold.Keys && t.econ.bags.Keys == m.econ.bags.Keys
            && t.econ.gold[role] == m.econ.gold[role] + price
  {
    var gift := Bundle(price, map[]);
    assert CanApply(m.econ, role, gift);
    assert Outside(m, role, None, gift) == m.(econ := Applied(m.econ, role, gift), given := m.given + [gift]);
  }

  /** A funded role for whom the listing is open or already reserved runs Buy up to its charge. */
  lemma BuysIn(s: State, id: nat, role: int, sid: nat) returns (steps: seq<Step>)
    requires id in s.listings && sid !in s.sagas && role > 0 && role != s.listings[id].seller
    requires s.listings[id].status == Open || ReservedFor(s.listings[id], role)
    requires s.listings[id].qty > 0 && s.listings[id].price > 0
    requires role in s.econ.gold && role in s.econ.bags && s.econ.gold[role] >= s.listings[id].price
    ensures var t := Run(s, steps);
            && (role, Buyer(id)) in t.econ.ledger && s.econ.ledger.Keys <= t.econ.ledger.Keys
            && t.listings == s.listings[id := s.listings[id].(status := Reserved, buyer := Some(role))]
            && ((role, Buyer(id)) !in s.econ.ledger ==>
                  t.econ == Booked(s.econ, role, Buyer(id), BuyerBundle(s.listings[id])))
    ensures Honest(steps)
  {
    var first := [WantStep(sid, id, role), ReserveStep(sid)];
    RunTwo(s, first[0], first[1]);
    var m := Run(s, first);
    var held := s.listings[id].(status := Reserved, buyer := Some(role));
    assert m == s.(listings := s.listings[id := held], sagas := s.sagas[sid := Holding(id, role, held)]);
    assert CanApply(m.econ, role, BuyerBundle(held));
    assert Run(m, [ChargeStep(sid)]) == Next(m, ChargeStep(sid)) by {
      assert [ChargeStep(sid)][..0] == [];
    }
    RunConcat(s, first, [ChargeStep(sid)]);
    steps := first + [ChargeStep(sid)];
  }

  lemma TwoRolesCharged(s: State, id: nat, a: int, b: int)
    requires a != b && (a, Buyer(id)) in s.econ.ledger && (b, Buyer(id)) in s.econ.ledger
    ensures Charges(s, id) >= 2
  {
    var c := ChargedFor(s.econ.ledger, id);
    assert {a, b} <= c;
    assert |c| == |{a, b}| + |c - {a, b}|;
  }

  /** Once a charged role no longer owns its listing, another role can be charged for it too. */
  lemma AnotherCanBuy(s: State, id: nat, b: int, role: int, sid: nat) returns (steps: seq<Step>)
    requires s.econ.gold.Keys == s.econ.bags.Keys && Count(s.econ.gold, role) >= 0
    requires id in s.listings && ListingOk(s, id) && (b, Buyer(id)) in s.econ.ledger
    requires role > 0 && role != b && role != s.listings[id].seller && sid !in s.sagas
    requires s.listings[id].status == Open || ReservedFor(s.listings[id], role)
    ensures Charges(Run(s, steps), id) >= 2 && Honest(steps)
  {
    var first := Funded(s, role, s.listings[id].price);
    var m := Run(s, first);
    var second := BuysIn(m, id, role, sid);
    RunConcat(s, first, second);
    steps := first + second;
    TwoRolesCharged(Run(s, steps), id, role, b);
  }

  /** Every state that is not secure leads to a state in which one listing charged two roles. */
  lemma InsecureCanSellTwice(s: State, id: nat, b: int) returns (steps: seq<Step>)
    requires Inv(s) && (b, Buyer(id)) in s.econ.ledger && id in s.listings && !Owns(s.listings[id], b)
    ensures Charges(Run(s, steps), id) >= 2 && Honest(steps)
  {
    var sale := s.listings[id];
    assert ListingOk(s, id) && EntryOk(s, (b, Buyer(id)));
    var sid := FreshNumber(set x: int | x in s.sagas.Keys);
    if sale.status == Sold {
      steps := [];
      TwoRolesCharged(s, id, sale.buyer.value, b);
    } else if sale.status == Reserved {
      steps := AnotherCanBuy(s, id, b, sale.buyer.value, sid);
    } else {
      var role := FreshNumber(s.econ.gold.Keys + {sale.seller, b});
      steps := AnotherCanBuy(s, id, b, role, sid);
    }
  }

  /** A single unguarded step of an otherwise guarded run is enough: from there some run charges two
      roles for one listing, with no refusal by a stale memory on the way. */
  lemma BreachCanSellTwice(steps: seq<Step>, step: Step) returns (id: nat, more: seq<Step>)
    requires Guarded(steps) && !Guard(Run(Start, steps), step)
    ensures Charges(Run(Start, steps + [step] + more), id) >= 2
    ensures Honest(more)
  {
    GuardedPrefixIsSecure(steps, |steps|);
    assert steps[..|steps|] == steps;
    RunKeeps(steps);
    var s := Run(Start, steps);
    GuardIsExact(s, step);
    StepKeeps(s, step);
    var t := Next(s, step);
    var k :| k in t.econ.ledger && k.1.Buyer? && !(k.1.id in t.listings && Owns(t.listings[k.1.id], k.0));
    assert EntryOk(t, k);
    id := k.1.id;
    more := InsecureCanSellTwice(t, id, k.0);
    RunOne(s, step);
    RunConcat(Start, steps, [step]);
    RunConcat(Start, steps + [step], more);
  }

  /* ---------- the breach happens ---------- */

  const Gem := Listing(1, "gem", 1, 10, Pending, None, "k")

  /** Role 1 with its gem in escrow, listing 1 on sale. */
  function OnSale(): State {
    State(map[1 := Gem.(status := Open)],
          Econ(map[1 := 0], map[1 := map[]], map[(1, Escrow(1)) := EscrowBundle(Gem)]),
          map[], [Bundle(0, map["gem" := 1])])
  }

  function WithGem(): State {
    State(map[], Econ(map[1 := 0], map[1 := map["gem" := 1]], map[]), map[], [Bundle(0, map["gem" := 1])])
  }

  lemma SellerGetsGem()
    ensures Run(Start, [RoleStep(1), OutsideStep(1, None, Bundle(0, map["gem" := 1]))]) == WithGem()
  {
    var gift := Bundle(0, map["gem" := 1]);
    RunTwo(Start, RoleStep(1), OutsideStep(1, None, gift));
    var m := Next(Start, RoleStep(1));
    assert m.econ == Econ(map[1 := 0], map[1 := map[]], map[]);
    assert Shifted(map[], map["gem" := 1]) == map["gem" := 1];
    assert [] + [gift] == [gift];
  }

  lemma SellerLists()
    ensures Run(WithGem(), [CreateStep(0, 1, Gem), EscrowStep(0), ActivateStep(0)]) == OnSale()
  {
    var a, b, c := CreateStep(0, 1, Gem), EscrowStep(0), ActivateStep(0);
    RunTwo(WithGem(), a, b);
    assert [a, b, c][..2] == [a, b];
    var m := Next(WithGem(), a);
    assert m == WithGem().(listings := map[1 := Gem], sagas := map[0 := Listed(1)]);
    var bag := map["gem" := 1];
    assert Shifted(bag, EscrowBundle(Gem).items) == map[];
    assert CanApply(m.econ, 1, EscrowBundle(Gem));
    var n := Next(m, b);
    assert n.econ == OnSale().econ && n.sagas == map[0 := Escrowed(1)] && n.listings == map[1 := Gem];
    assert Next(n, c).sagas == map[];
  }

  /** A buyer charged for all its gold whose call stopped before the payout, calling again: it is
      refused for lack of gold and its reservation is released although it has been charged. */
  lemma RetryReleases(s: State, id: nat, b: int, sid: nat) returns (steps: seq<Step>)
    requires id in s.listings && ReservedFor(s.listings[id], b) && sid !in s.sagas
    requires b > 0 && b != s.listings[id].seller && Count(s.econ.gold, b) < s.listings[id].price
    ensures var t := Run(s, steps);
            t.econ == s.econ && t.listings == s.listings[id := s.listings[id].(status := Open, buyer := None)]
    ensures Honest(steps)
  {
    var first := [WantStep(sid, id, b), ReserveStep(sid)];
    RunTwo(s, first[0], first[1]);
    var m := Run(s, first);
    assert s.listings[id := s.listings[id].(status := Reserved, buyer := Some(b))] == s.listings;
    assert m == s.(sagas := s.sagas[sid := Holding(id, b, s.listings[id])]);
    var second := [RefuseStep(sid, false), ReleaseStep(sid)];
    RunTwo(m, second[0], second[1]);
    RunConcat(s, first, second);
    steps := first + second;
  }

  /** Role 2 is charged its whole gold for listing 1 and stops there; its retry releases the listing. */
  lemma BuyerStopsAndRetries() returns (steps: seq<Step>)
    ensures var t := Run(OnSale(), steps);
            (2, Buyer(1)) in t.econ.ledger && t.listings == map[1 := Gem.(status := Open)]
    ensures Honest(steps)
  {
    var paid := BuyerStops();
    var c := Run(OnSale(), paid);
    var sid := FreshNumber(set x: int | x in c.sagas.Keys);
    var retry := RetryReleases(c, 1, 2, sid);
    RunConcat(OnSale(), paid, retry);
    steps := paid + retry;
  }

  lemma BuyerStops() returns (steps: seq<Step>)
    ensures var c := Run(OnSale(), steps);
            && (2, Buyer(1)) in c.econ.ledger && 2 in c.econ.gold && c.econ.gold[2] == 0
            && c.listings == map[1 := Gem.(status := Reserved, buyer := Some(2))]
    ensures Honest(steps)
  {
    var s := OnSale();
    var fund := Funded(s, 2, 10);
    var f := Run(s, fund);
    var buy := BuysIn(f, 1, 2, 1);
    RunConcat(s, fund, buy);
    steps := fund + buy;
  }

  /** The code as it stands charges two roles for one listing, and delivers two items out of an
      escrow of one, without any stale memory being involved. */
  lemma ListingSoldTwice() returns (steps: seq<Step>)
    ensures Honest(steps)
    ensures 1 in Run(Start, steps).listings && Charges(Run(Start, steps), 1) >= 2
    ensures HeldOf(Run(Start, steps), 1) < 0
  {
    SellerGetsGem();
    SellerLists();
    var a := [RoleStep(1), OutsideStep(1, None, Bundle(0, map["gem" := 1]))];
    var b := [CreateStep(0, 1, Gem), EscrowStep(0), ActivateStep(0)];
    RunConcat(Start, a, b);
    var c := BuyerStopsAndRetries();
    RunConcat(Start, a + b, c);
    var path := a + b + c;
    var r := Run(Start, path);
    RunKeeps(path);
    var more := InsecureCanSellTwice(r, 1, 2);
    RunConcat(Start, path, more);
    steps := path + more;
    ListingsStay(r, more, 1);
    SoldTwiceOverdraws(steps, 1);
  }

  lemma {:induction false} ListingsStay(s: State, steps: seq<Step>, id: nat)
    requires id in s.listings
    ensures id in Run(s, steps).listings
  {
    if steps != [] {
      ListingsStay(s, steps[..|steps| - 1], id);
      var m := Run(s, steps[..|steps| - 1]);
      assert id in Next(m, steps[|steps| - 1]).listings;
    }
  }

  lemma SoldTwiceOverdraws(steps: seq<Step>, id: nat)
    requires id in Run(Start, steps).listings && Charges(Run(Start, steps), id) >= 2
    ensures HeldOf(Run(Start, steps), id) < 0
  {
    RunKeeps(steps);
    TwoChargesOverdraw(Run(Start, steps), id);
  }

  lemma TwoChargesOverdraw(s: State, id: nat)
    requires id in s.listings && ListingOk(s, id) && Charges(s, id) >= 2
    ensures HeldOf(s, id) < 0
  {
    TimesAtLeastOnce(s.listings[id].qty, Charges(s, id) - 1);
  }
}
