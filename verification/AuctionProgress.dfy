/** That the saga gets somewhere: a listing is opened, and a funded buyer's purchase ends in a sale. */
module AuctionProgress {
  import opened Base
  import opened Roles
  import opened Ledger
  import opened Auction
  import opened AuctionTheorems
  import opened AuctionGuard

  /* ---------- creating ---------- */

  /** A request is refused for a bad seller, item, quantity or price or a missing key, and for a key that
      belongs to a listing with other terms or one already under way; only otherwise a saga starts. */
  lemma CreateStartsIff(s: State, sid: nat, id: nat, wanted: Listing)
    requires sid !in s.sagas
    ensures sid in Create(s, sid, id, wanted).sagas
         <==> wanted.seller > 0 && wanted.item != "" && wanted.qty > 0 && wanted.price > 0 && wanted.key != ""
              && if id in s.listings then
                   s.listings[id].key == wanted.key && SameTerms(s.listings[id], wanted) && s.listings[id].status == Pending
                 else forall i :: i in s.listings ==> s.listings[i].key != wanted.key
  {
  }

  /** A new listing has exactly the wanted terms and is pending without buyer; retrying its key finds it,
      under no other number and without changing it, whatever terms the retry names. */
  lemma RequestKeyIsIdempotent(t: Table, id: nat, wanted: Listing, other: nat, again: Listing)
    requires id !in t && GetOrCreatePending(t, id, wanted).Some? && again.key == wanted.key
    ensures var u := GetOrCreatePending(t, id, wanted).value;
            && id in u && SameTerms(u[id], wanted) && u[id].key == wanted.key && u[id].status == Pending && u[id].buyer == None
            && (forall i :: i in t ==> i in u && u[i] == t[i]) && u.Keys == t.Keys + {id}
            && GetOrCreatePending(u, other, again) == if other == id then Some(u) else None
  {
    var u := GetOrCreatePending(t, id, wanted).value;
    assert u[id].key == again.key;
    if other != id && other in t {
      assert KeyUsed(t, t[other].key);
    }
  }

  /** A seller who has the items lists them: three steps lead to an open listing with the wanted terms. */
  lemma CreateCompletes(s: State, sid: nat, id: nat, wanted: Listing)
    requires sid !in s.sagas && id !in s.listings && forall i :: i in s.listings ==> s.listings[i].key != wanted.key
    requires wanted.seller > 0 && wanted.item != "" && wanted.qty > 0 && wanted.price > 0 && wanted.key != ""
    requires wanted.seller in s.econ.gold && wanted.seller in s.econ.bags
    requires Count(s.econ.bags[wanted.seller], wanted.item) >= wanted.qty
    ensures var t := Next(Next(Next(s, CreateStep(sid, id, wanted)), EscrowStep(sid)), ActivateStep(sid));
            && id in t.listings && SameTerms(t.listings[id], wanted) && t.listings[id].status == Open
            && (wanted.seller, Escrow(id)) in t.econ.ledger
  {
    var row := wanted.(status := Pending, buyer := None);
    var a := Next(s, CreateStep(sid, id, wanted));
    assert a == s.(listings := s.listings[id := row], sagas := s.sagas[sid := Listed(id)]);
    EscrowBooks(a, sid, id);
  }

  lemma EscrowBooks(a: State, sid: nat, id: nat)
    requires sid in a.sagas && a.sagas[sid] == Listed(id) && id in a.listings
    requires a.listings[id].qty > 0 && a.listings[id].seller in a.econ.gold && a.listings[id].seller in a.econ.bags
    requires Count(a.econ.bags[a.listings[id].seller], a.listings[id].item) >= a.listings[id].qty
    ensures var b := Next(a, EscrowStep(sid));
            b.listings == a.listings && b.sagas == a.sagas[sid := Escrowed(id)]
            && (a.listings[id].seller, Escrow(id)) in b.econ.ledger
  {
    var l := a.listings[id];
    assert CanApply(a.econ, l.seller, EscrowBundle(l));
  }

  /* ---------- refusing, releasing, stopping ---------- */

  /** A charge is refused for lack of gold, by a memory that is up to date, exactly if the balance is below
      the price; a stale memory may refuse it in any case. */
  lemma RefusedIff(s: State, sid: nat, stale: bool)
    requires sid in s.sagas && s.sagas[sid].Holding?
    ensures var t, h := Next(s, RefuseStep(sid, stale)), s.sagas[sid];
            if stale || Count(s.econ.gold, h.buyer) < h.terms.price then t == s.(sagas := s.sagas[sid := Refused(h.id, h.buyer)])
            else t == s
  {
  }

  /** A refused call opens the listing again if it still holds it, and ends. */
  lemma RefusedIsReleased(s: State, sid: nat)
    requires sid in s.sagas && s.sagas[sid].Refused? && s.sagas[sid].id in s.listings
    ensures var t, id, b := Next(s, ReleaseStep(sid)), s.sagas[sid].id, s.sagas[sid].buyer;
            && sid !in t.sagas && t.econ == s.econ
            && t.listings == s.listings[id := if s.listings[id].status == Reserved && s.listings[id].buyer == Some(b)
                                              then s.listings[id].(status := Open, buyer := None) else s.listings[id]]
  {
  }

  /** A call that stops is gone, and leaves listings and economy as they are. */
  lemma CrashedCallIsGone(s: State, sid: nat)
    ensures var t := Next(s, CrashStep(sid));
            t.sagas == s.sagas - {sid} && t.listings == s.listings && t.econ == s.econ && t.given == s.given
  {
  }

  /* ---------- buying ---------- */

  /** A role that can buy an open listing and has not been charged for it. */
  predicate CanBuy(s: State, id: nat, buyer: int) {
    && id in s.listings && s.listings[id].status == Open && s.listings[id].qty > 0 && s.listings[id].price > 0
    && buyer > 0 && buyer != s.listings[id].seller && (buyer, Buyer(id)) !in s.econ.ledger
    && buyer in s.econ.gold && buyer in s.econ.bags && s.econ.gold[buyer] >= s.listings[id].price
    && s.listings[id].seller in s.econ.gold && s.listings[id].seller in s.econ.bags
  }

  /** The listing while the buyer holds it. */
  function HeldBy(l: Listing, buyer: int): Listing { l.(status := Reserved, buyer := Some(buyer)) }

  lemma Reserves(s: State, sid: nat, id: nat, buyer: int)
    requires sid !in s.sagas && CanBuy(s, id, buyer)
    ensures var held := HeldBy(s.listings[id], buyer);
            Next(Next(s, WantStep(sid, id, buyer)), ReserveStep(sid))
            == s.(listings := s.listings[id := held], sagas := s.sagas[sid := Holding(id, buyer, held)])
  {
    var m := Next(s, WantStep(sid, id, buyer));
    assert m == s.(sagas := s.sagas[sid := Wanting(id, buyer)]);
  }

  lemma ChargeBooks(s: State, sid: nat, id: nat, buyer: int, held: Listing)
    requires sid in s.sagas && s.sagas[sid] == Holding(id, buyer, held)
    requires (buyer, Buyer(id)) !in s.econ.ledger && CanApply(s.econ, buyer, BuyerBundle(held))
    ensures Next(s, ChargeStep(sid))
         == s.(econ := Booked(s.econ, buyer, Buyer(id), BuyerBundle(held)), sagas := s.sagas[sid := Charged(id, buyer, held)])
  {
  }

  lemma PaysAndSells(s: State, sid: nat, id: nat, buyer: int, held: Listing)
    requires sid in s.sagas && s.sagas[sid] == Charged(id, buyer, held) && id in s.listings && s.listings[id] == held
    requires held.status == Reserved && held.buyer == Some(buyer) && held.price > 0
    requires held.seller in s.econ.gold && held.seller in s.econ.bags
    ensures var t := Next(Next(s, PayStep(sid)), SoldStep(sid));
            && t.listings == s.listings[id := held.(status := Sold)]
            && (held.seller, Seller(id)) in t.econ.ledger && s.econ.ledger.Keys <= t.econ.ledger.Keys
  {
    assert CanApply(s.econ, held.seller, SellerBundle(held));
    var m := Next(s, PayStep(sid));
    assert m.listings == s.listings && m.sagas == s.sagas[sid := Paid(id, buyer, held)];
  }

  function Purchase(sid: nat, id: nat, buyer: int): seq<Step> {
    [WantStep(sid, id, buyer)] + [ReserveStep(sid)] + [ChargeStep(sid)] + [PayStep(sid)] + [SoldStep(sid)]
  }

  lemma RunSnoc(s: State, steps: seq<Step>, step: Step)
    ensures Run(s, steps + [step]) == Next(Run(s, steps), step)
  {
    assert (steps + [step])[..|steps|] == steps;
  }

  /** After two steps the buyer holds the listing. */
  lemma PurchaseHolds(s: State, sid: nat, id: nat, buyer: int)
    requires sid !in s.sagas && CanBuy(s, id, buyer)
    ensures Run(s, Purchase(sid, id, buyer)[..2])
         == s.(listings := s.listings[id := HeldBy(s.listings[id], buyer)],
               sagas := s.sagas[sid := Holding(id, buyer, HeldBy(s.listings[id], buyer))])
  {
    var want, reserve := WantStep(sid, id, buyer), ReserveStep(sid);
    Reserves(s, sid, id, buyer);
    RunSnoc(s, [], want);
    RunSnoc(s, [want], reserve);
    assert [] + [want] == [want];
    assert Purchase(sid, id, buyer)[..2] == [want] + [reserve];
  }

  lemma LastThree(s: State, sid: nat, id: nat, buyer: int)
    ensures Run(s, Purchase(sid, id, buyer))
         == Next(Next(Next(Run(s, Purchase(sid, id, buyer)[..2]), ChargeStep(sid)), PayStep(sid)), SoldStep(sid))
  {
    var two := [WantStep(sid, id, buyer)] + [ReserveStep(sid)];
    assert Purchase(sid, id, buyer)[..2] == two;
    RunSnoc(s, two, ChargeStep(sid));
    RunSnoc(s, two + [ChargeStep(sid)], PayStep(sid));
    RunSnoc(s, two + [ChargeStep(sid)] + [PayStep(sid)], SoldStep(sid));
  }

  /** The five steps of a purchase end in the sale of the listing to the buyer, with all its bookings. */
  lemma PurchaseSells(s: State, sid: nat, id: nat, buyer: int)
    requires sid !in s.sagas && CanBuy(s, id, buyer)
    ensures var t := Run(s, Purchase(sid, id, buyer));
            && t.listings == s.listings[id := HeldBy(s.listings[id], buyer).(status := Sold)]
            && (buyer, Buyer(id)) in t.econ.ledger && (s.listings[id].seller, Seller(id)) in t.econ.ledger
  {
    var held := HeldBy(s.listings[id], buyer);
    PurchaseHolds(s, sid, id, buyer);
    LastThree(s, sid, id, buyer);
    var m := Run(s, Purchase(sid, id, buyer)[..2]);
    assert CanApply(m.econ, buyer, BuyerBundle(held));
    ChargeBooks(m, sid, id, buyer, held);
    PaysAndSells(Next(m, ChargeStep(sid)), sid, id, buyer, held);
  }

  /** Only the charge is guarded here, and it finds the reservation in place. */
  lemma PurchaseIsGuarded(steps: seq<Step>, sid: nat, id: nat, buyer: int)
    requires Guarded(steps) && sid !in Run(Start, steps).sagas && CanBuy(Run(Start, steps), id, buyer)
    ensures Guarded(steps + Purchase(sid, id, buyer))
  {
    var more := Purchase(sid, id, buyer);
    var path := steps + more;
    PurchaseHolds(Run(Start, steps), sid, id, buyer);
    forall i | 0 <= i < |path| ensures Guard(Run(Start, path[..i]), path[i]) {
      if i < |steps| {
        assert path[..i] == steps[..i];
      } else if i == |steps| + 2 {
        assert path[..i] == steps + more[..2];
        RunConcat(Start, steps, more[..2]);
      }
    }
  }

  /** From every state that a guarded run reaches, a funded role buys an open listing: the run goes on
      guarded and ends with the listing sold to that role. */
  lemma OpenListingCanBeSold(steps: seq<Step>, id: nat, buyer: int) returns (more: seq<Step>)
    requires Guarded(steps) && CanBuy(Run(Start, steps), id, buyer)
    ensures Guarded(steps + more)
    ensures var l := Run(Start, steps + more).listings; id in l && l[id].status == Sold && l[id].buyer == Some(buyer)
  {
    var s := Run(Start, steps);
    var sid := FreshNumber(set x: int | x in s.sagas.Keys);
    more := Purchase(sid, id, buyer);
    PurchaseIsGuarded(steps, sid, id, buyer);
    PurchaseSells(s, sid, id, buyer);
    RunConcat(Start, steps, more);
  }

  /** A guarded run from the start that sells the gem of role 1 to role 2. */
  lemma GemIsSold() returns (steps: seq<Step>)
    ensures Guarded(steps)
    ensures var l := Run(Start, steps).listings; 1 in l && l[1].status == Sold && l[1].buyer == Some(2)
  {
    var a := [RoleStep(1), OutsideStep(1, None, Bundle(0, map["gem" := 1]))];
    var b := [CreateStep(0, 1, Gem), EscrowStep(0), ActivateStep(0)];
    SellerGetsGem();
    SellerLists();
    RunConcat(Start, a, b);
    var fund := [RoleStep(2), OutsideStep(2, None, Bundle(10, map[]))];
    RunConcat(Start, a + b, fund);
    BuyerIsFunded();
    var first := a + b + fund;
    assert forall i :: 0 <= i < |first| ==> !first[i].ChargeStep? && !first[i].ReleaseStep?;
    var sale := OpenListingCanBeSold(first, 1, 2);
    steps := first + sale;
  }

  lemma BuyerIsFunded()
    ensures CanBuy(Run(OnSale(), [RoleStep(2), OutsideStep(2, None, Bundle(10, map[]))]), 1, 2)
  {
    var gift := Bundle(10, map[]);
    RunTwo(OnSale(), RoleStep(2), OutsideStep(2, None, gift));
    var m := Next(OnSale(), RoleStep(2));
    assert m.econ.gold == map[1 := 0, 2 := 0] && m.econ.bags == map[1 := map[], 2 := map[]];
    GiftArrives(m, 2, 10);
  }
}
