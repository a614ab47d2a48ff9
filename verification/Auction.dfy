/**
 * The auction saga: listings in one table, three separate ledger bookings per sale, and any
 * number of interleaved Create and Buy calls that may stop between any two of their steps.
 * A step is one table statement or one grant call. A call whose answer is lost, or whose
 * process dies, is the step followed by CrashStep.
 */
module Auction {
  import opened Base
  import opened Roles
  import opened Ledger

  datatype Status = Pending | Open | Reserved | Sold

  datatype Listing = Listing(
    seller: int, item: string, qty: int, price: int, status: Status, buyer: Option<int>, key: string)

  /** Ledger sources: the three of listing `id`, and every other source of the economy. */
  datatype Source = Escrow(id: nat) | Buyer(id: nat) | Seller(id: nat) | Elsewhere(name: string)

  type Table = map<nat, Listing>

  /* ---------- the listings table ---------- */

  predicate KeyUsed(t: Table, key: string) { exists id :: id in t && t[id].key == key }

  /** Insert a pending listing, or return the one that already carries the request key. */
  function GetOrCreatePending(t: Table, id: nat, wanted: Listing): Option<Table> {
    if id in t && t[id].key == wanted.key then Some(t)
    else if id !in t && !KeyUsed(t, wanted.key) then Some(t[id := wanted.(status := Pending, buyer := None)])
    else None
  }

  function Activate(t: Table, id: nat, seller: int): Option<Table> {
    if id in t && t[id].seller == seller && (t[id].status == Pending || t[id].status == Open)
    then Some(t[id := t[id].(status := Open)]) else None
  }

  predicate ReservedFor(l: Listing, buyer: int) { l.status == Reserved && l.buyer == Some(buyer) }

  function Reserve(t: Table, id: nat, buyer: int): Option<Table> {
    if id in t && (t[id].status == Open || ReservedFor(t[id], buyer))
    then Some(t[id := t[id].(status := Reserved, buyer := Some(buyer))]) else None
  }

  function ReleaseReservation(t: Table, id: nat, buyer: int): Table {
    if id in t && ReservedFor(t[id], buyer) then t[id := t[id].(status := Open, buyer := None)] else t
  }

  function MarkSold(t: Table, id: nat, buyer: int): Option<Table> {
    if id in t && (t[id].status == Reserved || t[id].status == Sold) && t[id].buyer == Some(buyer)
    then Some(t[id := t[id].(status := Sold)]) else None
  }

  /* ---------- the three bookings ---------- */

  function EscrowBundle(l: Listing): Bundle { Bundle(0, map[l.item := -l.qty]) }

  function BuyerBundle(l: Listing): Bundle { Bundle(-l.price, map[l.item := l.qty]) }

  function SellerBundle(l: Listing): Bundle { Bundle(l.price, map[]) }

  /* ---------- the system ---------- */

  /** Where a call stands. `terms` is the row its Reserve statement returned. */
  datatype Saga =
    | Listed(id: nat)
    | Escrowed(id: nat)
    | Wanting(id: nat, buyer: int)
    | Holding(id: nat, buyer: int, terms: Listing)
    | Refused(id: nat, buyer: int)
    | Charged(id: nat, buyer: int, terms: Listing)
    | Paid(id: nat, buyer: int, terms: Listing)

  /** `given` is history: every bundle the rest of the game put into or took out of the economy. */
  datatype State = State(
    listings: Table, econ: Econ<Source>, sagas: map<nat, Saga>, given: seq<Bundle>)

  datatype Step =
    | CreateStep(sid: nat, id: nat, wanted: Listing)
    | EscrowStep(sid: nat)
    | ActivateStep(sid: nat)
    | WantStep(sid: nat, id: nat, buyer: int)
    | ReserveStep(sid: nat)
    | ChargeStep(sid: nat)
    | RefuseStep(sid: nat, stale: bool)
    | ReleaseStep(sid: nat)
    | PayStep(sid: nat)
    | SoldStep(sid: nat)
    | CrashStep(sid: nat)
    | RoleStep(role: int)
    | OutsideStep(role: int, name: Option<string>, bundle: Bundle)

  const Start := State(map[], Econ(map[], map[], map[]), map[], [])

  predicate SameTerms(l: Listing, m: Listing) {
    l.seller == m.seller && l.item == m.item && l.qty == m.qty && l.price == m.price
  }

  function Create(s: State, sid: nat, id: nat, wanted: Listing): State {
    if sid in s.sagas || wanted.seller <= 0 || wanted.item == "" || wanted.qty <= 0 || wanted.price <= 0
       || wanted.key == "" then s
    else
      var t := GetOrCreatePending(s.listings, id, wanted);
      if t.None? then s
      else if SameTerms(t.value[id], wanted) && t.value[id].status == Pending then
        s.(listings := t.value, sagas := s.sagas[sid := Listed(id)])
      else s
  }

  function DoEscrow(s: State, sid: nat): State {
    if sid !in s.sagas || !s.sagas[sid].Listed? || s.sagas[sid].id !in s.listings then s
    else
      var id := s.sagas[sid].id;
      var l := s.listings[id];
      var e := GrantTo(s.econ, l.seller, Escrow(id), EscrowBundle(l));
      if e.None? then s else s.(econ := e.value, sagas := s.sagas[sid := Escrowed(id)])
  }

  function DoActivate(s: State, sid: nat): State {
    if sid !in s.sagas || !s.sagas[sid].Escrowed? || s.sagas[sid].id !in s.listings then s
    else
      var id := s.sagas[sid].id;
      var t := Activate(s.listings, id, s.listings[id].seller);
      s.(listings := if t.Some? then t.value else s.listings, sagas := s.sagas - {sid})
  }

  /** The read and the checks at the head of Buy. */
  function Want(s: State, sid: nat, id: nat, buyer: int): State {
    if sid in s.sagas || buyer <= 0 || id !in s.listings then s
    else if s.listings[id].status != Open && !ReservedFor(s.listings[id], buyer) then s
    else if s.listings[id].seller == buyer then s
    else s.(sagas := s.sagas[sid := Wanting(id, buyer)])
  }

  function DoReserve(s: State, sid: nat): State {
    if sid !in s.sagas || !s.sagas[sid].Wanting? then s
    else
      var Wanting(id, buyer) := s.sagas[sid];
      var t := Reserve(s.listings, id, buyer);
      if t.None? then s.(sagas := s.sagas - {sid})
      else s.(listings := t.value, sagas := s.sagas[sid := Holding(id, buyer, t.value[id])])
  }

  function Charge(s: State, sid: nat): State {
    if sid !in s.sagas || !s.sagas[sid].Holding? then s
    else
      var Holding(id, buyer, terms) := s.sagas[sid];
      var e := GrantTo(s.econ, buyer, Buyer(id), BuyerBundle(terms));
      if e.None? then s else s.(econ := e.value, sagas := s.sagas[sid := Charged(id, buyer, terms)])
  }

  /** The grant answered "insufficient gold". It judges the actor's memory, which may be stale, and
      it does so before it looks for a duplicate source: the answer does not depend on the ledger. */
  function Refuse(s: State, sid: nat, stale: bool): State {
    if sid !in s.sagas || !s.sagas[sid].Holding? then s
    else if !stale && Count(s.econ.gold, s.sagas[sid].buyer) >= s.sagas[sid].terms.price then s
    else s.(sagas := s.sagas[sid := Refused(s.sagas[sid].id, s.sagas[sid].buyer)])
  }

  function Release(s: State, sid: nat): State {
    if sid !in s.sagas || !s.sagas[sid].Refused? then s
    else
      var Refused(id, buyer) := s.sagas[sid];
      s.(listings := ReleaseReservation(s.listings, id, buyer), sagas := s.sagas - {sid})
  }

  function Pay(s: State, sid: nat): State {
    if sid !in s.sagas || !s.sagas[sid].Charged? then s
    else
      var Charged(id, buyer, terms) := s.sagas[sid];
      var e := GrantTo(s.econ, terms.seller, Seller(id), SellerBundle(terms));
      if e.None? then s else s.(econ := e.value, sagas := s.sagas[sid := Paid(id, buyer, terms)])
  }

  function DoMarkSold(s: State, sid: nat): State {
    if sid !in s.sagas || !s.sagas[sid].Paid? then s
    else
      var Paid(id, buyer, terms) := s.sagas[sid];
      var t := MarkSold(s.listings, id, buyer);
      s.(listings := if t.Some? then t.value else s.listings, sagas := s.sagas - {sid})
  }

  function Outside(s: State, role: int, name: Option<string>, b: Bundle): State {
    if !CanApply(s.econ, role, b) then s
    else if name.None? then s.(econ := Applied(s.econ, role, b), given := s.given + [b])
    else if (role, Elsewhere(name.value)) in s.econ.ledger then s
    else s.(econ := Booked(s.econ, role, Elsewhere(name.value), b), given := s.given + [b])
  }

  function Next(s: State, step: Step): State {
    match step
    case CreateStep(sid, id, wanted) => Create(s, sid, id, wanted)
    case EscrowStep(sid) => DoEscrow(s, sid)
    case ActivateStep(sid) => DoActivate(s, sid)
    case WantStep(sid, id, buyer) => Want(s, sid, id, buyer)
    case ReserveStep(sid) => DoReserve(s, sid)
    case ChargeStep(sid) => Charge(s, sid)
    case RefuseStep(sid, stale) => Refuse(s, sid, stale)
    case ReleaseStep(sid) => Release(s, sid)
    case PayStep(sid) => Pay(s, sid)
    case SoldStep(sid) => DoMarkSold(s, sid)
    case CrashStep(sid) => s.(sagas := s.sagas - {sid})
    case RoleStep(role) => s.(econ := NewRole(s.econ, role))
    case OutsideStep(role, name, b) => Outside(s, role, name, b)
  }

  function Run(s: State, steps: seq<Step>): State {
    if steps == [] then s else Next(Run(s, steps[..|steps| - 1]), steps[|steps| - 1])
  }

  /* ---------- the invariant of every run ---------- */

  /** The roles charged for a listing. */
  function ChargedFor(ledger: map<(int, Source), Bundle>, id: nat): set<int> {
    set k | k in ledger && k.1 == Buyer(id) :: k.0
  }

  predicate ListingOk(s: State, id: nat)
    requires id in s.listings
  {
    var l := s.listings[id];
    && l.qty > 0 && l.price > 0
    && (l.status != Pending ==> (l.seller, Escrow(id)) in s.econ.ledger)
    && (if l.status == Reserved || l.status == Sold then l.buyer.Some? && 0 < l.buyer.value != l.seller else l.buyer.None?)
    && (l.status == Sold ==>
          (l.buyer.value, Buyer(id)) in s.econ.ledger && (l.seller, Seller(id)) in s.econ.ledger)
    && ((l.seller, Seller(id)) in s.econ.ledger ==> ChargedFor(s.econ.ledger, id) != {})
  }

  /** Every booking of a listing names the right role and the listing's fixed amounts. */
  predicate EntryOk(s: State, k: (int, Source))
    requires k in s.econ.ledger
  {
    && k.0 in s.econ.gold
    && match k.1
       case Elsewhere(_) => true
       case Escrow(id) =>
         id in s.listings && k.0 == s.listings[id].seller && s.econ.ledger[k] == EscrowBundle(s.listings[id])
       case Buyer(id) =>
         && id in s.listings && k.0 != s.listings[id].seller && s.listings[id].status != Pending
         && s.econ.ledger[k] == BuyerBundle(s.listings[id])
       case Seller(id) =>
         id in s.listings && k.0 == s.listings[id].seller && s.econ.ledger[k] == SellerBundle(s.listings[id])
  }

  predicate SagaOk(s: State, g: Saga) {
    && g.id in s.listings
    && var l := s.listings[g.id];
    match g
    case Listed(_) => true
    case Escrowed(id) => (l.seller, Escrow(id)) in s.econ.ledger
    case Wanting(_, b) => 0 < b != l.seller && l.status != Pending
    case Holding(_, b, terms) => 0 < b != l.seller && l.status != Pending && SameTerms(terms, l)
    case Refused(_, _) => true
    case Charged(id, b, terms) =>
      b != l.seller && l.status != Pending && SameTerms(terms, l) && (b, Buyer(id)) in s.econ.ledger
    case Paid(id, b, terms) =>
      && b != l.seller && l.status != Pending && SameTerms(terms, l)
      && (b, Buyer(id)) in s.econ.ledger && (l.seller, Seller(id)) in s.econ.ledger
  }

  predicate Inv(s: State) {
    && s.econ.gold.Keys == s.econ.bags.Keys
    && (forall r :: r in s.econ.gold ==> s.econ.gold[r] >= 0)
    && (forall id :: id in s.listings ==> ListingOk(s, id))
    && (forall k :: k in s.econ.ledger ==> EntryOk(s, k))
    && (forall sid :: sid in s.sagas ==> SagaOk(s, s.sagas[sid]))
  }

  /** A table statement on one listing that keeps its terms and never returns it to pending. */
  lemma TableStepKeeps(s: State, t: State, id: nat)
    requires Inv(s) && id in s.listings && id in t.listings
    requires t.econ == s.econ && t.listings == s.listings[id := t.listings[id]]
    requires SameTerms(t.listings[id], s.listings[id])
    requires s.listings[id].status != Pending ==> t.listings[id].status != Pending
    requires ListingOk(t, id)
    requires forall sid :: sid in t.sagas ==> SagaOk(t, t.sagas[sid])
    ensures Inv(t)
  {
    forall i | i in t.listings ensures ListingOk(t, i) {
      assert i != id ==> ListingOk(s, i);
    }
    forall k | k in t.econ.ledger ensures EntryOk(t, k) {
      assert EntryOk(s, k);
    }
  }

  /** Booking one of the three sources of listing `id` keeps everything that was there. */
  lemma BookingKeeps(s: State, t: State, role: int, source: Source, b: Bundle)
    requires Inv(s) && CanApply(s.econ, role, b) && (role, source) !in s.econ.ledger
    requires t.listings == s.listings && t.econ == Booked(s.econ, role, source, b)
    requires EntryOk(t, (role, source))
    requires source.Seller? ==> ChargedFor(s.econ.ledger, source.id) != {}
    requires forall sid :: sid in t.sagas ==> SagaOk(t, t.sagas[sid])
    ensures Inv(t)
  {
    forall k | k in t.econ.ledger ensures EntryOk(t, k) {
      assert k != (role, source) ==> EntryOk(s, k);
    }
    forall i | i in t.listings ensures ListingOk(t, i) {
      assert ListingOk(s, i);
      assert ChargedFor(s.econ.ledger, i) <= ChargedFor(t.econ.ledger, i);
    }
  }

  /** Sagas other than the one that moved keep what they know: terms are fixed, bookings only grow,
      and a listing never returns to pending. */
  lemma SagasKept(s: State, t: State, sid: nat)
    requires Inv(s)
    requires s.econ.ledger.Keys <= t.econ.ledger.Keys
    requires forall i :: i in s.listings ==>
               i in t.listings && SameTerms(t.listings[i], s.listings[i])
               && (s.listings[i].status != Pending ==> t.listings[i].status != Pending)
    requires t.sagas.Keys <= s.sagas.Keys + {sid}
    requires forall i :: i in t.sagas && i != sid ==> i in s.sagas && t.sagas[i] == s.sagas[i]
    requires sid in t.sagas ==> SagaOk(t, t.sagas[sid])
    ensures forall i :: i in t.sagas ==> SagaOk(t, t.sagas[i])
  {
    forall i | i in t.sagas && i != sid ensures SagaOk(t, t.sagas[i]) {
      assert SagaOk(s, s.sagas[i]);
    }
  }

  /** A new listing has no booking yet. */
  lemma InsertKeeps(s: State, t: State, id: nat)
    requires Inv(s) && id !in s.listings && t.econ == s.econ
    requires id in t.listings && t.listings == s.listings[id := t.listings[id]]
    requires var l := t.listings[id]; l.qty > 0 && l.price > 0 && l.status == Pending && l.buyer == None
    requires forall sid :: sid in t.sagas ==> SagaOk(t, t.sagas[sid])
    ensures Inv(t)
  {
    forall k | k in t.econ.ledger ensures EntryOk(t, k) && (k.1.Elsewhere? || k.1.id != id) {
      assert EntryOk(s, k);
    }
    forall i | i in t.listings ensures ListingOk(t, i) {
      assert i in s.listings ==> ListingOk(s, i);
    }
  }

  lemma CreateKeeps(s: State, sid: nat, id: nat, wanted: Listing)
    requires Inv(s)
    ensures Inv(Create(s, sid, id, wanted))
  {
    var t := Create(s, sid, id, wanted);
    if t != s {
      SagasKept(s, t, sid);
      if id in s.listings {
        assert ListingOk(s, id);
        TableStepKeeps(s, t, id);
      } else {
        InsertKeeps(s, t, id);
      }
    }
  }

  lemma EscrowKeeps(s: State, sid: nat)
    requires Inv(s)
    ensures Inv(DoEscrow(s, sid))
  {
    var t := DoEscrow(s, sid);
    if t != s {
      var id := s.sagas[sid].id;
      var l := s.listings[id];
      SagasKept(s, t, sid);
      if (l.seller, Escrow(id)) !in s.econ.ledger {
        BookingKeeps(s, t, l.seller, Escrow(id), EscrowBundle(l));
      } else {
        TableStepKeeps(s, t, id);
      }
    }
  }

  lemma ActivateKeeps(s: State, sid: nat)
    requires Inv(s)
    ensures Inv(DoActivate(s, sid))
  {
    var t := DoActivate(s, sid);
    if t != s {
      assert SagaOk(s, s.sagas[sid]);
      assert ListingOk(s, s.sagas[sid].id);
      SagasKept(s, t, sid);
      TableStepKeeps(s, t, s.sagas[sid].id);
    }
  }

  lemma WantKeeps(s: State, sid: nat, id: nat, buyer: int)
    requires Inv(s)
    ensures Inv(Want(s, sid, id, buyer))
  {
    var t := Want(s, sid, id, buyer);
    if t != s {
      assert ListingOk(s, id);
      SagasKept(s, t, sid);
      TableStepKeeps(s, t, id);
    }
  }

  lemma ReserveKeeps(s: State, sid: nat)
    requires Inv(s)
    ensures Inv(DoReserve(s, sid))
  {
    var t := DoReserve(s, sid);
    if sid in s.sagas && s.sagas[sid].Wanting? {
      assert SagaOk(s, s.sagas[sid]);
      assert ListingOk(s, s.sagas[sid].id);
      ReservedListing(s, sid);
      SagasKept(s, t, sid);
      TableStepKeeps(s, t, s.sagas[sid].id);
    }
  }

  /** Reserving changes status and buyer only, and the saga holds the terms of the row. */
  lemma ReservedListing(s: State, sid: nat)
    requires sid in s.sagas && s.sagas[sid].Wanting? && SagaOk(s, s.sagas[sid]) && ListingOk(s, s.sagas[sid].id)
    ensures var t, id := DoReserve(s, sid), s.sagas[sid].id;
            && t.econ == s.econ && id in t.listings && t.listings == s.listings[id := t.listings[id]]
            && SameTerms(t.listings[id], s.listings[id]) && t.listings[id].status != Pending && ListingOk(t, id)
            && (forall i :: i in t.sagas && i != sid ==> i in s.sagas && t.sagas[i] == s.sagas[i])
            && (sid in t.sagas ==> SagaOk(t, t.sagas[sid]))
  {
  }

  lemma ChargeKeeps(s: State, sid: nat)
    requires Inv(s)
    ensures Inv(Charge(s, sid))
  {
    var t := Charge(s, sid);
    if t != s {
      var Holding(id, buyer, terms) := s.sagas[sid];
      assert SagaOk(s, s.sagas[sid]);
      assert ListingOk(s, id);
      SagasKept(s, t, sid);
      if (buyer, Buyer(id)) !in s.econ.ledger {
        BookingKeeps(s, t, buyer, Buyer(id), BuyerBundle(terms));
      } else {
        TableStepKeeps(s, t, id);
      }
    }
  }

  lemma RefuseKeeps(s: State, sid: nat, stale: bool)
    requires Inv(s)
    ensures Inv(Refuse(s, sid, stale))
  {
    var t := Refuse(s, sid, stale);
    if t != s {
      assert SagaOk(s, s.sagas[sid]);
      assert ListingOk(s, s.sagas[sid].id);
      SagasKept(s, t, sid);
      TableStepKeeps(s, t, s.sagas[sid].id);
    }
  }

  lemma ReleaseKeeps(s: State, sid: nat)
    requires Inv(s)
    ensures Inv(Release(s, sid))
  {
    var t := Release(s, sid);
    if sid in s.sagas && s.sagas[sid].Refused? {
      assert SagaOk(s, s.sagas[sid]);
      assert ListingOk(s, s.sagas[sid].id);
      ReleasedListing(s, sid);
      SagasKept(s, t, sid);
      TableStepKeeps(s, t, s.sagas[sid].id);
    }
  }

  /** Releasing changes status and buyer only. */
  lemma ReleasedListing(s: State, sid: nat)
    requires sid in s.sagas && s.sagas[sid].Refused? && SagaOk(s, s.sagas[sid]) && ListingOk(s, s.sagas[sid].id)
    ensures var t, id := Release(s, sid), s.sagas[sid].id;
            && t.econ == s.econ && id in t.listings && t.listings == s.listings[id := t.listings[id]]
            && SameTerms(t.listings[id], s.listings[id]) && ListingOk(t, id)
            && (s.listings[id].status != Pending ==> t.listings[id].status != Pending)
            && t.sagas == s.sagas - {sid}
  {
  }

  lemma PayKeeps(s: State, sid: nat)
    requires Inv(s)
    ensures Inv(Pay(s, sid))
  {
    var t := Pay(s, sid);
    if t != s {
      var Charged(id, buyer, terms) := s.sagas[sid];
      assert SagaOk(s, s.sagas[sid]);
      assert ListingOk(s, id);
      assert buyer in ChargedFor(s.econ.ledger, id);
      SagasKept(s, t, sid);
      if (terms.seller, Seller(id)) !in s.econ.ledger {
        BookingKeeps(s, t, terms.seller, Seller(id), SellerBundle(terms));
      } else {
        TableStepKeeps(s, t, id);
      }
    }
  }

  lemma SoldKeeps(s: State, sid: nat)
    requires Inv(s)
    ensures Inv(DoMarkSold(s, sid))
  {
    var t := DoMarkSold(s, sid);
    if sid in s.sagas && s.sagas[sid].Paid? {
      assert SagaOk(s, s.sagas[sid]);
      assert ListingOk(s, s.sagas[sid].id);
      SoldListing(s, sid);
      SagasKept(s, t, sid);
      TableStepKeeps(s, t, s.sagas[sid].id);
    }
  }

  /** Marking a paid listing as sold changes its status only, and all three bookings exist. */
  lemma SoldListing(s: State, sid: nat)
    requires sid in s.sagas && s.sagas[sid].Paid? && SagaOk(s, s.sagas[sid]) && ListingOk(s, s.sagas[sid].id)
    ensures var t, id := DoMarkSold(s, sid), s.sagas[sid].id;
            && t.econ == s.econ && id in t.listings && t.listings == s.listings[id := t.listings[id]]
            && SameTerms(t.listings[id], s.listings[id]) && t.listings[id].status != Pending && ListingOk(t, id)
            && t.sagas == s.sagas - {sid}
  {
  }

  /** Steps that leave listings and auction bookings alone: crash, new role, the rest of the game. */
  lemma ElsewhereKeeps(s: State, t: State)
    requires Inv(s)
    requires t.listings == s.listings && t.econ.gold.Keys == t.econ.bags.Keys
    requires s.econ.gold.Keys <= t.econ.gold.Keys && forall r :: r in t.econ.gold ==> t.econ.gold[r] >= 0
    requires forall k :: k in s.econ.ledger ==> k in t.econ.ledger && t.econ.ledger[k] == s.econ.ledger[k]
    requires forall k :: k in t.econ.ledger && k !in s.econ.ledger ==> k.1.Elsewhere? && k.0 in t.econ.gold
    requires forall i :: i in t.sagas ==> i in s.sagas && t.sagas[i] == s.sagas[i]
    ensures Inv(t)
  {
    forall k | k in t.econ.ledger ensures EntryOk(t, k) {
      assert k in s.econ.ledger ==> EntryOk(s, k);
    }
    forall i | i in t.listings ensures ListingOk(t, i) {
      assert ListingOk(s, i);
      assert ChargedFor(s.econ.ledger, i) == ChargedFor(t.econ.ledger, i);
    }
    forall i | i in t.sagas ensures SagaOk(t, t.sagas[i]) {
      assert SagaOk(s, s.sagas[i]);
    }
  }

  lemma OutsideKeeps(s: State, role: int, name: Option<string>, b: Bundle)
    requires Inv(s)
    ensures Inv(Outside(s, role, name, b))
  {
    ElsewhereKeeps(s, Outside(s, role, name, b));
  }

  lemma StepKeeps(s: State, step: Step)
    requires Inv(s)
    ensures Inv(Next(s, step))
  {
    match step
    case CreateStep(sid, id, wanted) => CreateKeeps(s, sid, id, wanted);
    case EscrowStep(sid) => EscrowKeeps(s, sid);
    case ActivateStep(sid) => ActivateKeeps(s, sid);
    case WantStep(sid, id, buyer) => WantKeeps(s, sid, id, buyer);
    case ReserveStep(sid) => ReserveKeeps(s, sid);
    case ChargeStep(sid) => ChargeKeeps(s, sid);
    case RefuseStep(sid, stale) => RefuseKeeps(s, sid, stale);
    case ReleaseStep(sid) => ReleaseKeeps(s, sid);
    case PayStep(sid) => PayKeeps(s, sid);
    case SoldStep(sid) => SoldKeeps(s, sid);
    case CrashStep(sid) => ElsewhereKeeps(s, s.(sagas := s.sagas - {sid}));
    case RoleStep(role) => ElsewhereKeeps(s, s.(econ := NewRole(s.econ, role)));
    case OutsideStep(role, name, b) => OutsideKeeps(s, role, name, b);
  }

  lemma {:induction false} RunKeeps(steps: seq<Step>)
    ensures Inv(Run(Start, steps))
  {
    if steps != [] {
      RunKeeps(steps[..|steps| - 1]);
      StepKeeps(Run(Start, steps[..|steps| - 1]), steps[|steps| - 1]);
    }
  }
}
