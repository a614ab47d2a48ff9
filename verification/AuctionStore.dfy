/** The listings table as it is updated in place, and the auction that keeps its listings in memory. */
module AuctionStore {
  import opened Base
  import opened Roles
  import opened Auction
  import opened AuctionGuard

  /** auction_listings; every method is one guarded statement. */
  class AuctionTable {
    var rows: Table

    constructor ()
      ensures rows == map[]
    {
      rows := map[];
    }

    method Activate(id: nat, seller: int) returns (ok: bool)
      modifies this
      ensures ok == Auction.Activate(old(rows), id, seller).Some?
      ensures rows == if ok then Auction.Activate(old(rows), id, seller).value else old(rows)
    {
      ok := id in rows && rows[id].seller == seller && (rows[id].status == Pending || rows[id].status == Open);
      if ok {
        rows := rows[id := rows[id].(status := Open)];
      }
    }

    method Reserve(id: nat, buyer: int) returns (row: Option<Listing>)
      modifies this
      ensures var t := Auction.Reserve(old(rows), id, buyer);
              && row.Some? == t.Some?
              && rows == (if t.Some? then t.value else old(rows))
              && (row.Some? ==> row.value == rows[id] && ReservedFor(rows[id], buyer))
    {
      if id in rows {
        var l := rows[id];
        if l.status == Open || (l.status == Reserved && l.buyer == Some(buyer)) {
          rows := rows[id := l.(status := Reserved, buyer := Some(buyer))];
          return Some(rows[id]);
        }
      }
      return None;
    }

    method ReleaseReservation(id: nat, buyer: int)
      modifies this
      ensures rows == Auction.ReleaseReservation(old(rows), id, buyer)
    {
      if id in rows && rows[id].buyer == Some(buyer) && rows[id].status == Reserved {
        rows := rows[id := rows[id].(status := Open, buyer := None)];
      }
    }

    method MarkSold(id: nat, buyer: int) returns (ok: bool)
      modifies this
      ensures ok == Auction.MarkSold(old(rows), id, buyer).Some?
      ensures rows == if ok then Auction.MarkSold(old(rows), id, buyer).value else old(rows)
    {
      ok := id in rows && (rows[id].status == Reserved || rows[id].status == Sold) && rows[id].buyer == Some(buyer);
      if ok {
        rows := rows[id := rows[id].(status := Sold)];
      }
    }
  }

  /** One guarded UPDATE of the listings table. */
  datatype Statement =
    | ActivateRow(id: nat, seller: int)
    | ReserveRow(id: nat, buyer: int)
    | ReleaseRow(id: nat, buyer: int)
    | SellRow(id: nat, buyer: int)

  /** The table afterwards, or None when the caller is told that no row matched. */
  function Execute(t: Table, st: Statement): Option<Table> {
    match st
    case ActivateRow(id, seller) => Auction.Activate(t, id, seller)
    case ReserveRow(id, buyer) => Auction.Reserve(t, id, buyer)
    case ReleaseRow(id, buyer) => Some(Auction.ReleaseReservation(t, id, buyer))
    case SellRow(id, buyer) => Auction.MarkSold(t, id, buyer)
  }

  /** The ways a listing may change: on sale, reserved for a buyer, back on sale by that buyer's
      release, sold to the buyer who holds it. */
  predicate Edge(l: Listing, m: Listing, st: Statement) {
    match st
    case ActivateRow(_, _) => l.status == Pending && m.status == Open && m.buyer == l.buyer
    case ReserveRow(_, b) => l.status == Open && m.status == Reserved && m.buyer == Some(b)
    case ReleaseRow(_, b) => l.status == Reserved && l.buyer == Some(b) && m.status == Open && m.buyer == None
    case SellRow(_, b) => l.status == Reserved && l.buyer == Some(b) && m.status == Sold && m.buyer == l.buyer
  }

  /** A statement leaves every other row alone and every row's terms; the row it names stays as it is
      or takes the statement's edge. */
  lemma StatementsFollowEdges(t: Table, st: Statement, id: nat)
    requires id in t && Execute(t, st).Some?
    ensures var t' := Execute(t, st).value;
            && t'.Keys == t.Keys && SameTerms(t[id], t'[id]) && t'[id].key == t[id].key
            && (t'[id] == t[id] || (id == st.id && Edge(t[id], t'[id], st)))
  {
  }

  /** What a statement needs of its row, and what a successful one leaves there. */
  lemma StatementLeaves(t: Table, st: Statement)
    ensures match st
            case ActivateRow(id, seller) =>
              (Execute(t, st).Some? <==> id in t && t[id].seller == seller && (t[id].status == Pending || t[id].status == Open))
            case ReserveRow(id, b) =>
              (Execute(t, st).Some? <==> id in t && (t[id].status == Open || (t[id].status == Reserved && t[id].buyer == Some(b))))
            case ReleaseRow(_, _) => Execute(t, st).Some?
            case SellRow(id, b) =>
              (Execute(t, st).Some?
               <==> id in t && (t[id].status == Reserved || t[id].status == Sold) && t[id].buyer == Some(b))
    ensures Execute(t, st).Some? && st.id in t ==>
              var l := Execute(t, st).value[st.id];
              match st
              case ActivateRow(id, _) => l.status == Open && l.buyer == t[id].buyer
              case ReserveRow(_, b) => l.status == Reserved && l.buyer == Some(b)
              case ReleaseRow(id, b) =>
                if t[id].status == Reserved && t[id].buyer == Some(b) then l.status == Open && l.buyer == None else l == t[id]
              case SellRow(_, b) => l.status == Sold && l.buyer == Some(b)
  {
  }

  /** A statement that succeeded can be repeated: it succeeds again and changes nothing. */
  lemma StatementTwiceIsOnce(t: Table, st: Statement)
    requires Execute(t, st).Some?
    ensures Execute(Execute(t, st).value, st) == Execute(t, st)
  {
    var t' := Execute(t, st).value;
    assert st.id in t' ==> t'[st.id := t'[st.id]] == t';
  }

  /** While a buyer holds a listing, reserved or sold, no other buyer's statement has any effect on the table. */
  lemma ReservationIsExclusive(t: Table, id: nat, holder: int, st: Statement)
    requires id in t && Owns(t[id], holder)
    requires st.id == id && !st.ActivateRow? && st.buyer != holder
    ensures Execute(t, st) == None || Execute(t, st) == Some(t)
  {
  }

  datatype Offer = Offer(id: nat, sale: Listing)

  /** The memory-only auction: one lock, so a purchase is a single trade. */
  class MemAuction {
    var mem: seq<Offer>
    var nextId: nat
    var gold: map<int, int>
    var bags: map<int, Counts>

    predicate Valid()
      reads this
    {
      && gold.Keys == bags.Keys
      && (forall i :: 0 <= i < |mem| ==> mem[i].id <= nextId && mem[i].sale.qty > 0 && mem[i].sale.price > 0)
      && (forall i, j :: 0 <= i < j < |mem| ==> mem[i].id != mem[j].id)
    }

    constructor (gold: map<int, int>, bags: map<int, Counts>)
      requires gold.Keys == bags.Keys
      ensures Valid() && mem == [] && this.gold == gold && this.bags == bags
    {
      mem, nextId, this.gold, this.bags := [], 0, gold, bags;
    }

    /** Listing takes the items out of the seller's bag and nothing else. */
    method Create(wanted: Listing) returns (r: Result<nat, ()>)
      requires Valid()
      modifies this
      ensures Valid() && gold == old(gold)
      ensures r.Ok? <==> wanted.seller > 0 && wanted.item != "" && wanted.qty > 0 && wanted.price > 0
                         && wanted.seller in old(bags) && Count(old(bags)[wanted.seller], wanted.item) >= wanted.qty
      ensures r.Err? ==> mem == old(mem) && bags == old(bags)
      ensures r.Ok? ==>
                && mem == old(mem) + [Offer(r.value, wanted)] && wanted.seller in old(bags)
                && bags.Keys == old(bags).Keys
                && forall x, item :: x in old(bags) ==>
                     Count(bags[x], item) == Count(old(bags)[x], item)
                                             - if x == wanted.seller && item == wanted.item then wanted.qty else 0
    {
      if wanted.seller <= 0 || wanted.item == "" || wanted.qty <= 0 || wanted.price <= 0 || wanted.seller !in bags {
        return Err(());
      }
      var left := RemoveItem(bags[wanted.seller], wanted.item, wanted.qty);
      if left.None? {
        return Err(());
      }
      bags := bags[wanted.seller := left.value];
      nextId := nextId + 1;
      mem := mem + [Offer(nextId, wanted)];
      return Ok(nextId);
    }

    /** Buying removes the offer, moves everybody's gold by the trade, and hands the items to the buyer. */
    method Buy(buyer: int, id: nat) returns (r: Result<Listing, ()>)
      requires Valid()
      modifies this
      ensures Valid()
      ensures r.Ok? <==> buyer > 0 && id > 0
                         && exists i :: 0 <= i < |old(mem)| && old(mem)[i].id == id && Affords(buyer, old(mem)[i].sale, old(gold))
      ensures r.Err? ==> mem == old(mem) && gold == old(gold) && bags == old(bags)
      ensures r.Ok? ==>
                && (exists i :: 0 <= i < |old(mem)| && old(mem)[i] == Offer(id, r.value)
                                && mem == old(mem)[..i] + old(mem)[i + 1..])
                && buyer != r.value.seller && buyer in old(gold) && old(gold)[buyer] >= r.value.price
                && gold.Keys == old(gold).Keys && bags.Keys == old(bags).Keys
                && (forall x :: x in old(gold) ==> gold[x] == old(gold)[x] + TradeGold(r.value, buyer, x))
                && (forall x, item :: x in old(bags) ==>
                      Count(bags[x], item) == Count(old(bags)[x], item)
                                              + if x == buyer && item == r.value.item then r.value.qty else 0)
    {
      if buyer <= 0 || id == 0 {
        return Err(());
      }
      var at := Find(id);
      if at.None? {
        return Err(());
      }
      var l := mem[at.value].sale;
      if !Affords(buyer, l, gold) {
        return Err(());
      }
      Settle(buyer, l);
      Drop(at.value);
      return Ok(l);
    }

    /** The buyer is a known role other than the seller with enough gold. */
    static predicate Affords(buyer: int, l: Listing, gold: map<int, int>) {
      l.seller != buyer && buyer in gold && gold[buyer] >= l.price
    }

    /** Gold from buyer to seller, items to the buyer. */
    method Settle(buyer: int, l: Listing)
      requires Valid() && buyer in gold && buyer != l.seller && l.qty > 0
      modifies this`gold, this`bags
      ensures gold.Keys == old(gold).Keys && bags.Keys == old(bags).Keys
      ensures forall x :: x in old(gold) ==> gold[x] == old(gold)[x] + TradeGold(l, buyer, x)
      ensures forall x, item :: x in old(bags) ==>
                Count(bags[x], item) == Count(old(bags)[x], item) + if x == buyer && item == l.item then l.qty else 0
    {
      gold := gold[buyer := gold[buyer] - l.price];
      bags := bags[buyer := AddItem(bags[buyer], l.item, l.qty)];
      if l.seller in gold {
        gold := gold[l.seller := gold[l.seller] + l.price];
      }
    }

    method Find(id: nat) returns (at: Option<nat>)
      requires Valid()
      ensures at.Some? ==> at.value < |mem| && mem[at.value].id == id
      ensures at.None? ==> forall i :: 0 <= i < |mem| ==> mem[i].id != id
    {
      var i := 0;
      while i < |mem|
        invariant 0 <= i <= |mem|
        invariant forall j :: 0 <= j < i ==> mem[j].id != id
      {
        if mem[i].id == id {
          return Some(i);
        }
        i := i + 1;
      }
      return None;
    }

    /** Cut one offer out of the list. */
    method Drop(i: nat)
      requires Valid() && i < |mem|
      modifies this`mem
      ensures Valid() && mem == old(mem)[..i] + old(mem)[i + 1..]
    {
      mem := mem[..i] + mem[i + 1..];
    }
  }

  /** Listing and buying in memory are together the one trade that a sold listing of the saga amounts
      to: every role's gold and items move by it. */
  method SellInMemory(m: MemAuction, wanted: Listing, buyer: int) returns (sold: bool)
    requires m.Valid()
    modifies m
    ensures m.Valid() && m.gold.Keys == old(m.gold).Keys && m.bags.Keys == old(m.bags).Keys
    ensures sold ==> forall x :: x in m.gold ==> m.gold[x] == old(m.gold)[x] + TradeGold(wanted, buyer, x)
    ensures sold ==> forall x, item :: x in m.bags ==>
              Count(m.bags[x], item) == Count(old(m.bags)[x], item) + TradeItem(wanted, buyer, x, item)
    ensures sold ==> m.mem == old(m.mem)
  {
    var listed := m.Create(wanted);
    if listed.Err? { return false; }
    ghost var offers := m.mem;
    var bought := m.Buy(buyer, listed.value);
    if bought.Ok? {
      OfferGone(old(m.mem), offers, m.mem, Offer(listed.value, wanted), bought.value);
    }
    return bought.Ok?;
  }

  /** The only offer with the new number is the new one, and without it the list is as before. */
  lemma OfferGone(before: seq<Offer>, during: seq<Offer>, after: seq<Offer>, offer: Offer, sale: Listing)
    requires during == before + [offer]
    requires forall i, j :: 0 <= i < j < |during| ==> during[i].id != during[j].id
    requires exists i :: 0 <= i < |during| && during[i] == Offer(offer.id, sale) && after == during[..i] + during[i + 1..]
    ensures sale == offer.sale && after == before
  {
    var i :| 0 <= i < |during| && during[i] == Offer(offer.id, sale) && after == during[..i] + during[i + 1..];
    assert during[|before|] == offer;
    assert i == |before|;
  }
}
