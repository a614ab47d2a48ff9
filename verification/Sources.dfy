/** The texts under which grants enter the ledger: no two origins share one. */
module Sources {
  import opened Decimal

  datatype Origin =
    | Escrow(listing: int)
    | Buyer(listing: int)
    | Seller(listing: int)
    | Pay(order: string)
    | Mail(mail: int)
    | Activity(role: int, activity: int)

  function Prefix(o: Origin): string {
    match o
    case Escrow(_) => "auction:escrow:"
    case Buyer(_) => "auction:buyer:"
    case Seller(_) => "auction:seller:"
    case Pay(_) => "pay:"
    case Mail(_) => "mail:"
    case Activity(_, _) => "activity:"
  }

  function Rest(o: Origin): string {
    match o
    case Escrow(id) => Itoa(id)
    case Buyer(id) => Itoa(id)
    case Seller(id) => Itoa(id)
    case Pay(order) => order
    case Mail(id) => Itoa(id)
    case Activity(role, activity) => Itoa(role) + ":" + Itoa(activity)
  }

  function Text(o: Origin): string { Prefix(o) + Rest(o) }

  predicate SameKind(a: Origin, b: Origin) {
    match a
    case Escrow(_) => b.Escrow?
    case Buyer(_) => b.Buyer?
    case Seller(_) => b.Seller?
    case Pay(_) => b.Pay?
    case Mail(_) => b.Mail?
    case Activity(_, _) => b.Activity?
  }

  lemma KindIsInText(a: Origin, b: Origin)
    requires Text(a) == Text(b)
    ensures SameKind(a, b)
  {
    assert Text(a)[0] == Prefix(a)[0] && Text(b)[0] == Prefix(b)[0];
    assert Text(a)[1] == Prefix(a)[1] && Text(b)[1] == Prefix(b)[1];
    if |Prefix(a)| > 9 && |Prefix(b)| > 9 {
      assert Text(a)[8] == Prefix(a)[8] && Text(b)[8] == Prefix(b)[8];
    }
  }

  /** The listing, order, mail or activity a ledger entry belongs to can be read off its source, so a
      source found in the ledger was put there by the same origin. */
  lemma TextInjective(a: Origin, b: Origin)
    requires Text(a) == Text(b)
    ensures a == b
  {
    KindIsInText(a, b);
    assert Rest(a) == Text(a)[|Prefix(a)|..] && Rest(b) == Text(b)[|Prefix(b)|..];
    match a
    case Escrow(id) => PrintInjective(id, b.listing);
    case Buyer(id) => PrintInjective(id, b.listing);
    case Seller(id) => PrintInjective(id, b.listing);
    case Pay(_) =>
    case Mail(id) => PrintInjective(id, b.mail);
    case Activity(role, activity) => PairInjective(role, activity, b.role, b.activity);
  }
}
