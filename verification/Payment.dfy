/**
 * Payment: bind the provider transaction and mark the order paid, grant the reward through the
 * ledger, then mark the order delivered. Notifications, retries and replicas interleave at every
 * statement, and any of them may stop anywhere.
 */
module Payment {
  import opened Base
  import opened Roles
  import opened Ledger

  const PENDING := 0
  const PAID := 1

  datatype Order = Order(
    role: int, product: string, amount: int, currency: string, status: int, delivered: bool,
    provider: Option<string>)

  datatype Source = Pay(order: string) | Elsewhere(name: string)

  type Orders = map<string, Order>

  /* ---------- the orders table ---------- */

  function CreateOrder(t: Orders, id: string, o: Order): Option<Orders> {
    if id in t then None else Some(t[id := o.(status := PENDING, delivered := false, provider := None)])
  }

  predicate BoundElsewhere(t: Orders, id: string, txn: string) {
    exists i :: i in t && i != id && t[i].provider == Some(txn)
  }

  /** Verify the immutable attributes and bind the transaction; the unique index refuses a
      transaction that another order carries. */
  function PaidAfter(t: Orders, id: string, txn: string, product: string, currency: string, amount: int)
    : Option<Orders>
  {
    if txn == "" || id !in t then None
    else if t[id].product != product || t[id].amount != amount || t[id].currency != currency then None
    else if t[id].provider.Some? && t[id].provider.value != txn then None
    else if BoundElsewhere(t, id, txn) then None
    else Some(t[id := t[id].(status := PAID, provider := Some(txn))])
  }

  function DeliveredAfter(t: Orders, id: string): Option<Orders> {
    if id in t && t[id].status == PAID then Some(t[id := t[id].(delivered := true)]) else None
  }

  /** The catalogue; an unknown product pays ten gold per unit of amount. */
  function Reward(o: Order): Bundle {
    if o.product == "coin_pack" then Bundle(1000, map[])
    else if o.product == "starter" then Bundle(500, map["potion" := 5])
    else if o.product == "diamond" then Bundle(200, map["gem" := 10])
    else Bundle(o.amount * 10, map[])
  }

  /** An order is created exactly under a new number, pending, unbound and undelivered, with its terms. */
  lemma CreatedIsPending(t: Orders, id: string, o: Order)
    ensures CreateOrder(t, id, o).Some? <==> id !in t
    ensures CreateOrder(t, id, o).Some? ==>
              var u := CreateOrder(t, id, o).value;
              && u.Keys == t.Keys + {id} && (forall i :: i in t ==> u[i] == t[i])
              && u[id].status == PENDING && !u[id].delivered && u[id].provider == None
              && u[id].role == o.role && u[id].product == o.product && u[id].amount == o.amount && u[id].currency == o.currency
  {
  }

  /** A notification is accepted if and only if it names an order with exactly its product, currency and
      amount, unbound or bound to the same transaction, and no other order carries the transaction; the
      order is then paid and bound to it. */
  lemma PaidIff(t: Orders, id: string, txn: string, product: string, currency: string, amount: int)
    ensures PaidAfter(t, id, txn, product, currency, amount).Some?
         <==> id in t && txn != ""
              && t[id].product == product && t[id].currency == currency && t[id].amount == amount
              && (t[id].provider == None || t[id].provider == Some(txn))
              && forall i :: i in t && i != id ==> t[i].provider != Some(txn)
    ensures PaidAfter(t, id, txn, product, currency, amount).Some? ==>
              var o := PaidAfter(t, id, txn, product, currency, amount).value[id];
              o.status == PAID && o.provider == Some(txn)
  {
  }

  /** A notification may be repeated: it succeeds again and changes nothing. */
  lemma PaidTwiceIsOnce(t: Orders, id: string, txn: string, product: string, currency: string, amount: int)
    requires PaidAfter(t, id, txn, product, currency, amount).Some?
    ensures var u := PaidAfter(t, id, txn, product, currency, amount).value;
            PaidAfter(u, id, txn, product, currency, amount) == Some(u)
  {
    var u := PaidAfter(t, id, txn, product, currency, amount).value;
    assert u[id := u[id]] == u;
    assert forall i :: i in u && i != id ==> i in t && u[i] == t[i];
  }

  /** It leaves other orders, the terms and the delivery alone; afterwards the transaction is refused
      for any other order, and any other transaction for this one. */
  lemma PaidBindsForGood(t: Orders, id: string, txn: string, product: string, currency: string, amount: int)
    requires PaidAfter(t, id, txn, product, currency, amount).Some?
    ensures var u := PaidAfter(t, id, txn, product, currency, amount).value;
            && u.Keys == t.Keys && u[id].(status := t[id].status, provider := t[id].provider) == t[id]
            && (forall i :: i in t && i != id ==> u[i] == t[i])
            && (forall other, p, c, n :: other != txn ==> PaidAfter(u, id, other, p, c, n) == None)
            && (forall i, p, c, n :: i != id ==> PaidAfter(u, i, txn, p, c, n) == None)
  {
    var u := PaidAfter(t, id, txn, product, currency, amount).value;
    forall i | i != id ensures BoundElsewhere(u, i, txn) {
      assert id in u && u[id].provider == Some(txn);
    }
  }

  /** Marking delivered is refused exactly for an order that is not paid, touches nothing else, and may
      be repeated. */
  lemma DeliveredOnlyIfPaid(t: Orders, id: string)
    ensures DeliveredAfter(t, id).None? <==> id !in t || t[id].status != PAID
    ensures DeliveredAfter(t, id).Some? ==>
              var u := DeliveredAfter(t, id).value;
              && u.Keys == t.Keys && (forall i :: i in t && i != id ==> u[i] == t[i])
              && u[id].delivered && u[id].(delivered := t[id].delivered) == t[id]
              && DeliveredAfter(u, id) == Some(u)
  {
    if DeliveredAfter(t, id).Some? {
      var u := DeliveredAfter(t, id).value;
      assert u[id := u[id]] == u;
    }
  }

  /* ---------- the system ---------- */

  /** A delivery under way: before its grant (with the order it read), or between grant and mark. */
  datatype Delivery = Granting(id: string, order: Order) | Marking(id: string)

  datatype State = State(orders: Orders, econ: Econ<Source>, deliveries: map<nat, Delivery>)

  datatype Step =
    | CreateStep(id: string, order: Order)
    | NotifyStep(w: nat, id: string, txn: string, product: string, currency: string, amount: int, role: int)
    | RetryStep(w: nat, id: string)
    | GrantStep(w: nat)
    | MarkStep(w: nat)
    | CrashStep(w: nat)
    | RoleStep(role: int)
    | OutsideStep(role: int, name: Option<string>, bundle: Bundle)

  const Start := State(map[], Econ(map[], map[], map[]), map[])

  function Notify(s: State, w: nat, id: string, txn: string, product: string, currency: string, amount: int, role: int)
    : State
  {
    var t := PaidAfter(s.orders, id, txn, product, currency, amount);
    if w in s.deliveries || id == "" || t.None? then s
    else
      var o := t.value[id];
      if o.delivered || (role != 0 && role != o.role) then s.(orders := t.value)
      else s.(orders := t.value, deliveries := s.deliveries[w := Granting(id, o)])
  }

  function Retry(s: State, w: nat, id: string): State {
    if w in s.deliveries || id !in s.orders || s.orders[id].status != PAID || s.orders[id].delivered then s
    else s.(deliveries := s.deliveries[w := Granting(id, s.orders[id])])
  }

  function DoGrant(s: State, w: nat): State {
    if w !in s.deliveries || !s.deliveries[w].Granting? then s
    else
      var Granting(id, o) := s.deliveries[w];
      var next := s.deliveries[w := Marking(id)];
      var e := GrantTo(s.econ, o.role, Pay(id), Reward(o));
      if e.None? then s else s.(econ := e.value, deliveries := next)
  }

  function DoMark(s: State, w: nat): State {
    if w !in s.deliveries || !s.deliveries[w].Marking? then s
    else
      var t := DeliveredAfter(s.orders, s.deliveries[w].id);
      s.(orders := if t.Some? then t.value else s.orders, deliveries := s.deliveries - {w})
  }

  function Next(s: State, step: Step): State {
    match step
    case CreateStep(id, o) =>
      var t := CreateOrder(s.orders, id, o);
      if t.None? || o.role <= 0 || o.amount <= 0 then s else s.(orders := t.value)
    case NotifyStep(w, id, txn, product, currency, amount, role) =>
      Notify(s, w, id, txn, product, currency, amount, role)
    case RetryStep(w, id) => Retry(s, w, id)
    case GrantStep(w) => DoGrant(s, w)
    case MarkStep(w) => DoMark(s, w)
    case CrashStep(w) => s.(deliveries := s.deliveries - {w})
    case RoleStep(role) => s.(econ := NewRole(s.econ, role))
    case OutsideStep(role, name, b) =>
      if !CanApply(s.econ, role, b) then s
      else if name.None? then s.(econ := Applied(s.econ, role, b))
      else if (role, Elsewhere(name.value)) in s.econ.ledger then s
      else s.(econ := Booked(s.econ, role, Elsewhere(name.value), b))
  }

  function Run(s: State, steps: seq<Step>): State {
    if steps == [] then s else Next(Run(s, steps[..|steps| - 1]), steps[|steps| - 1])
  }

  /* ---------- the invariant ---------- */

  predicate OrderOk(s: State, id: string)
    requires id in s.orders
  {
    var o := s.orders[id];
    && (o.status == PENDING || o.status == PAID)
    && (o.status == PAID <==> o.provider.Some?)
    && (o.delivered ==> o.status == PAID && (o.role, Pay(id)) in s.econ.ledger)
  }

  predicate EntryOk(s: State, k: (int, Source))
    requires k in s.econ.ledger
  {
    k.1.Pay? ==>
      && k.1.order in s.orders
      && var o := s.orders[k.1.order];
      k.0 == o.role && o.status == PAID && s.econ.ledger[k] == Reward(o)
  }

  predicate DeliveryOk(s: State, d: Delivery) {
    && d.id in s.orders && s.orders[d.id].status == PAID
    && match d
       case Granting(id, o) =>
         o.role == s.orders[id].role && o.product == s.orders[id].product && o.amount == s.orders[id].amount
       case Marking(id) => (s.orders[id].role, Pay(id)) in s.econ.ledger
  }

  predicate NoneShared(t: Orders) {
    forall i, j :: i in t && j in t && i != j && t[i].provider.Some? ==> t[i].provider != t[j].provider
  }

  predicate Inv(s: State) {
    && (forall id :: id in s.orders ==> OrderOk(s, id))
    && (forall k :: k in s.econ.ledger ==> EntryOk(s, k))
    && (forall w :: w in s.deliveries ==> DeliveryOk(s, s.deliveries[w]))
    && NoneShared(s.orders)
  }

  /** An order only moves forward: terms fixed, paid stays paid, the bound transaction stays. */
  predicate Forward(o: Order, p: Order) {
    && p.role == o.role && p.product == o.product && p.amount == o.amount && p.currency == o.currency
    && (o.status == PAID ==> p.status == PAID && p.provider == o.provider)
    && (o.delivered ==> p.delivered)
  }

  /** A statement that moves orders forward and books nothing keeps everything else. */
  lemma OrdersForward(s: State, t: State)
    requires Inv(s) && t.econ == s.econ && NoneShared(t.orders)
    requires forall i :: i in s.orders ==> i in t.orders && Forward(s.orders[i], t.orders[i])
    requires forall i :: i in t.orders && i !in s.orders ==> OrderOk(t, i)
    requires forall i :: i in s.orders && t.orders[i] != s.orders[i] ==> OrderOk(t, i)
    requires forall w :: w in t.deliveries ==>
               (w in s.deliveries && t.deliveries[w] == s.deliveries[w]) || DeliveryOk(t, t.deliveries[w])
    ensures Inv(t)
  {
    forall i | i in t.orders ensures OrderOk(t, i) {
      assert i in s.orders ==> OrderOk(s, i);
    }
    forall k | k in t.econ.ledger ensures EntryOk(t, k) {
      assert EntryOk(s, k);
    }
    forall w | w in t.deliveries ensures DeliveryOk(t, t.deliveries[w]) {
      assert w in s.deliveries ==> DeliveryOk(s, s.deliveries[w]);
    }
  }

  lemma NotifyKeeps(s: State, step: Step)
    requires Inv(s) && step.NotifyStep?
    ensures Inv(Next(s, step))
  {
    var t := Next(s, step);
    if t != s {
      assert OrderOk(s, step.id);
      OrdersForward(s, t);
    }
  }

  lemma MarkKeeps(s: State, w: nat)
    requires Inv(s)
    ensures Inv(DoMark(s, w))
  {
    var t := DoMark(s, w);
    if w in s.deliveries && s.deliveries[w].Marking? {
      assert DeliveryOk(s, s.deliveries[w]);
      assert OrderOk(s, s.deliveries[w].id);
      OrdersForward(s, t);
    }
  }

  lemma GrantKeeps(s: State, w: nat)
    requires Inv(s)
    ensures Inv(DoGrant(s, w))
  {
    var t := DoGrant(s, w);
    if t != s {
      var Granting(id, o) := s.deliveries[w];
      assert DeliveryOk(s, s.deliveries[w]);
      forall k | k in t.econ.ledger ensures EntryOk(t, k) {
        assert k in s.econ.ledger ==> EntryOk(s, k);
      }
      forall i | i in t.orders ensures OrderOk(t, i) {
        assert OrderOk(s, i);
      }
      forall v | v in t.deliveries ensures DeliveryOk(t, t.deliveries[v]) {
        assert DeliveryOk(s, s.deliveries[v]);
      }
    }
  }

  /** Steps of the rest of the game: balances move, other sources are booked. */
  lemma ElsewhereKeeps(s: State, t: State)
    requires Inv(s) && t.orders == s.orders && t.deliveries == s.deliveries
    requires forall k :: k in s.econ.ledger ==> k in t.econ.ledger && t.econ.ledger[k] == s.econ.ledger[k]
    requires forall k :: k in t.econ.ledger && k !in s.econ.ledger ==> k.1.Elsewhere?
    ensures Inv(t)
  {
    forall k | k in t.econ.ledger ensures EntryOk(t, k) {
      assert k in s.econ.ledger ==> EntryOk(s, k);
    }
    forall i | i in t.orders ensures OrderOk(t, i) {
      assert OrderOk(s, i);
    }
    forall w | w in t.deliveries ensures DeliveryOk(t, t.deliveries[w]) {
      assert DeliveryOk(s, s.deliveries[w]);
    }
  }

  lemma OthersKeep(s: State, step: Step)
    requires Inv(s) && (step.CreateStep? || step.RetryStep? || step.CrashStep?)
    ensures Inv(Next(s, step))
  {
    OrdersForward(s, Next(s, step));
  }

  lemma StepKeeps(s: State, step: Step)
    requires Inv(s)
    ensures Inv(Next(s, step))
  {
    match step
    case NotifyStep(_, _, _, _, _, _, _) => NotifyKeeps(s, step);
    case GrantStep(w) => GrantKeeps(s, w);
    case MarkStep(w) => MarkKeeps(s, w);
    case RoleStep(_) => ElsewhereKeeps(s, Next(s, step));
    case OutsideStep(_, _, _) => ElsewhereKeeps(s, Next(s, step));
    case _ => OthersKeep(s, step);
  }

  lemma {:induction false} RunKeeps(steps: seq<Step>)
    ensures Inv(Run(Start, steps))
  {
    if steps != [] {
      RunKeeps(steps[..|steps| - 1]);
      StepKeeps(Run(Start, steps[..|steps| - 1]), steps[|steps| - 1]);
    }
  }

  /* ---------- the theorems ---------- */

  /** The roles a reward was booked for under the source of an order. */
  function RewardedFor(ledger: map<(int, Source), Bundle>, id: string): set<int> {
    set k | k in ledger && k.1 == Pay(id) :: k.0
  }

  /** In every run: at most the order's own role is ever rewarded for it, with the catalogue
      reward, and only after payment; a delivered order is paid and rewarded exactly once. */
  lemma PaymentExactlyOnce(steps: seq<Step>, id: string)
    requires id in Run(Start, steps).orders
    ensures var s := Run(Start, steps);
            var o := s.orders[id];
            && (RewardedFor(s.econ.ledger, id) == {} || RewardedFor(s.econ.ledger, id) == {o.role})
            && ((o.role, Pay(id)) in s.econ.ledger ==>
                  o.status == PAID && s.econ.ledger[(o.role, Pay(id))] == Reward(o))
            && (o.delivered ==> o.status == PAID && RewardedFor(s.econ.ledger, id) == {o.role})
  {
    RunKeeps(steps);
    var s := Run(Start, steps);
    assert OrderOk(s, id);
    forall k | k in s.econ.ledger && k.1 == Pay(id) ensures k.0 == s.orders[id].role {
      assert EntryOk(s, k);
    }
    if (s.orders[id].role, Pay(id)) in s.econ.ledger {
      assert EntryOk(s, (s.orders[id].role, Pay(id)));
      assert RewardedFor(s.econ.ledger, id) == {s.orders[id].role};
    } else {
      assert RewardedFor(s.econ.ledger, id) == {};
    }
  }

  lemma OrderStaysOk(steps: seq<Step>, id: string)
    requires id in Run(Start, steps).orders
    ensures OrderOk(Run(Start, steps), id)
  {
    RunKeeps(steps);
  }

  lemma StepForward(s: State, step: Step, id: string)
    requires id in s.orders && OrderOk(s, id)
    ensures id in Next(s, step).orders && Forward(s.orders[id], Next(s, step).orders[id])
  {
  }

  /** Whatever happens later, an order keeps its terms, its payment, its delivery and the provider
      transaction bound to it. */
  lemma {:induction false} BindingIsFinal(steps: seq<Step>, more: seq<Step>, id: string)
    requires id in Run(Start, steps).orders
    ensures var s, t := Run(Start, steps), Run(Start, steps + more);
            && id in t.orders && Forward(s.orders[id], t.orders[id])
            && (s.orders[id].provider.Some? ==> t.orders[id].provider == s.orders[id].provider)
  {
    OrderStaysOk(steps, id);
    if more == [] {
      assert steps + more == steps;
    } else {
      var rest := more[..|more| - 1];
      BindingIsFinal(steps, rest, id);
      OrderStaysOk(steps + rest, id);
      StepForward(Run(Start, steps + rest), more[|more| - 1], id);
      assert (steps + more)[..|steps + more| - 1] == steps + rest;
    }
  }

  /** No two orders ever carry the same provider transaction. */
  lemma TransactionsAreNotShared(steps: seq<Step>, i: string, j: string)
    requires var t := Run(Start, steps).orders; i in t && j in t && i != j && t[i].provider.Some?
    ensures var t := Run(Start, steps).orders; t[i].provider != t[j].provider
  {
    RunKeeps(steps);
  }

  /* ---------- reconciliation ---------- */

  datatype Summary = Summary(total: nat, pending: nat, paid: nat, delivered: nat, undeliveredPaid: nat)

  /** The aggregate query: each figure counts its own rows. */
  function Reconcile(t: Orders): Summary {
    Summary(
      |t|,
      |WithStatus(t, PENDING)|,
      |WithStatus(t, PAID)|,
      |Delivered(t)|,
      |Undelivered(t)|)
  }

  function WithStatus(t: Orders, status: int): set<string> { set i | i in t && t[i].status == status }

  function Delivered(t: Orders): set<string> { set i | i in t && t[i].delivered }

  function Undelivered(t: Orders): set<string> { set i | i in t && t[i].status == PAID && !t[i].delivered }

  lemma Splits<T>(whole: set<T>, a: set<T>, b: set<T>)
    requires whole == a + b && a !! b
    ensures |whole| == |a| + |b|
  {
  }

  /** In every run the report adds up. */
  lemma ReconcileAddsUp(steps: seq<Step>)
    ensures var r := Reconcile(Run(Start, steps).orders);
            r.total == r.pending + r.paid && r.paid == r.delivered + r.undeliveredPaid
  {
    forall i | i in Run(Start, steps).orders ensures OrderOk(Run(Start, steps), i) {
      OrderStaysOk(steps, i);
    }
    CountsAddUp(Run(Start, steps).orders);
  }

  lemma CountsAddUp(t: Orders)
    requires forall i :: i in t ==>
               (t[i].status == PENDING || t[i].status == PAID) && (t[i].delivered ==> t[i].status == PAID)
    ensures var r := Reconcile(t); r.total == r.pending + r.paid && r.paid == r.delivered + r.undeliveredPaid
  {
    Splits(t.Keys, WithStatus(t, PENDING), WithStatus(t, PAID));
    Splits(WithStatus(t, PAID), Delivered(t), Undelivered(t));
    assert |t| == |t.Keys|;
  }

  lemma OneMore<T>(a: set<T>, b: set<T>, x: T)
    requires x !in a && b == a + {x}
    ensures |b| == |a| + 1
  {
  }

  /** Creating adds one pending order to the report and nothing else. */
  lemma CreatingIsReported(t: Orders, id: string, o: Order)
    requires id !in t
    ensures var r, u := Reconcile(t), Reconcile(CreateOrder(t, id, o).value);
            u == r.(total := r.total + 1, pending := r.pending + 1)
  {
    var u := CreateOrder(t, id, o).value;
    assert u.Keys == t.Keys + {id};
    OneMore(t.Keys, u.Keys, id);
    assert |t| == |t.Keys| && |u| == |u.Keys|;
    OneMore(WithStatus(t, PENDING), WithStatus(u, PENDING), id);
    assert WithStatus(u, PAID) == WithStatus(t, PAID);
    assert Delivered(u) == Delivered(t);
    assert Undelivered(u) == Undelivered(t);
  }

  /** A first payment moves one order from pending to paid and undelivered. */
  lemma PayingIsReported(t: Orders, id: string, txn: string)
    requires id in t && t[id].status == PENDING && !t[id].delivered
    ensures var r, u := Reconcile(t), Reconcile(t[id := t[id].(status := PAID, provider := Some(txn))]);
            u.pending + 1 == r.pending && u == r.(pending := u.pending, paid := r.paid + 1, undeliveredPaid := r.undeliveredPaid + 1)
  {
    var u := t[id := t[id].(status := PAID, provider := Some(txn))];
    assert u.Keys == t.Keys && |t| == |t.Keys| && |u| == |u.Keys|;
    OneMore(WithStatus(u, PENDING), WithStatus(t, PENDING), id);
    OneMore(WithStatus(t, PAID), WithStatus(u, PAID), id);
    assert Delivered(u) == Delivered(t);
    OneMore(Undelivered(t), Undelivered(u), id);
  }

  /** A first delivery moves one order from undelivered to delivered. */
  lemma DeliveringIsReported(t: Orders, id: string)
    requires id in t && t[id].status == PAID && !t[id].delivered
    ensures var r, u := Reconcile(t), Reconcile(DeliveredAfter(t, id).value);
            u.undeliveredPaid + 1 == r.undeliveredPaid && u == r.(delivered := r.delivered + 1, undeliveredPaid := u.undeliveredPaid)
  {
    var u := DeliveredAfter(t, id).value;
    assert u.Keys == t.Keys && |t| == |t.Keys| && |u| == |u.Keys|;
    assert WithStatus(u, PENDING) == WithStatus(t, PENDING);
    assert WithStatus(u, PAID) == WithStatus(t, PAID);
    OneMore(Delivered(t), Delivered(u), id);
    OneMore(Undelivered(u), Undelivered(t), id);
  }

  /* ---------- who pays and who is delivered ---------- */

  /** An order becomes paid only by a notification for it with its own product, currency and amount, and
      is then bound to that notification's transaction. */
  lemma OnlyOwnNotificationPays(steps: seq<Step>, step: Step, id: string)
    requires id in Run(Start, steps).orders && Run(Start, steps).orders[id].status != PAID
    ensures var o, t := Run(Start, steps).orders[id], Run(Start, steps + [step]).orders;
            id in t && t[id].status == PAID ==>
              step.NotifyStep? && step.id == id && step.txn != "" && t[id].provider == Some(step.txn)
              && step.product == o.product && step.currency == o.currency && step.amount == o.amount
  {
    RunSnoc(Start, steps, step);
  }

  lemma RunSnoc(s: State, steps: seq<Step>, step: Step)
    ensures Run(s, steps + [step]) == Next(Run(s, steps), step)
  {
    assert (steps + [step])[..|steps|] == steps;
  }

  /** A request makes an order exactly for a new number, a legal role and a positive amount. */
  lemma OrderIsMadeIff(s: State, id: string, o: Order)
    requires id !in s.orders
    ensures id in Next(s, CreateStep(id, o)).orders <==> o.role > 0 && o.amount > 0
  {
  }

  /** A delivered order, one that is not paid, and a notification for another role start no delivery. */
  lemma NoNeedlessDelivery(s: State, step: Step)
    requires step.RetryStep? || step.NotifyStep?
    requires step.w !in s.deliveries && step.w in Next(s, step).deliveries
    ensures var d, t := Next(s, step).deliveries[step.w], Next(s, step).orders;
            && d.Granting? && d.id == step.id && step.id in t && t[step.id] == d.order
            && d.order.status == PAID && !d.order.delivered && (step.NotifyStep? && step.role != 0 ==> step.role == d.order.role)
  {
  }

  /** What a delivery adds to a role: by product, and ten gold per unit for a product outside the catalogue. */
  lemma RewardIsWorth(o: Order, item: string)
    ensures Reward(o).gold == match o.product
                              case "coin_pack" => 1000
                              case "starter" => 500
                              case "diamond" => 200
                              case _ => 10 * o.amount
    ensures Count(Reward(o).items, item)
         == if o.product == "starter" && item == "potion" then 5 else if o.product == "diamond" && item == "gem" then 10 else 0
  {
  }

  /** A delivery that stops is gone, and leaves orders and economy as they are. */
  lemma CrashedDeliveryIsGone(s: State, w: nat)
    ensures var t := Next(s, CrashStep(w)); t.deliveries == s.deliveries - {w} && t.orders == s.orders && t.econ == s.econ
  {
  }

  /** The role has balances and the worker is free. */
  predicate CanDeliver(s: State, w: nat, o: Order) {
    w !in s.deliveries && o.role in s.econ.gold && o.role in s.econ.bags && o.amount >= 0
  }

  /** Once started, a delivery grants the reward and marks the order. */
  lemma DeliveryCompletes(s: State, w: nat, id: string, o: Order)
    requires w in s.deliveries && s.deliveries[w] == Granting(id, o)
    requires id in s.orders && s.orders[id].status == PAID && o.amount >= 0
    requires o.role in s.econ.gold && o.role in s.econ.bags
    ensures var t := Next(Next(s, GrantStep(w)), MarkStep(w));
            && id in t.orders && t.orders[id].delivered && (o.role, Pay(id)) in t.econ.ledger && w !in t.deliveries
            && ((o.role, Pay(id)) !in s.econ.ledger ==> t.econ.gold[o.role] == s.econ.gold[o.role] + Reward(o).gold)
  {
    assert CanApply(s.econ, o.role, Reward(o));
    var m := Next(s, GrantStep(w));
    assert m.deliveries[w] == Marking(id) && m.orders == s.orders;
  }

  /** A correct notification for an undelivered order ends with the order paid, rewarded and delivered. */
  lemma NotificationDelivers(s: State, w: nat, id: string, txn: string, role: int)
    requires id != "" && id in s.orders && !s.orders[id].delivered && CanDeliver(s, w, s.orders[id])
    requires var o := s.orders[id];
             PaidAfter(s.orders, id, txn, o.product, o.currency, o.amount).Some? && (role == 0 || role == o.role)
    ensures var o := s.orders[id];
            var t := Next(Next(Next(s, NotifyStep(w, id, txn, o.product, o.currency, o.amount, role)), GrantStep(w)), MarkStep(w));
            id in t.orders && t.orders[id].delivered && t.orders[id].status == PAID && (o.role, Pay(id)) in t.econ.ledger
  {
    var o := s.orders[id];
    var m := Next(s, NotifyStep(w, id, txn, o.product, o.currency, o.amount, role));
    assert m.econ == s.econ && m.deliveries == s.deliveries[w := Granting(id, m.orders[id])];
    DeliveryCompletes(m, w, id, m.orders[id]);
  }

  /** So does a retry of a paid one. */
  lemma RetryDelivers(s: State, w: nat, id: string)
    requires id in s.orders && s.orders[id].status == PAID && !s.orders[id].delivered && CanDeliver(s, w, s.orders[id])
    ensures var t := Next(Next(Next(s, RetryStep(w, id)), GrantStep(w)), MarkStep(w));
            id in t.orders && t.orders[id].delivered && (s.orders[id].role, Pay(id)) in t.econ.ledger
  {
    DeliveryCompletes(Next(s, RetryStep(w, id)), w, id, s.orders[id]);
  }

  /** The orders table as it is updated in place. */
  class PayTable {
    var rows: Orders

    constructor ()
      ensures rows == map[]
    {
      rows := map[];
    }

    /** Reports whether the transaction is bound, and whether this call made the order paid. */
    method MarkPaidVerified(id: string, txn: string, product: string, currency: string, amount: int)
      returns (ok: bool, newlyPaid: bool)
      modifies this
      ensures var t := PaidAfter(old(rows), id, txn, product, currency, amount);
              ok == t.Some? && rows == if t.Some? then t.value else old(rows)
      ensures newlyPaid == (ok && old(rows)[id].status != PAID)
    {
      ok, newlyPaid := false, false;
      if txn == "" || id !in rows {
        return;
      }
      var o := rows[id];
      if o.product != product || o.amount != amount || o.currency != currency {
        return;
      }
      if o.provider.Some? && o.provider.value != txn {
        return;
      }
      if BoundElsewhere(rows, id, txn) {
        return;
      }
      newlyPaid := o.status != PAID;
      rows := rows[id := o.(status := PAID, provider := Some(txn))];
      ok := true;
    }

    method MarkDelivered(id: string) returns (ok: bool)
      modifies this
      ensures ok == DeliveredAfter(old(rows), id).Some?
      ensures rows == if ok then DeliveredAfter(old(rows), id).value else old(rows)
    {
      ok := id in rows && rows[id].status == PAID;
      if ok {
        rows := rows[id := rows[id].(delivered := true)];
      }
    }
  }
}
