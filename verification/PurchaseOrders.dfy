/**
 Purchase orders of the portal and the accounts they provision (portal_server/orders.go:142-254, 292-486).

 Handlers run one after another; an approval may die after the account table is written and before the
 order is. A note is modelled with the set of orders whose marker it contains.
 */
module PurchaseOrders {
  import opened Common
  import opened Lists
  import opened AccessStore
  import Sorting

  datatype Status = Pending | Approved | Rejected

  datatype Billing = Monthly | Annual | TrialCycle

  datatype Size = Size(employees: int, machines: int, units: int)

  datatype Order = Order(
    id: string, company: string, contact: string, mobile: string, email: string, modules: Modules, size: Size,
    billing: Billing, isTrial: bool, notes: Notes, status: Status, accessId: int, requester: int, companyId: int,
    adminNote: string, created: int, updated: int)

  // ---------------------------------------------------------------- submitting

  predicate SameCustomer(x: Order, y: Order) {
    Fold(x.company) == Fold(y.company) && x.mobile == y.mobile
    && (x.email == "" || y.email == "" || Fold(x.email) == Fold(y.email))
  }

  /** An approved order of the same customer, whose account a new order asks to extend. */
  predicate Known(x: Order, order: Order) {
    x.status.Approved? && x.accessId > 0 && SameCustomer(x, order)
  }

  const TEN_MINUTES := 600

  predicate Repeats(x: Order, order: Order, now: int) {
    x.status.Pending? && now - x.created <= TEN_MINUTES
    && Fold(x.company) == Fold(order.company) && x.mobile == order.mobile && x.modules == order.modules
    && x.size == order.size && x.isTrial == order.isTrial
  }

  function KnownTo(order: Order): Order -> bool { (x: Order) => Known(x, order) }

  function RepeatedBy(order: Order, now: int): Order -> bool { (x: Order) => Repeats(x, order, now) }

  /** The account of the first approved order of the customer, unless the order names one. */
  function Inherited(orders: seq<Order>, order: Order): Order {
    var earlier := First(orders, KnownTo(order));
    if order.requester != 0 || earlier.None? then order
    else order.(requester := earlier.value.accessId,
                companyId := if order.companyId == 0 then earlier.value.companyId else order.companyId)
  }

  datatype Submission = Submission(orders: seq<Order>, order: Order)

  function Submit(orders: seq<Order>, order: Order, now: int): Submission {
    match First(orders, RepeatedBy(order, now))
    case Some(x) => Submission(orders, x)
    case None => Submission(orders + [Inherited(orders, order)], Inherited(orders, order))
  }

  lemma {:induction false} FirstOneMore<A>(items: seq<A>, n: nat, test: A -> bool)
    requires n < |items|
    ensures First(items[..n + 1], test)
         == if First(items[..n], test).Some? then First(items[..n], test)
            else if test(items[n]) then Some(items[n]) else None
  {
    if n == 0 {
      assert items[..1][1..] == [];
    } else {
      assert items[..n + 1][1..] == items[1..][..n] && items[..n][1..] == items[1..][..n - 1];
      FirstOneMore(items[1..], n - 1, test);
    }
  }

  lemma {:induction false} FirstStays<A>(items: seq<A>, n: nat, test: A -> bool)
    requires n <= |items| && First(items[..n], test).Some?
    ensures First(items, test) == First(items[..n], test)
    decreases |items| - n
  {
    if n == |items| {
      assert items[..n] == items;
    } else {
      FirstOneMore(items, n, test);
      FirstStays(items, n + 1, test);
    }
  }

  /** Submitting an order again within ten minutes gives back the first one and stores nothing. */
  lemma RepeatIsIgnored(orders: seq<Order>, order: Order, now: int, again: Order, later: int)
    requires order.status.Pending? && order.created == now <= later <= now + TEN_MINUTES
    requires again.company == order.company && again.mobile == order.mobile && again.modules == order.modules
    requires again.size == order.size && again.isTrial == order.isTrial
    requires First(orders, RepeatedBy(order, now)).None?
    ensures var first := Submit(orders, order, now);
            var second := Submit(first.orders, again, later);
            second.orders == first.orders && second.order == first.order
  {
    var first := Submit(orders, order, now);
    FirstMeans(orders, RepeatedBy(order, now));
    FirstMeans(orders, RepeatedBy(again, later));
    assert forall x | x in orders :: RepeatedBy(again, later)(x) ==> RepeatedBy(order, now)(x);
    var all, n := first.orders, |orders|;
    assert all[..n] == orders && all[..n + 1] == all;
    FirstOneMore(all, n, RepeatedBy(again, later));
  }

  // ---------------------------------------------------------------- finding and saving

  function OrderWith(id: string): Order -> bool { (x: Order) => Fold(x.id) == Fold(id) }

  function Save(orders: seq<Order>, order: Order, now: int): Result<seq<Order>> {
    if orders == [] then Err("not found")
    else if orders[0].id == order.id then Ok([order.(updated := now)] + orders[1..])
    else
      match Save(orders[1..], order, now)
      case Err(e) => Err(e)
      case Ok(rest) => Ok([orders[0]] + rest)
  }

  /** The accounts as the store lists them, newest first. */
  function Listing(items: seq<Access>): seq<Access> { Sorting.Sort(items, Newer) }

  predicate Provisioned(order: Order, x: Access) {
    (order.accessId > 0 && x.id == order.accessId) || order.id in x.notes.orders
  }

  function ProvisionedFor(order: Order): Access -> bool { (x: Access) => Provisioned(order, x) }

  function FindAccess(items: seq<Access>, order: Order): Option<Access> { First(Listing(items), ProvisionedFor(order)) }

  lemma ListedAccounts(items: seq<Access>, x: Access)
    ensures x in Listing(items) <==> x in items
  {
    Sorting.SameElements(Listing(items), items);
  }

  /** A search fails exactly when no account carries the order's marker and its own account is gone. */
  lemma FoundMeans(items: seq<Access>, order: Order)
    ensures FindAccess(items, order).None? <==> forall x | x in items :: !Provisioned(order, x)
    ensures FindAccess(items, order).Some?
        ==> FindAccess(items, order).value in items && Provisioned(order, FindAccess(items, order).value)
  {
    FirstMeans(Listing(items), ProvisionedFor(order));
    Sorting.SameElements(Listing(items), items);
  }

  // ---------------------------------------------------------------- approving and rejecting

  function Max(x: int, y: int): int { if x > y then x else y }

  function IsTrialOrder(o: Order): bool { o.isTrial || o.billing.TrialCycle? }

  function TrialEnd(o: Order, now: int): int { if IsTrialOrder(o) then now + 30 * DAY else 0 }

  function Expiry(o: Order, now: int): int {
    if o.billing.Annual? then now + 365 * DAY else now + 30 * DAY
  }

  function OrderNotes(o: Order): Notes { Notes(o.notes.text, {o.id} + o.notes.orders) }

  /** The form that extends the requester's account. */
  function ExtendForm(x: Access, o: Order, now: int): Form {
    var notes := OrderNotes(o);
    var m := x.modules;
    Form(x.project, x.company, x.contact, x.username, "", x.companyId, x.orgRef,
         if x.project.Textile? then NormalRole(x.role) else Customer, false,
         if IsTrialOrder(o) then m
         else Modules(m.financial || o.modules.financial, m.operational || o.modules.operational,
                      m.weaving || o.modules.weaving),
         Max(x.trialEnds, TrialEnd(o, now)), Max(x.expires, Expiry(o, now)),
         Notes(x.notes.text + "\n" + notes.text, x.notes.orders + notes.orders))
  }

  /** The form of a new account. */
  function NewForm(o: Order, now: int): Form {
    Form(Textile, o.company, o.contact, "", "", 0, "", Owner, false,
         if IsTrialOrder(o) then Modules(false, false, false) else o.modules,
         TrialEnd(o, now), Expiry(o, now), OrderNotes(o))
  }

  function RequesterOf(o: Order): Access -> bool { (x: Access) => x.id == o.requester && x.project.Textile? }

  /** What approving an order does before it saves the order. */
  datatype Plan =
    | Refused(error: string)
    | Attached(account: Access)
    | Extended(change: Change)
    | Created(change: Change)

  function PlanFor(items: seq<Access>, o: Order, now: int, out: Outcome): Plan {
    if o.status.Rejected? then Refused("rejected order")
    else if FindAccess(items, o).Some? then Attached(FindAccess(items, o).value)
    else if o.requester > 0 then
      match First(Listing(items), RequesterOf(o))
      case None => Refused("requester not found")
      case Some(x) =>
        (match Update(items, x.id, ExtendForm(x, o, now), now, out)
         case Err(e) => Refused(e)
         case Ok(change) => Extended(change))
    else
      match Create(items, NewForm(o, now), now, out)
      case Err(e) => Refused(e)
      case Ok(change) => Created(change)
  }

  function PlanItems(items: seq<Access>, plan: Plan): seq<Access> {
    if plan.Extended? || plan.Created? then plan.change.items else items
  }

  /** The order as an approval saves it. */
  function ApprovedOrder(o: Order, plan: Plan, note: string): Order
    requires !plan.Refused?
  {
    match plan
    case Attached(account) => o.(status := Approved, accessId := account.id, adminNote := note)
    case Extended(change) =>
      o.(status := Approved, accessId := change.record.id, companyId := change.record.companyId, adminNote := note,
         isTrial := IsTrialOrder(o))
    case Created(change) =>
      o.(status := Approved, accessId := change.record.id, companyId := change.record.companyId, adminNote := note,
         isTrial := IsTrialOrder(o))
  }

  datatype State = State(items: seq<Access>, orders: seq<Order>)

  /** One call of approvePurchaseOrder, which may die before it saves the order. */
  function Approve(s: State, id: string, note: string, now: int, out: Outcome, dies: bool): State {
    match First(s.orders, OrderWith(id))
    case None => s
    case Some(o) =>
      var plan := PlanFor(s.items, o, now, out);
      var saved := if plan.Refused? then Err(plan.error) else Save(s.orders, ApprovedOrder(o, plan, note), now);
      State(PlanItems(s.items, plan), if dies || saved.Err? then s.orders else saved.value)
  }

  function Reject(s: State, id: string, note: string, now: int): Result<State> {
    match First(s.orders, OrderWith(id))
    case None => Err("not found")
    case Some(o) =>
      if o.status.Approved? || o.accessId > 0 then Err("already provisioned")
      else
        match Save(s.orders, o.(status := Rejected, adminNote := note), now)
        case Err(e) => Err(e)
        case Ok(orders) => Ok(s.(orders := orders))
  }

  // ---------------------------------------------------------------- the handlers

  class Desk {
    const store: Store
    var orders: seq<Order>

    constructor (store: Store, orders: seq<Order>)
      ensures this.store == store && this.orders == orders
    {
      this.store := store;
      this.orders := orders;
    }

    method CreatePurchaseOrder(request: Order, now: int) returns (r: Order)
      modifies this`orders
      ensures orders == Submit(old(orders), request, now).orders && r == Submit(old(orders), request, now).order
    {
      var order := request;
      for i := 0 to |orders|
        invariant orders == old(orders)
        invariant order == Inherited(orders[..i], request)
        invariant First(orders[..i], RepeatedBy(request, now)).None?
      {
        FirstOneMore(orders, i, KnownTo(request));
        FirstOneMore(orders, i, RepeatedBy(request, now));
        var item := orders[i];
        FirstMeans(orders[..i], KnownTo(request));
        if order.requester == 0 && item.status.Approved? && item.accessId > 0 && SameCustomer(item, order) {
          order := order.(requester := item.accessId);
          if order.companyId == 0 { order := order.(companyId := item.companyId); }
        }
        if !item.status.Pending? || now - item.created > TEN_MINUTES { continue; }
        if Fold(item.company) == Fold(order.company) && item.mobile == order.mobile && item.modules == order.modules
           && item.size == order.size && item.isTrial == order.isTrial {
          FirstStays(orders, i + 1, RepeatedBy(request, now));
          return item;
        }
      }
      assert orders[..|orders|] == orders;
      orders := orders + [order];
      return order;
    }

    method SavePurchaseOrder(order: Order, now: int) returns (r: Result<()>)
      modifies this`orders
      ensures match Save(old(orders), order, now)
              case Err(e) => r == Err(e) && orders == old(orders)
              case Ok(saved) => r == Ok(()) && orders == saved
    {
      for i := 0 to |orders|
        invariant orders == old(orders)
        invariant forall j | 0 <= j < i :: orders[j].id != order.id
      {
        if orders[i].id != order.id { continue; }
        SavedAt(orders, order, now, i);
        orders := orders[i := order.(updated := now)];
        return Ok(());
      }
      SavedNowhere(orders, order, now);
      return Err("not found");
    }

    method FindPurchaseOrderAccess(order: Order) returns (found: Option<Access>)
      ensures found == FindAccess(store.items, order)
    {
      var items := Listing(store.items);
      for i := 0 to |items|
        invariant First(items[..i], ProvisionedFor(order)).None?
      {
        FirstOneMore(items, i, ProvisionedFor(order));
        if (order.accessId > 0 && items[i].id == order.accessId) || order.id in items[i].notes.orders {
          FirstStays(items, i + 1, ProvisionedFor(order));
          return Some(items[i]);
        }
      }
      assert items[..|items|] == items;
      return None;
    }

    method ApprovePurchaseOrder(id: string, note: string, now: int, out: Outcome) returns (r: Result<Access>)
      modifies this`orders, store
      ensures State(store.items, orders) == Approve(State(old(store.items), old(orders)), id, note, now, out, false)
    {
      var found := First(orders, OrderWith(id));
      if found.None? { return Err("not found"); }
      var order := found.value;
      if order.status.Rejected? { return Err("rejected order"); }
      var existing := FindPurchaseOrderAccess(order);
      if existing.Some? {
        order := order.(status := Approved, accessId := existing.value.id, adminNote := note);
        var saved := SavePurchaseOrder(order, now);
        return if saved.Ok? then Ok(existing.value) else Err(saved.error);
      }
      if order.requester > 0 {
        var requester := First(Listing(store.items), RequesterOf(order));
        if requester.None? { return Err("requester not found"); }
        r := store.UpdateManaged(requester.value.id, ExtendForm(requester.value, order, now), now, out);
      } else {
        r := store.CreateManaged(NewForm(order, now), now, out);
      }
      if r.Err? { return; }
      order := order.(status := Approved, accessId := r.value.id, companyId := r.value.companyId, adminNote := note,
                      isTrial := IsTrialOrder(order));
      var saved := SavePurchaseOrder(order, now);
      return if saved.Ok? then r else Err(saved.error);
    }

    method RejectPurchaseOrder(id: string, note: string, now: int) returns (r: Result<()>)
      modifies this`orders
      ensures match Reject(State(store.items, old(orders)), id, note, now)
              case Err(e) => r == Err(e) && orders == old(orders)
              case Ok(s) => r == Ok(()) && orders == s.orders
    {
      var found := First(orders, OrderWith(id));
      if found.None? { return Err("not found"); }
      var order := found.value;
      if order.status.Approved? || order.accessId > 0 { return Err("already provisioned"); }
      order := order.(status := Rejected, adminNote := note);
      r := SavePurchaseOrder(order, now);
    }
  }

  lemma {:induction false} SavedAt(orders: seq<Order>, order: Order, now: int, k: nat)
    requires k < |orders| && orders[k].id == order.id && forall j | 0 <= j < k :: orders[j].id != order.id
    ensures Save(orders, order, now) == Ok(orders[k := order.(updated := now)])
  {
    if k > 0 {
      SavedAt(orders[1..], order, now, k - 1);
      assert [orders[0]] + orders[1..][k - 1 := order.(updated := now)] == orders[k := order.(updated := now)];
    } else {
      assert [order.(updated := now)] + orders[1..] == orders[0 := order.(updated := now)];
    }
  }

  lemma {:induction false} SavedNowhere(orders: seq<Order>, order: Order, now: int)
    requires forall j | 0 <= j < |orders| :: orders[j].id != order.id
    ensures Save(orders, order, now) == Err("not found")
  {
    if orders != [] {
      SavedNowhere(orders[1..], order, now);
    }
  }
}
