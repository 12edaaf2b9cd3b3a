/**
 What approving a purchase order grants, spelled out on the table of accounts and the stored order
 (portal_server/orders.go:341-470).
 */
module OrderGrants {
  import opened Common
  import opened Lists
  import opened AccessStore
  import opened PurchaseOrders
  import opened AccessGrants
  import AccessRuns

  predicate Trial(o: Order) { o.isTrial || o.billing.TrialCycle? }

  /** Thirty days, or a year with annual billing. */
  function PaidUntil(o: Order, now: int): int {
    now + (match o.billing case Annual => 365 case _ => 30) * 86400
  }

  function TrialUntil(o: Order, now: int): int { if Trial(o) then now + 30 * 86400 else 0 }

  function Later(x: int, y: int): int { if x < y then y else x }

  /** An active owner account of the customer, with the modules ordered; a trial has none of its own. */
  predicate IsNewAccount(r: Access, o: Order, now: int, out: Outcome) {
    && r.project.Textile? && r.company == o.company && r.contact == o.contact && r.role.Owner?
    && r.active && r.created == now && !r.requiresSetup && !r.mustChange && |r.password| >= 8
    && r.password == out.newPassword && (r.username in out.names || r.username == out.lastName)
    && out.company == Ok(r.companyId)
    && r.expires == PaidUntil(o, now) && r.trialEnds == TrialUntil(o, now)
    && r.modules == (if Trial(o) then Modules(false, false, false) else o.modules)
    && r.notes.orders == o.notes.orders + {o.id}
  }

  /** Nothing an account has is shortened or taken away, and the ordered modules and time are added. */
  predicate IsExtended(x: Access, r: Access, o: Order, now: int) {
    var trial := Later(x.trialEnds, TrialUntil(o, now));
    && r.expires == Later(x.expires, PaidUntil(o, now))
    && r.trialEnds == (if trial == 0 then x.trialEnds else trial)
    && (r.modules.financial <==> x.modules.financial || (!Trial(o) && o.modules.financial))
    && (r.modules.operational <==> x.modules.operational || (!Trial(o) && o.modules.operational))
    && (r.modules.weaving <==> x.modules.weaving || (!Trial(o) && o.modules.weaving))
    && r.notes.orders == x.notes.orders + o.notes.orders + {o.id}
    && (x.username != "" ==> r.username == x.username) && r.password == x.password
    && r.project == x.project && r.company == x.company && r.contact == x.contact && r.companyId == x.companyId
    && r.orgRef == x.orgRef && r.id == x.id && r.token == x.token && r.active == x.active && r.created == x.created
    && (x.role.Manager? || x.role.Accountant? ==> r.role == x.role) && !r.requiresSetup
    && (x.tenant != "" ==> r.tenant == x.tenant)
  }

  /** The account was made for the order, or the order was given it before. */
  predicate HasAccount(o: Order, x: Access) {
    o.id in x.notes.orders || (o.accessId > 0 && o.accessId == x.id)
  }

  predicate AtLeastAsNew(x: Access, y: Access) { x.created > y.created || (x.created == y.created && x.id >= y.id) }

  /** The newest account of the order; of two created at the same time the one with the higher id. */
  predicate IsNewestAccount(items: seq<Access>, o: Order, account: Access) {
    && account in items && HasAccount(o, account)
    && forall x | x in items && HasAccount(o, x) :: AtLeastAsNew(account, x)
  }

  /** The order as it is stored once approved. */
  predicate IsApproved(items: seq<Access>, o: Order, saved: Order, account: Access, note: string, now: int) {
    var found := exists x | x in items :: HasAccount(o, x);
    saved == o.(status := Approved, accessId := account.id, adminNote := note, updated := now,
                companyId := if found then o.companyId else account.companyId,
                isTrial := if found then o.isTrial else Trial(o))
  }

  // ---------------------------------------------------------------- the stored order

  lemma {:induction false} SavedInPlace(orders: seq<Order>, id: string, o: Order, approved: Order, now: int)
    returns (k: nat)
    requires First(orders, OrderWith(id)) == Some(o) && approved.id == o.id
    ensures k < |orders| && orders[k] == o && Save(orders, approved, now) == Ok(orders[k := approved.(updated := now)])
  {
    if orders[0].id == o.id {
      k := 0;
      FirstMeans(orders, OrderWith(id));
      assert [approved.(updated := now)] + orders[1..] == orders[0 := approved.(updated := now)];
    } else {
      k := SavedInPlace(orders[1..], id, o, approved, now);
      assert [orders[0]] + orders[1..][k := approved.(updated := now)] == orders[k + 1 := approved.(updated := now)];
      k := k + 1;
    }
  }

  // ---------------------------------------------------------------- the account

  lemma NewAccount(items: seq<Access>, o: Order, now: int, out: Outcome)
    requires Create(items, NewForm(o, now), now, out).Ok?
    ensures var change := Create(items, NewForm(o, now), now, out).value;
            change.items == items + [change.record] && IsNewAccount(change.record, o, now, out)
  {
    assert DAY == 86400;
    AccessRuns.CreateAppends(items, NewForm(o, now), now, out);
  }

  lemma ExtendedAccount(items: seq<Access>, k: nat, o: Order, now: int, out: Outcome)
    requires k < |items| && At(items, items[k].id) == k && items[k].project.Textile?
    requires Update(items, items[k].id, ExtendForm(items[k], o, now), now, out).Ok?
    ensures var change := Update(items, items[k].id, ExtendForm(items[k], o, now), now, out).value;
            change.items == items[k := change.record] && IsExtended(items[k], change.record, o, now)
  {
    AccessRuns.UpdateReplaces(items, items[k].id, ExtendForm(items[k], o, now), now, out);
    ExtendFormAdds(items[k], o, now);
  }

  lemma ExtendFormAdds(x: Access, o: Order, now: int)
    requires x.project.Textile?
    ensures var f := ExtendForm(x, o, now);
            && f.trialEnds == Later(x.trialEnds, TrialUntil(o, now)) && f.expires == Later(x.expires, PaidUntil(o, now))
            && f.notes.orders == x.notes.orders + o.notes.orders + {o.id}
  {
    assert DAY == 86400;
  }

  lemma RequesterAt(items: seq<Access>, o: Order) returns (k: nat)
    requires AccessRuns.IdsDistinct(items) && First(Listing(items), RequesterOf(o)).Some?
    ensures var x := First(Listing(items), RequesterOf(o)).value;
            k < |items| && items[k] == x && At(items, x.id) == k && x.id == o.requester && x.project.Textile?
  {
    FirstMeans(Listing(items), RequesterOf(o));
    var x := First(Listing(items), RequesterOf(o)).value;
    ListedAccounts(items, x);
    k :| 0 <= k < |items| && items[k] == x;
    IsAt(items, k);
  }

  lemma {:induction false} IsAt(items: seq<Access>, k: nat)
    requires AccessRuns.IdsDistinct(items) && k < |items|
    ensures At(items, items[k].id) == k
  {
    if k > 0 {
      assert items[0].id != items[k].id;
      IsAt(items[1..], k - 1);
    }
  }

  // ---------------------------------------------------------------- approvals

  lemma {:induction false} FirstIsAhead<A>(items: seq<A>, test: A -> bool) returns (k: nat)
    requires First(items, test).Some?
    ensures k < |items| && First(items, test) == Some(items[k]) && test(items[k])
    ensures forall j | 0 <= j < k :: !test(items[j])
  {
    if test(items[0]) {
      k := 0;
    } else {
      k := FirstIsAhead(items[1..], test);
      k := k + 1;
    }
  }

  lemma NewestIsFound(items: seq<Access>, o: Order)
    ensures FindAccess(items, o).None? <==> forall x | x in items :: !HasAccount(o, x)
    ensures FindAccess(items, o).Some? ==> IsNewestAccount(items, o, FindAccess(items, o).value)
  {
    FoundMeans(items, o);
    if FindAccess(items, o).Some? {
      var k := FirstIsAhead(Listing(items), ProvisionedFor(o));
      forall x | x in items && HasAccount(o, x)
        ensures AtLeastAsNew(Listing(items)[k], x)
      {
        NoneIsAhead(items, o, k, x);
      }
    }
  }

  lemma NoneIsAhead(items: seq<Access>, o: Order, k: nat, x: Access)
    requires k < |Listing(items)| && forall j | 0 <= j < k :: !ProvisionedFor(o)(Listing(items)[j])
    requires x in items && HasAccount(o, x)
    ensures AtLeastAsNew(Listing(items)[k], x)
  {
    var listed := Listing(items);
    ListedAccounts(items, x);
    var j :| 0 <= j < |listed| && listed[j] == x;
    assert ProvisionedFor(o)(listed[j]);
    ListedNewestFirst(items);
  }

  /** What an approval that goes through does to the accounts, and to which account it gives the order. */
  predicate GrantsTo(items: seq<Access>, after: seq<Access>, o: Order, now: int, out: Outcome, account: Access) {
    if exists x | x in items :: HasAccount(o, x) then after == items && IsNewestAccount(items, o, account)
    else if o.requester > 0 then
      exists k: nat | k < |items| ::
        && items[k].id == o.requester && items[k].project.Textile? && after == items[k := account]
        && IsExtended(items[k], account, o, now)
    else after == items + [account] && IsNewAccount(account, o, now, out)
  }

  lemma PlanGrants(items: seq<Access>, o: Order, now: int, out: Outcome) returns (account: Access)
    requires AccessRuns.IdsDistinct(items) && !PlanFor(items, o, now, out).Refused?
    ensures var plan := PlanFor(items, o, now, out);
            && GrantsTo(items, PlanItems(items, plan), o, now, out, account)
            && account == (if plan.Attached? then plan.account else plan.change.record)
            && (plan.Attached? <==> exists x | x in items :: HasAccount(o, x))
  {
    var plan := PlanFor(items, o, now, out);
    NewestIsFound(items, o);
    match plan
    case Attached(found) => account := found;
    case Extended(change) =>
      account := change.record;
      var k := RequesterAt(items, o);
      ExtendedAccount(items, k, o, now, out);
    case Created(change) =>
      account := change.record;
      NewAccount(items, o, now, out);
  }

  /**
   An approval that goes through: the order is stored approved for an account, its other fields as they were, and
   the account is the one already provisioned, or the requester's with the ordered time and modules added, or a new
   one with what the order says. A refused approval stores nothing; a rejected order is always refused, and any other
   one with a provisioned account never.
   */
  lemma ApprovalGrants(s: State, id: string, o: Order, note: string, now: int, out: Outcome)
    requires AccessRuns.IdsDistinct(s.items) && First(s.orders, OrderWith(id)) == Some(o)
    ensures var t, refused := Approve(s, id, note, now, out, false), PlanFor(s.items, o, now, out).Refused?;
            && (o.status.Rejected? ==> refused)
            && (refused ==> t == s && (o.status.Rejected? || !exists x :: x in s.items && HasAccount(o, x)))
            && (!refused ==> exists account: Access, k: nat | k < |s.orders| && |t.orders| == |s.orders| ::
                   && s.orders[k] == o && t.orders == s.orders[k := t.orders[k]]
                   && GrantsTo(s.items, t.items, o, now, out, account)
                   && IsApproved(s.items, o, t.orders[k], account, note, now))
  {
    var t, plan := Approve(s, id, note, now, out, false), PlanFor(s.items, o, now, out);
    if plan.Refused? { NewestIsFound(s.items, o); }
    if !plan.Refused? {
      var account := PlanGrants(s.items, o, now, out);
      var k := SavedInPlace(s.orders, id, o, ApprovedOrder(o, plan, note), now);
      assert t.orders[k] == ApprovedOrder(o, plan, note).(updated := now);
    }
  }

  /** The requester's account can be extended: it has a company, its name is its own, and it keeps or gets something. */
  predicate CanBeExtended(items: seq<Access>, x: Access, o: Order, now: int) {
    && x.companyId > 0 && x.username != "" && !Taken(items, x.project, x.username, x.id)
    && (x.role.Owner? || x.role.Customer? || x.role.Unset?)
    && (Trial(o) || x.trialEnds > now || SomeModule(x.modules) || SomeModule(o.modules))
  }

  /** All other services do their part. */
  predicate AllAnswer(out: Outcome) { out.company.Ok? && out.company.value > 0 && out.tenant.Ok? && out.synced }

  /** A new account can be made: something is ordered, and a free name and a password are found. */
  predicate CanBeCreated(items: seq<Access>, o: Order, out: Outcome) {
    && (Trial(o) || SomeModule(o.modules)) && |out.newPassword| >= 8
    && !Taken(items, Textile, FreeName(items, Textile, out.names, out.lastName, 0), 0)
  }

  /** When the services answer, an order that is not rejected and asks for something is not refused. */
  lemma ApprovalGoesThrough(items: seq<Access>, o: Order, now: int, out: Outcome)
    requires AccessRuns.IdsDistinct(items) && !o.status.Rejected? && now > 0 && AllAnswer(out)
    requires (exists x | x in items :: HasAccount(o, x)) ||
             if o.requester > 0 then exists k: nat | k < |items| ::
               items[k].id == o.requester && items[k].project.Textile? && CanBeExtended(items, items[k], o, now)
             else CanBeCreated(items, o, out)
    ensures !PlanFor(items, o, now, out).Refused?
  {
    NewestIsFound(items, o);
    if FindAccess(items, o).None? {
      if o.requester > 0 {
        var k: nat :| k < |items| && items[k].id == o.requester && items[k].project.Textile? &&
                      CanBeExtended(items, items[k], o, now);
        RequesterFound(items, o, k);
        ExtensionGoesThrough(items, o, k, now, out);
      } else {
        CreationGoesThrough(items, o, now, out);
      }
    }
  }

  lemma CreationGoesThrough(items: seq<Access>, o: Order, now: int, out: Outcome)
    requires now > 0 && AllAnswer(out) && CanBeCreated(items, o, out)
    ensures Create(items, NewForm(o, now), now, out).Ok?
  {
    assert DAY == 86400;
    CreateGoesThroughIff(items, NewForm(o, now), now, out);
  }

  lemma RequesterFound(items: seq<Access>, o: Order, k: nat)
    requires AccessRuns.IdsDistinct(items) && k < |items|
    requires items[k].id == o.requester && items[k].project.Textile?
    ensures First(Listing(items), RequesterOf(o)) == Some(items[k])
  {
    FirstMeans(Listing(items), RequesterOf(o));
    ListedAccounts(items, items[k]);
    var found := RequesterAt(items, o);
  }

  lemma ExtensionGoesThrough(items: seq<Access>, o: Order, k: nat, now: int, out: Outcome)
    requires AccessRuns.IdsDistinct(items) && k < |items| && now > 0 && AllAnswer(out)
    requires items[k].project.Textile? && CanBeExtended(items, items[k], o, now)
    ensures Update(items, items[k].id, ExtendForm(items[k], o, now), now, out).Ok?
  {
    assert Stands(items, items[k].id, k);
    ExtendFormAdds(items[k], o, now);
    UpdateGoesThroughIff(items, items[k].id, k, ExtendForm(items[k], o, now), now, out);
  }

  // ---------------------------------------------------------------- submissions and rejections

  predicate OfOneCustomer(x: Order, y: Order) {
    && SameLetters(x.company, y.company) && x.mobile == y.mobile
    && (x.email == "" || y.email == "" || SameLetters(x.email, y.email))
  }

  /** Handed in less than ten minutes ago, not yet decided, and the same order. */
  predicate JustSubmitted(x: Order, order: Order, now: int) {
    && x.status.Pending? && now - x.created <= 10 * 60
    && SameLetters(x.company, order.company) && x.mobile == order.mobile && x.modules == order.modules
    && x.size == order.size && x.isTrial == order.isTrial
  }

  /** The first approved order of the customer with an account. */
  predicate FirstKnown(orders: seq<Order>, order: Order, k: nat) {
    && k < |orders| && orders[k].status.Approved? && orders[k].accessId > 0 && OfOneCustomer(orders[k], order)
    && forall j | 0 <= j < k ::
         !(orders[j].status.Approved? && orders[j].accessId > 0 && OfOneCustomer(orders[j], order))
  }

  lemma KnownMeans(x: Order, order: Order, now: int)
    ensures Known(x, order) <==> x.status.Approved? && x.accessId > 0 && OfOneCustomer(x, order)
    ensures Repeats(x, order, now) <==> JustSubmitted(x, order, now)
  {
    FoldMeans(x.company, order.company);
    FoldMeans(x.email, order.email);
  }

  lemma {:induction false} FirstKnownIs(orders: seq<Order>, order: Order)
    ensures forall k: nat | FirstKnown(orders, order, k) :: First(orders, KnownTo(order)) == Some(orders[k])
    ensures First(orders, KnownTo(order)).Some? ==> exists k: nat :: FirstKnown(orders, order, k)
  {
    if orders != [] {
      FirstKnownIs(orders[1..], order);
      KnownMeans(orders[0], order, 0);
      if KnownTo(order)(orders[0]) {
        assert FirstKnown(orders, order, 0);
      } else if First(orders, KnownTo(order)).Some? {
        var k: nat :| FirstKnown(orders[1..], order, k);
        assert FirstKnown(orders, order, k + 1);
      }
      forall k: nat | FirstKnown(orders, order, k) ensures First(orders, KnownTo(order)) == Some(orders[k]) {
        if k > 0 {
          assert FirstKnown(orders[1..], order, k - 1);
        }
      }
    }
  }

  /**
   A submission gives back an order handed in just before and stores nothing; otherwise it stores the order, for the
   account it names or else for the one of the customer's first approved order, whose company it takes over if it
   names none.
   */
  lemma SubmitMeans(orders: seq<Order>, order: Order, now: int)
    ensures var s := Submit(orders, order, now);
            if exists x :: x in orders && JustSubmitted(x, order, now)
            then s.orders == orders && s.order in orders && JustSubmitted(s.order, order, now)
            else
              && s.orders == orders + [s.order]
              && if order.requester == 0 && exists k: nat :: FirstKnown(orders, order, k)
                 then exists k: nat | FirstKnown(orders, order, k) ::
                        s.order == order.(
                          requester := orders[k].accessId,
                          companyId := if order.companyId == 0 then orders[k].companyId else order.companyId)
                 else s.order == order
  {
    forall x ensures Repeats(x, order, now) <==> JustSubmitted(x, order, now) { KnownMeans(x, order, now); }
    FirstMeans(orders, RepeatedBy(order, now));
    FirstKnownIs(orders, order);
  }

  /** A rejection goes through exactly for an order that is neither approved nor has an account, and only marks it. */
  lemma RejectMeans(s: State, id: string, o: Order, note: string, now: int)
    requires First(s.orders, OrderWith(id)) == Some(o)
    ensures var r := Reject(s, id, note, now);
            && (r.Ok? <==> !o.status.Approved? && o.accessId <= 0)
            && (r.Ok? ==> r.value.items == s.items && exists k: nat | k < |s.orders| && s.orders[k] == o ::
                  r.value.orders == s.orders[k := o.(status := Rejected, adminNote := note, updated := now)])
  {
    var k := SavedInPlace(s.orders, id, o, o.(status := Rejected, adminNote := note), now);
  }

  /** Ids of orders are looked up without regard to case, and the first one counts. */
  lemma {:induction false} OrderIsFirst(orders: seq<Order>, id: string, k: nat)
    requires k < |orders| && SameLetters(orders[k].id, id) && forall j | 0 <= j < k :: !SameLetters(orders[j].id, id)
    ensures First(orders, OrderWith(id)) == Some(orders[k])
  {
    FoldMeans(orders[0].id, id);
    if k > 0 {
      assert forall j | 0 <= j < k :: orders[1..][j] == orders[j + 1];
      OrderIsFirst(orders[1..], id, k - 1);
    }
  }
}
