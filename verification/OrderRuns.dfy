/**
 Runs of the order handlers beside changes of the access table, with approvals that may die halfway
 (portal_server/orders.go:142-254, 296-325, 341-486; portal_server/main.go:4773-4781).

 `made` and `used` are history: which order an account was created for, and every account id so far.
 */
module OrderRuns {
  import opened Common
  import opened Lists
  import opened AccessStore
  import AccessRuns
  import opened PurchaseOrders

  datatype World = World(items: seq<Access>, orders: seq<Order>, made: map<int, string>, used: set<int>)

  datatype Step =
    | DoSubmit(order: Order, now: int)
    | DoApprove(id: string, note: string, now: int, out: Outcome, dies: bool)
    | DoReject(id: string, note: string, now: int)
    | DoAdmin(items: seq<Access>)

  predicate Live(items: seq<Access>, id: int) {
    exists x | x in items :: x.id == id
  }

  /** An account created by a step, if any. */
  function NewAccount(w: World, step: Step): Option<(int, string)> {
    match step
    case DoApprove(id, _, now, out, _) =>
      (match First(w.orders, OrderWith(id))
       case None => None
       case Some(o) =>
         var plan := PlanFor(w.items, o, now, out);
         if plan.Created? then Some((plan.change.record.id, o.id)) else None)
    case _ => None
  }

  function Ids(items: seq<Access>): set<int> { set x | x in items :: x.id }

  function Next(w: World, step: Step): World {
    match step
    case DoSubmit(order, now) => w.(orders := Submit(w.orders, order, now).orders)
    case DoApprove(id, note, now, out, dies) =>
      var s, created := Approve(State(w.items, w.orders), id, note, now, out, dies), NewAccount(w, step);
      var made := if created.Some? then w.made[created.value.0 := created.value.1] else w.made;
      World(s.items, s.orders, made, w.used + Ids(s.items))
    case DoReject(id, note, now) =>
      var r := Reject(State(w.items, w.orders), id, note, now);
      if r.Ok? then w.(orders := r.value.orders) else w
    case DoAdmin(items) => w.(items := items, used := w.used + Ids(items))
  }

  // ---------------------------------------------------------------- what steps must respect

  /** The store hands out an id that no account, live or deleted, has had. */
  predicate NoReuse(w: World) { MaxId(w.items) + 1 !in w.used }

  /** The order's account is on record: a marker elsewhere is no longer needed. */
  predicate NamesAccount(orders: seq<Order>, o: string, id: int) {
    exists x | x in orders :: x.id == o && x.accessId == id
  }

  /**
   A change of the access table that brings in only new ids, puts no order marker into a note, and takes
   one out only where the order already names the account.
   */
  predicate SafeAdmin(w: World, items: seq<Access>) {
    && AccessRuns.Inv(items)
    && (forall y | y in items && y.id in w.used :: Live(w.items, y.id))
    && (forall y | y in items && !Live(w.items, y.id) :: y.notes.orders == {})
    && (forall x, y | x in w.items && y in items && x.id == y.id ::
          && y.notes.orders <= x.notes.orders
          && forall o | o in x.notes.orders - y.notes.orders :: NamesAccount(w.orders, o, x.id))
  }

  predicate FreshOrder(w: World, order: Order) {
    && (forall x | x in w.orders :: Fold(x.id) != Fold(order.id))
    && (forall a | a in w.items :: order.id !in a.notes.orders)
    && (forall id | id in w.made :: w.made[id] != order.id)
    && order.status.Pending? && order.accessId == 0 && order.requester >= 0
    && order.notes.orders == {}
  }

  predicate Enabled(w: World, step: Step) {
    match step
    case DoSubmit(order, _) => FreshOrder(w, order)
    case DoApprove(_, _, _, _, _) => NewAccount(w, step).Some? ==> NoReuse(w)
    case DoReject(_, _, _) => true
    case DoAdmin(items) => SafeAdmin(w, items)
  }

  // ---------------------------------------------------------------- the invariant

  function OrderKey(): Order -> string { (o: Order) => Fold(o.id) }

  /** Approved means there is an account id; no note of a customer quotes a marker. */
  predicate OrderSound(o: Order) {
    o.accessId >= 0 && (o.status.Approved? <==> o.accessId > 0) && o.notes.orders == {}
  }

  /** A marker stands on one account at most, and on the account the order names while that one lives. */
  predicate MarkersAgree(items: seq<Access>, o: Order) {
    && (forall x, y | x in items && y in items && o.id in x.notes.orders && o.id in y.notes.orders :: x.id == y.id)
    && (forall x, y | x in items && y in items && o.id in x.notes.orders && y.id == o.accessId :: x.id == y.id)
  }

  /** Every live account created for the order can be found again: by its marker or by the order. */
  predicate Traceable(w: World, o: Order) {
    forall x | x in w.items && x.id in w.made && w.made[x.id] == o.id :: o.id in x.notes.orders || o.accessId == x.id
  }

  /** A marker stands on the requester's account, or on the account created for an order without a requester. */
  predicate Originates(w: World, o: Order) {
    && (forall x | x in w.items && o.id in x.notes.orders ::
          if o.requester > 0 then x.id == o.requester else x.id in w.made && w.made[x.id] == o.id)
    && (o.requester > 0 ==> forall id | id in w.made :: w.made[id] != o.id)
  }

  predicate Remembered(w: World) {
    && (forall x | x in w.items :: x.id in w.used)
    && w.made.Keys <= w.used
    && (forall o | o in w.orders && o.accessId > 0 :: o.accessId in w.used)
  }

  predicate OrderInv(w: World, o: Order) {
    OrderSound(o) && MarkersAgree(w.items, o) && Traceable(w, o) && Originates(w, o)
  }

  predicate Inv(w: World) {
    && AccessRuns.Inv(w.items)
    && DistinctBy(w.orders, OrderKey())
    && Remembered(w)
    && forall o | o in w.orders :: OrderInv(w, o)
  }

  /** At any moment an order has at most one live account created for it. */
  lemma AtMostOneAccount(w: World, o: Order, x: Access, y: Access)
    requires Inv(w) && o in w.orders && x in w.items && y in w.items
    requires x.id in w.made && y.id in w.made && w.made[x.id] == w.made[y.id] == o.id
    ensures x == y
  {
    assert OrderInv(w, o) && MarkersAgree(w.items, o) && Traceable(w, o);
    assert x.id == y.id;
    SameId(w.items, x, y);
  }

  lemma SameId(items: seq<Access>, x: Access, y: Access)
    requires AccessRuns.IdsDistinct(items) && x in items && y in items && x.id == y.id
    ensures x == y
  {
    var i :| 0 <= i < |items| && items[i] == x;
    var j :| 0 <= j < |items| && items[j] == y;
  }

  // ---------------------------------------------------------------- saving an order

  lemma {:induction false} SavedMembers(orders: seq<Order>, order: Order, now: int, x: Order)
    requires DistinctBy(orders, OrderKey()) && exists o | o in orders :: o.id == order.id
    ensures Save(orders, order, now).Ok?
    ensures x in Save(orders, order, now).value
       <==> x == order.(updated := now) || (x in orders && x.id != order.id)
    ensures DistinctBy(Save(orders, order, now).value, OrderKey())
  {
    var k := IndexOfOrder(orders, order.id);
    SavedAt(orders, order, now, k);
    var saved := orders[k := order.(updated := now)];
    if x in saved {
      var i :| 0 <= i < |saved| && saved[i] == x;
      if i != k { assert OrderKey()(orders[i]) != OrderKey()(orders[k]); }
    }
    if x in orders && x.id != order.id {
      var i :| 0 <= i < |orders| && orders[i] == x;
      assert saved[i] == x;
    }
    assert saved[k] == order.(updated := now);
    assert forall i | 0 <= i < |orders| :: OrderKey()(saved[i]) == OrderKey()(orders[i]);
  }

  lemma {:induction false} IndexOfOrder(orders: seq<Order>, id: string) returns (k: nat)
    requires exists o | o in orders :: o.id == id
    ensures k < |orders| && orders[k].id == id && forall j | 0 <= j < k :: orders[j].id != id
  {
    if orders[0].id == id {
      k := 0;
    } else {
      assert orders == [orders[0]] + orders[1..];
      k := IndexOfOrder(orders[1..], id);
      k := k + 1;
    }
  }

  // ---------------------------------------------------------------- approving

  function MarkersOf(items: seq<Access>, id: int): set<string> {
    set x, m | x in items && x.id == id && m in x.notes.orders :: m
  }

  /** Record r joins the table, or takes the place of the one with its id, and carries one marker more. */
  ghost predicate Put(items: seq<Access>, after: seq<Access>, r: Access, o: string) {
    && AccessRuns.Inv(after)
    && (forall y :: y in after <==> y == r || (y in items && y.id != r.id))
    && r.notes.orders == {o} + MarkersOf(items, r.id)
  }

  lemma ExtendPuts(items: seq<Access>, x: Access, o: Order, now: int, out: Outcome)
    requires AccessRuns.Inv(items) && x in items && o.notes.orders == {}
    requires Update(items, x.id, ExtendForm(x, o, now), now, out).Ok?
    ensures var change := Update(items, x.id, ExtendForm(x, o, now), now, out).value;
            change.record.id == x.id && Put(items, change.items, change.record, o.id)
  {
    var change := Update(items, x.id, ExtendForm(x, o, now), now, out).value;
    AccessRuns.UpdateKeepsInv(items, x.id, ExtendForm(x, o, now), now, out);
    var k := At(items, x.id);
    assert change.items == items[k := change.record] && change.items[k] == change.record;
    forall y ensures y in change.items <==> y == change.record || (y in items && y.id != x.id) {
      if y.id != x.id {
        AccessRuns.ReplacedOthersStay(items, k, change.record, y);
      } else if y in change.items {
        SameId(change.items, y, change.record);
      }
    }
    forall y | y in items && y.id == x.id ensures y == x { SameId(items, x, y); }
    assert MarkersOf(items, x.id) == x.notes.orders;
  }

  lemma AppendPuts(items: seq<Access>, r: Access, o: string)
    requires AccessRuns.Inv(items + [r]) && r.id == MaxId(items) + 1 && r.notes.orders == {o}
    ensures Put(items, items + [r], r, o)
  {
    var after := items + [r];
    assert r in after && forall y | y in items :: y in after;
    assert forall y | y in items :: y.id <= MaxId(items);
    assert MarkersOf(items, r.id) == {};
  }

  lemma CreatePuts(items: seq<Access>, o: Order, now: int, out: Outcome)
    requires AccessRuns.Inv(items) && o.notes.orders == {}
    requires Create(items, NewForm(o, now), now, out).Ok?
    ensures var change := Create(items, NewForm(o, now), now, out).value;
            change.record.id == MaxId(items) + 1 && Put(items, change.items, change.record, o.id)
  {
    AccessRuns.CreateKeepsInv(items, NewForm(o, now), now, out);
    AccessRuns.CreateAppends(items, NewForm(o, now), now, out);
    AppendedPuts(items, Create(items, NewForm(o, now), now, out).value, o.id);
  }

  lemma AppendedPuts(items: seq<Access>, change: Change, o: string)
    requires change.items == items + [change.record] && AccessRuns.Inv(change.items)
    requires change.record.id == MaxId(items) + 1 && change.record.notes.orders == {o}
    ensures Put(items, change.items, change.record, o)
  {
    AppendPuts(items, change.record, o);
  }

  /** An order other than the approved one keeps its markers in agreement. */
  lemma PutKeepsOthers(items: seq<Access>, after: seq<Access>, r: Access, o: string, p: Order)
    requires Put(items, after, r, o) && p.id != o && MarkersAgree(items, p)
    requires Live(items, r.id) || p.accessId != r.id
    ensures MarkersAgree(after, p)
  {
    forall x | x in after && p.id in x.notes.orders
      ensures exists x0 | x0 in items :: x0.id == x.id && p.id in x0.notes.orders
    {
      if x == r { assert p.id in MarkersOf(items, r.id); } else { assert x in items; }
    }
    forall y | y in after && y.id == p.accessId ensures exists y0 | y0 in items :: y0.id == y.id {
      if y != r { assert y in items; }
    }
  }

  /** The approved order's marker stands on the record alone, with or without the order naming it. */
  lemma PutMarksOwn(items: seq<Access>, after: seq<Access>, r: Access, o: Order, named: int)
    requires Put(items, after, r, o.id) && (named == r.id || named == o.accessId)
    requires forall x | x in items :: !Provisioned(o, x)
    requires forall x | x in items :: x.id > 0
    ensures MarkersAgree(after, o.(accessId := named))
  {
    forall x | x in after && o.id in x.notes.orders ensures x == r {
    }
    forall y | y in after && y.id == named ensures y.id == r.id {
    }
  }

  // ---------------------------------------------------------------- steps keep the invariant

  lemma OneOrderPerId(orders: seq<Order>, x: Order, y: Order)
    requires DistinctBy(orders, OrderKey()) && x in orders && y in orders && x.id == y.id
    ensures x == y
  {
    DistinctAgree(orders, OrderKey(), x, y);
  }

  lemma NewOrderInv(w: World, order: Order)
    requires Inv(w) && FreshOrder(w, order)
    ensures OrderInv(w, Inherited(w.orders, order))
  {
    FirstMeans(w.orders, KnownTo(order));
    forall x | x in w.items ensures x.id > 0 { NoZeroId(w.items, x); }
  }

  lemma SubmitKeepsInv(w: World, order: Order, now: int)
    requires Inv(w) && FreshOrder(w, order)
    ensures Inv(Next(w, DoSubmit(order, now)))
  {
    var g := Next(w, DoSubmit(order, now));
    if g.orders != w.orders {
      var added := Inherited(w.orders, order);
      NewOrderInv(w, order);
      assert g.orders == w.orders + [added] && added.accessId == 0;
      DistinctConcat(w.orders, [added], OrderKey());
      forall o | o in g.orders ensures OrderInv(g, o) {
        OrderInvStays(w, g, if o in w.orders then o else added);
      }
    }
  }

  lemma OrderInvStays(w: World, g: World, o: Order)
    requires OrderInv(w, o) && g.items == w.items && g.made == w.made
    ensures OrderInv(g, o)
  {
  }

  lemma RejectKeepsInv(w: World, id: string, note: string, now: int)
    requires Inv(w)
    ensures Inv(Next(w, DoReject(id, note, now)))
  {
    var g := Next(w, DoReject(id, note, now));
    FirstMeans(w.orders, OrderWith(id));
    if g.orders != w.orders {
      var o := First(w.orders, OrderWith(id)).value;
      var rejected := o.(status := Rejected, adminNote := note);
      assert OrderInv(w, o);
      forall p ensures p in g.orders <==> p == rejected.(updated := now) || (p in w.orders && p.id != o.id) {
        SavedMembers(w.orders, rejected, now, p);
      }
      SavedMembers(w.orders, rejected, now, o);
      forall p | p in g.orders ensures OrderInv(g, p) {
        if p.id != o.id { assert OrderInv(w, p); } else { assert Traceable(w, o); }
      }
    }
  }

  lemma AdminKeepsInv(w: World, items: seq<Access>)
    requires Inv(w) && SafeAdmin(w, items)
    ensures Inv(Next(w, DoAdmin(items)))
  {
    var g := Next(w, DoAdmin(items));
    forall o | o in w.orders ensures OrderInv(g, o) {
      assert OrderInv(w, o);
      forall y | y in items && o.id in y.notes.orders
        ensures exists x | x in w.items :: x.id == y.id && o.id in x.notes.orders
      {
        assert Live(w.items, y.id);
      }
      forall y | y in items && y.id == o.accessId ensures exists x | x in w.items :: x.id == y.id {
        if o.accessId > 0 { assert Live(w.items, y.id); } else { assert AccessRuns.Inv(items); NoZeroId(items, y); }
      }
      assert MarkersAgree(items, o);
      forall y | y in items && y.id in w.made && w.made[y.id] == o.id
        ensures o.id in y.notes.orders || o.accessId == y.id
      {
        assert Live(w.items, y.id);
        var x :| x in w.items && x.id == y.id;
        if o.id in x.notes.orders && o.id !in y.notes.orders {
          assert o.id in x.notes.orders - y.notes.orders;
          var p :| p in w.orders && p.id == o.id && p.accessId == x.id;
          OneOrderPerId(w.orders, o, p);
        }
      }
    }
  }

  lemma NoZeroId(items: seq<Access>, x: Access)
    requires AccessRuns.Inv(items) && x in items
    ensures x.id > 0
  {
    var i :| 0 <= i < |items| && items[i] == x;
    assert AccessRuns.Sound(items[i]);
  }

  lemma RememberMore(w: World, used: set<int>)
    requires Inv(w)
    ensures Inv(w.(used := w.used + used))
  {
    var g := w.(used := w.used + used);
    forall o | o in g.orders ensures OrderInv(g, o) { assert OrderInv(w, o); }
  }

  /** Saving the order with the live account that alone carries its marker. */
  lemma SaveKeepsInv(w: World, o: Order, approved: Order, now: int, a: Access)
    requires Inv(w) && o in w.orders && a in w.items
    requires approved.id == o.id && approved.requester == o.requester && approved.status.Approved?
    requires approved.accessId == a.id && approved.notes == o.notes
    requires forall x | x in w.items && o.id in x.notes.orders :: x.id == a.id
    requires o.accessId == a.id || !Live(w.items, o.accessId)
    ensures Save(w.orders, approved, now).Ok?
    ensures Inv(w.(orders := Save(w.orders, approved, now).value))
  {
    SavedMembers(w.orders, approved, now, o);
    var g := w.(orders := Save(w.orders, approved, now).value);
    forall p ensures p in g.orders <==> p == approved.(updated := now) || (p in w.orders && p.id != o.id) {
      SavedMembers(w.orders, approved, now, p);
    }
    NoZeroId(w.items, a);
    assert OrderInv(w, o);
    forall p | p in g.orders ensures OrderInv(g, p) {
      if p.id != o.id {
        assert OrderInv(w, p);
      } else {
        forall x | x in g.items && x.id in g.made && g.made[x.id] == p.id
          ensures o.id in x.notes.orders || p.accessId == x.id
        {
          assert Traceable(w, o) && (x.id == o.accessId ==> Live(w.items, o.accessId));
        }
      }
    }
  }

  /** The table with the marker, before the order is saved. */
  lemma PutKeepsInv(w: World, o: Order, after: seq<Access>, r: Access, made: map<int, string>)
    requires Inv(w) && o in w.orders && Put(w.items, after, r, o.id)
    requires forall x | x in w.items :: !Provisioned(o, x)
    requires (Live(w.items, r.id) && made == w.made && r.id == o.requester > 0)
          || (r.id !in w.used && made == w.made[r.id := o.id] && o.requester <= 0)
    ensures Inv(World(after, w.orders, made, w.used + Ids(after)))
  {
    var g := World(after, w.orders, made, w.used + Ids(after));
    assert r in after;
    NoZeroId(after, r);
    forall p | p in w.orders ensures OrderInv(g, p) {
      assert OrderInv(w, p);
      PutAgrees(w, o, after, r, p);
      PutTraceable(w, o, after, r, made, p);
      PutOriginates(w, o, after, r, made, p);
    }
    assert r.id in Ids(after);
    forall x | x in after ensures x.id in g.used { assert x.id in Ids(after); }
  }

  lemma PutAgrees(w: World, o: Order, after: seq<Access>, r: Access, p: Order)
    requires Inv(w) && o in w.orders && p in w.orders && Put(w.items, after, r, o.id) && r.id > 0
    requires forall x | x in w.items :: !Provisioned(o, x)
    requires Live(w.items, r.id) || r.id !in w.used
    ensures MarkersAgree(after, p)
  {
    assert OrderInv(w, p);
    if p.id == o.id {
      OneOrderPerId(w.orders, o, p);
      forall x | x in w.items ensures x.id > 0 { NoZeroId(w.items, x); }
      PutMarksOwn(w.items, after, r, o, o.accessId);
    } else {
      PutKeepsOthers(w.items, after, r, o.id, p);
    }
  }

  lemma PutTraceable(w: World, o: Order, after: seq<Access>, r: Access, made: map<int, string>, p: Order)
    requires Inv(w) && o in w.orders && p in w.orders && Put(w.items, after, r, o.id)
    requires (Live(w.items, r.id) && made == w.made) || (r.id !in w.used && made == w.made[r.id := o.id])
    ensures Traceable(World(after, w.orders, made, w.used + Ids(after)), p)
  {
    assert OrderInv(w, p) && Traceable(w, p);
    forall x | x in after && x.id in made && made[x.id] == p.id ensures p.id in x.notes.orders || p.accessId == x.id {
      if x != r {
        assert x in w.items;
      } else if made == w.made && Live(w.items, r.id) {
        var x0 :| x0 in w.items && x0.id == r.id;
        if p.id in x0.notes.orders { assert p.id in MarkersOf(w.items, r.id); }
      }
    }
  }

  lemma PutOriginates(w: World, o: Order, after: seq<Access>, r: Access, made: map<int, string>, p: Order)
    requires Inv(w) && o in w.orders && p in w.orders && Put(w.items, after, r, o.id)
    requires (Live(w.items, r.id) && made == w.made && r.id == o.requester > 0)
          || (r.id !in w.used && made == w.made[r.id := o.id] && o.requester <= 0)
    ensures Originates(World(after, w.orders, made, w.used + Ids(after)), p)
  {
    assert OrderInv(w, p) && Originates(w, p);
    if p.id == o.id { OneOrderPerId(w.orders, o, p); }
    forall x | x in after && p.id in x.notes.orders
      ensures if p.requester > 0 then x.id == p.requester else x.id in made && made[x.id] == p.id
    {
      if x != r {
        assert x in w.items && x.id in w.used;
      } else if p.id != o.id {
        assert p.id in MarkersOf(w.items, r.id);
        assert Live(w.items, r.id);
      }
    }
  }

  lemma NothingFound(items: seq<Access>, o: Order)
    requires AccessRuns.Inv(items) && FindAccess(items, o).None?
    ensures forall x | x in items :: !Provisioned(o, x)
    ensures !Live(items, o.accessId)
  {
    FoundMeans(items, o);
    forall x | x in items ensures x.id != o.accessId {
      NoZeroId(items, x);
      assert !Provisioned(o, x);
    }
  }

  /** What an approval relies on when it changes the table: nothing was found, and one record is put. */
  ghost predicate Justified(w: World, o: Order, plan: Plan) {
    plan.Extended? || plan.Created? ==>
      && Put(w.items, plan.change.items, plan.change.record, o.id)
      && (if plan.Extended? then Live(w.items, plan.change.record.id) && plan.change.record.id == o.requester > 0
          else plan.change.record.id !in w.used && o.requester <= 0)
      && !Live(w.items, o.accessId)
      && forall x | x in w.items :: !Provisioned(o, x)
  }

  lemma ExtendIsJustified(w: World, o: Order, x: Access, now: int, out: Outcome)
    requires AccessRuns.Inv(w.items) && o.notes.orders == {} && x in w.items && FindAccess(w.items, o).None?
    requires x.id == o.requester > 0
    requires Update(w.items, x.id, ExtendForm(x, o, now), now, out).Ok?
    ensures Justified(w, o, Extended(Update(w.items, x.id, ExtendForm(x, o, now), now, out).value))
  {
    ExtendPuts(w.items, x, o, now, out);
    NothingFound(w.items, o);
  }

  lemma CreateIsJustified(w: World, o: Order, now: int, out: Outcome)
    requires AccessRuns.Inv(w.items) && o.notes.orders == {} && FindAccess(w.items, o).None? && NoReuse(w)
    requires o.requester <= 0
    requires Create(w.items, NewForm(o, now), now, out).Ok?
    ensures Justified(w, o, Created(Create(w.items, NewForm(o, now), now, out).value))
  {
    CreatePuts(w.items, o, now, out);
    NothingFound(w.items, o);
  }

  lemma PlanIsJustified(w: World, o: Order, now: int, out: Outcome)
    requires AccessRuns.Inv(w.items) && o.notes.orders == {}
    requires PlanFor(w.items, o, now, out).Created? ==> NoReuse(w)
    ensures Justified(w, o, PlanFor(w.items, o, now, out))
  {
    match PlanFor(w.items, o, now, out)
    case Extended(_) =>
      var found := First(Listing(w.items), RequesterOf(o));
      FirstMeans(Listing(w.items), RequesterOf(o));
      ListedAccounts(w.items, found.value);
      ExtendIsJustified(w, o, found.value, now, out);
    case Created(_) => CreateIsJustified(w, o, now, out);
    case _ =>
  }

  /** The world in which an approval has died after its change of the table. */
  function Died(w: World, o: Order, plan: Plan): World {
    var made := if plan.Created? then w.made[plan.change.record.id := o.id] else w.made;
    World(PlanItems(w.items, plan), w.orders, made, w.used + Ids(PlanItems(w.items, plan)))
  }

  lemma DiedKeepsInv(w: World, o: Order, plan: Plan)
    requires Inv(w) && o in w.orders && Justified(w, o, plan)
    ensures Inv(Died(w, o, plan))
  {
    if plan.Extended? || plan.Created? {
      PutKeepsInv(w, o, plan.change.items, plan.change.record, Died(w, o, plan).made);
    } else {
      RememberMore(w, Ids(w.items));
    }
  }

  lemma PutAlone(items: seq<Access>, after: seq<Access>, r: Access, o: Order)
    requires Put(items, after, r, o.id) && !Live(items, o.accessId)
    requires forall x | x in items :: !Provisioned(o, x)
    ensures forall x | x in after && o.id in x.notes.orders :: x.id == r.id
    ensures r in after && (o.accessId == r.id || !Live(after, o.accessId))
  {
  }

  lemma AttachedAccount(w: World, o: Order)
    requires Inv(w) && o in w.orders && FindAccess(w.items, o).Some?
    ensures var a := FindAccess(w.items, o).value;
            && a in w.items && (forall x | x in w.items && o.id in x.notes.orders :: x.id == a.id)
            && (o.accessId == a.id || !Live(w.items, o.accessId))
  {
    assert OrderInv(w, o) && MarkersAgree(w.items, o);
    FoundMeans(w.items, o);
  }

  lemma ApprovedKeepsInv(w: World, o: Order, plan: Plan, note: string, now: int)
    requires Inv(w) && o in w.orders && !plan.Refused? && Justified(w, o, plan)
    requires plan.Attached? ==> FindAccess(w.items, o) == Some(plan.account)
    ensures var saved := Save(w.orders, ApprovedOrder(o, plan, note), now);
            saved.Ok? && Inv(Died(w, o, plan).(orders := saved.value))
  {
    DiedKeepsInv(w, o, plan);
    if plan.Attached? {
      AttachedAccount(w, o);
      SaveKeepsInv(Died(w, o, plan), o, ApprovedOrder(o, plan, note), now, plan.account);
    } else {
      PutAlone(w.items, plan.change.items, plan.change.record, o);
      SaveKeepsInv(Died(w, o, plan), o, ApprovedOrder(o, plan, note), now, plan.change.record);
    }
  }

  /** One approval is its death, or its death followed by saving the order. */
  lemma ApproveIs(w: World, o: Order, note: string, now: int, out: Outcome, dies: bool, id: string)
    requires First(w.orders, OrderWith(id)) == Some(o)
    ensures var plan := PlanFor(w.items, o, now, out);
            var saved := if plan.Refused? then Err(plan.error) else Save(w.orders, ApprovedOrder(o, plan, note), now);
            Next(w, DoApprove(id, note, now, out, dies))
              == if dies || saved.Err? then Died(w, o, plan) else Died(w, o, plan).(orders := saved.value)
  {
  }

  lemma ApproveKeepsInv(w: World, id: string, note: string, now: int, out: Outcome, dies: bool)
    requires Inv(w) && Enabled(w, DoApprove(id, note, now, out, dies))
    ensures Inv(Next(w, DoApprove(id, note, now, out, dies)))
  {
    FirstMeans(w.orders, OrderWith(id));
    match First(w.orders, OrderWith(id))
    case None => RememberMore(w, Ids(w.items));
    case Some(o) =>
      JustifiedPlanKeepsInv(w, o, note, now, out);
      ApproveIs(w, o, note, now, out, dies, id);
  }

  lemma JustifiedPlanKeepsInv(w: World, o: Order, note: string, now: int, out: Outcome)
    requires Inv(w) && o in w.orders && (PlanFor(w.items, o, now, out).Created? ==> NoReuse(w))
    ensures var plan := PlanFor(w.items, o, now, out);
            && Inv(Died(w, o, plan))
            && (!plan.Refused? ==>
                  var saved := Save(w.orders, ApprovedOrder(o, plan, note), now);
                  saved.Ok? && Inv(Died(w, o, plan).(orders := saved.value)))
  {
    assert OrderInv(w, o);
    PlanIsJustified(w, o, now, out);
    PlanKeepsInv(w, o, PlanFor(w.items, o, now, out), note, now);
  }

  lemma PlanKeepsInv(w: World, o: Order, plan: Plan, note: string, now: int)
    requires Inv(w) && o in w.orders && Justified(w, o, plan)
    requires plan.Attached? ==> FindAccess(w.items, o) == Some(plan.account)
    ensures Inv(Died(w, o, plan))
    ensures !plan.Refused? ==>
              var saved := Save(w.orders, ApprovedOrder(o, plan, note), now);
              saved.Ok? && Inv(Died(w, o, plan).(orders := saved.value))
  {
    DiedKeepsInv(w, o, plan);
    if !plan.Refused? { ApprovedKeepsInv(w, o, plan, note, now); }
  }

  lemma StepKeepsInv(w: World, step: Step)
    requires Inv(w) && Enabled(w, step)
    ensures Inv(Next(w, step))
  {
    match step
    case DoSubmit(order, now) => SubmitKeepsInv(w, order, now);
    case DoApprove(id, note, now, out, dies) => ApproveKeepsInv(w, id, note, now, out, dies);
    case DoReject(id, note, now) => RejectKeepsInv(w, id, note, now);
    case DoAdmin(items) => AdminKeepsInv(w, items);
  }

  predicate IsRun(worlds: seq<World>, steps: seq<Step>) {
    |worlds| == |steps| + 1
    && forall i | 0 <= i < |steps| :: Enabled(worlds[i], steps[i]) && worlds[i + 1] == Next(worlds[i], steps[i])
  }

  lemma {:induction false} RunKeepsInv(worlds: seq<World>, steps: seq<Step>, n: nat)
    requires IsRun(worlds, steps) && n <= |steps| && Inv(worlds[0])
    ensures Inv(worlds[n])
  {
    if n > 0 {
      RunKeepsInv(worlds, steps, n - 1);
      StepKeepsInv(worlds[n - 1], steps[n - 1]);
    }
  }

  // ---------------------------------------------------------------- final states

  /** The order an order has become. */
  predicate Became(orders: seq<Order>, o: Order, status: Status) {
    exists x | x in orders :: x.id == o.id && x.status == status && (x.accessId > 0 <==> status.Approved?)
  }

  lemma SaveKeepsStatus(orders: seq<Order>, o: Order, saved: Order, now: int, p: Order)
    requires DistinctBy(orders, OrderKey()) && o in orders && p in orders && saved.id == o.id
    requires OrderSound(p) && (p.id == o.id ==> saved.status == p.status)
    requires saved.status.Approved? <==> saved.accessId > 0
    ensures Save(orders, saved, now).Ok? && Became(Save(orders, saved, now).value, p, p.status)
  {
    SavedMembers(orders, saved, now, p);
    SavedMembers(orders, saved, now, saved.(updated := now));
    if p.id == o.id {
      assert saved.(updated := now) in Save(orders, saved, now).value;
    } else {
      assert p in Save(orders, saved, now).value;
    }
  }

  /** Approved and rejected are final, and an approved order always names an account. */
  lemma StatusIsFinal(w: World, step: Step, p: Order)
    requires Inv(w) && Enabled(w, step) && p in w.orders && !p.status.Pending?
    ensures Became(Next(w, step).orders, p, p.status)
  {
    assert OrderInv(w, p);
    match step
    case DoSubmit(order, now) =>
    case DoAdmin(_) =>
    case DoReject(id, note, now) =>
      FirstMeans(w.orders, OrderWith(id));
      if Reject(State(w.items, w.orders), id, note, now).Ok? {
        var o := First(w.orders, OrderWith(id)).value;
        if p.id == o.id { OneOrderPerId(w.orders, p, o); }
        SaveKeepsStatus(w.orders, o, o.(status := Rejected, adminNote := note), now, p);
      }
    case DoApprove(id, note, now, out, dies) =>
      FirstMeans(w.orders, OrderWith(id));
      if First(w.orders, OrderWith(id)).Some? && !dies {
        var o := First(w.orders, OrderWith(id)).value;
        ApprovalKeepsStatus(w, o, note, now, out, p);
      }
  }

  lemma ApprovalKeepsStatus(w: World, o: Order, note: string, now: int, out: Outcome, p: Order)
    requires Inv(w) && o in w.orders && p in w.orders && !p.status.Pending?
    requires PlanFor(w.items, o, now, out).Created? ==> NoReuse(w)
    ensures var plan := PlanFor(w.items, o, now, out);
            !plan.Refused? ==>
              var saved := Save(w.orders, ApprovedOrder(o, plan, note), now);
              saved.Ok? && Became(saved.value, p, p.status)
  {
    assert OrderInv(w, p);
    var plan := PlanFor(w.items, o, now, out);
    if !plan.Refused? {
      if p.id == o.id { OneOrderPerId(w.orders, p, o); }
      ApprovedAccountId(w, o, note, now, out);
      SaveKeepsStatus(w.orders, o, ApprovedOrder(o, plan, note), now, p);
    }
  }

  lemma ApprovedAccountId(w: World, o: Order, note: string, now: int, out: Outcome)
    requires Inv(w) && o in w.orders && !PlanFor(w.items, o, now, out).Refused?
    requires PlanFor(w.items, o, now, out).Created? ==> NoReuse(w)
    ensures ApprovedOrder(o, PlanFor(w.items, o, now, out), note).accessId > 0
  {
    var plan := PlanFor(w.items, o, now, out);
    assert OrderInv(w, o);
    PlanIsJustified(w, o, now, out);
    if plan.Attached? {
      FoundMeans(w.items, o);
      NoZeroId(w.items, plan.account);
    } else {
      assert plan.change.record in plan.change.items;
      NoZeroId(plan.change.items, plan.change.record);
    }
  }

  /** Over every run, too. */
  lemma {:induction false} RunKeepsStatus(worlds: seq<World>, steps: seq<Step>, n: nat, m: nat, p: Order)
    requires IsRun(worlds, steps) && n <= m <= |steps| && Inv(worlds[0])
    requires p in worlds[n].orders && !p.status.Pending?
    ensures Became(worlds[m].orders, p, p.status)
  {
    RunKeepsInv(worlds, steps, n);
    assert OrderInv(worlds[n], p);
    if n < m {
      RunKeepsStatus(worlds, steps, n, m - 1, p);
      var x :| x in worlds[m - 1].orders && x.id == p.id && x.status == p.status;
      RunKeepsInv(worlds, steps, m - 1);
      StatusIsFinal(worlds[m - 1], steps[m - 1], x);
    }
  }

  // ---------------------------------------------------------------- the access store's own steps

  lemma TargetWasLive(s: AccessRuns.World, step: AccessRuns.Step)
    requires AccessRuns.Enabled(s, step) && !step.DoCreate?
    ensures AccessRuns.Next(s, step).items == s.items || Live(s.items, AccessRuns.Target(s, step))
  {
    var id := AccessRuns.Target(s, step);
    if At(s.items, id) < |s.items| { assert s.items[At(s.items, id)] in s.items; }
  }

  /** What a section must respect beside a run of the orders: no id again, no marker added, none lost too early. */
  predicate RespectsOrders(w: World, s: AccessRuns.World, step: AccessRuns.Step)
    requires AccessRuns.Enabled(s, step)
  {
    && (step.DoCreate? ==> NoReuse(w) && step.form.notes.orders == {})
    && forall x, y | x in w.items && y in AccessRuns.Next(s, step).items
                     && x.id == y.id == AccessRuns.Target(s, step) ::
         && y.notes.orders <= x.notes.orders
         && forall o | o in x.notes.orders - y.notes.orders :: NamesAccount(w.orders, o, x.id)
  }

  /** Every mutex-held section of the access store that respects the orders may stand beside their handlers. */
  lemma StoreStepIsSafe(w: World, s: AccessRuns.World, step: AccessRuns.Step)
    requires Inv(w) && s.items == w.items && AccessRuns.Enabled(s, step) && RespectsOrders(w, s, step)
    ensures SafeAdmin(w, AccessRuns.Next(s, step).items)
  {
    var after, target := AccessRuns.Next(s, step).items, AccessRuns.Target(s, step);
    AccessRuns.StepKeepsInv(s, step);
    forall y | y in after
      ensures y in w.items || (step.DoCreate? && CreatedNow(w, y)) || (y.id == target && Live(w.items, y.id))
    {
      StoreRecord(w, s, step, y);
    }
    forall x, y | x in w.items && y in after && x.id == y.id
      ensures y.notes.orders <= x.notes.orders
      ensures forall o | o in x.notes.orders - y.notes.orders :: NamesAccount(w.orders, o, x.id)
    {
      if y in w.items { SameId(w.items, x, y); }
    }
  }

  /** A record that has just been created: a new id and no marker. */
  predicate CreatedNow(w: World, y: Access) {
    y.id !in w.used && !Live(w.items, y.id) && y.notes.orders == {}
  }

  lemma StoreRecord(w: World, s: AccessRuns.World, step: AccessRuns.Step, y: Access)
    requires Inv(w) && s.items == w.items && AccessRuns.Enabled(s, step) && RespectsOrders(w, s, step)
    requires y in AccessRuns.Next(s, step).items
    ensures y in w.items || (step.DoCreate? && CreatedNow(w, y))
         || (y.id == AccessRuns.Target(s, step) && Live(w.items, y.id))
  {
    if step.DoCreate? {
      CreatedRecord(s, step, y);
    } else if y.id != AccessRuns.Target(s, step) {
      AccessRuns.OthersStay(s, step, y);
    } else {
      TargetWasLive(s, step);
    }
  }

  lemma CreatedRecord(s: AccessRuns.World, step: AccessRuns.Step, y: Access)
    requires step.DoCreate? && y in AccessRuns.Next(s, step).items
    ensures y in s.items || (y.id == MaxId(s.items) + 1 && y.notes == step.form.notes)
  {
    var r := Create(s.items, step.form, step.now, step.out);
    if r.Ok? { AccessRuns.CreateAppends(s.items, step.form, step.now, step.out); }
  }

  // ---------------------------------------------------------------- dying halfway

  /** Approving again after a death attaches to the record already marked: nothing is created or changed. */
  lemma RetryAttaches(w: World, o: Order, now: int, out: Outcome, later: int, out': Outcome)
    requires Inv(w) && o in w.orders
    requires var plan := PlanFor(w.items, o, now, out);
             (plan.Created? && NoReuse(w)) || plan.Extended?
    ensures var plan := PlanFor(w.items, o, now, out);
            PlanFor(Died(w, o, plan).items, o, later, out') == Attached(plan.change.record)
  {
    var plan := PlanFor(w.items, o, now, out);
    var died := Died(w, o, plan);
    assert OrderInv(w, o);
    PlanIsJustified(w, o, now, out);
    DiedKeepsInv(w, o, plan);
    var r := plan.change.record;
    assert r in died.items && Provisioned(o, r);
    FoundMeans(died.items, o);
    AttachedAccount(died, o);
    SameId(died.items, FindAccess(died.items, o).value, r);
  }

  /** Some live account was created for the order. */
  predicate HasAccount(w: World, o: Order) {
    exists x | x in w.items :: x.id in w.made && w.made[x.id] == o.id
  }

  predicate Marked(items: seq<Access>, o: Order) {
    exists x | x in items :: o.id in x.notes.orders
  }

  /**
   A rejection that goes through leaves alive an account created for the order exactly when the order has no
   requester and some account carries its marker at the call: that is, when an approval died after creating it.
   */
  lemma RejectLeavesAccountIff(w: World, o: Order, note: string, now: int)
    requires Inv(w) && o in w.orders && Reject(State(w.items, w.orders), o.id, note, now).Ok?
    ensures var after := Next(w, DoReject(o.id, note, now));
            HasAccount(after, o) <==> o.requester <= 0 && Marked(w.items, o)
  {
    assert OrderInv(w, o) && Traceable(w, o) && Originates(w, o);
    FirstMeans(w.orders, OrderWith(o.id));
    DistinctAgree(w.orders, OrderKey(), o, First(w.orders, OrderWith(o.id)).value);
    forall x | x in w.items ensures x.id > 0 { NoZeroId(w.items, x); }
  }

  /** A death after creating the account is such a case: the rejection goes through and the account stays. */
  lemma RejectAfterDeath(w: World, o: Order, now: int, out: Outcome, note: string, later: int)
    requires Inv(w) && o in w.orders && o.status.Pending? && NoReuse(w)
    requires PlanFor(w.items, o, now, out).Created?
    ensures var plan := PlanFor(w.items, o, now, out);
            var died := Died(w, o, plan);
            var after := Next(died, DoReject(o.id, note, later));
            && Became(after.orders, o, Rejected)
            && plan.change.record in after.items && after.made[plan.change.record.id] == o.id
  {
    assert OrderInv(w, o);
    PlanIsJustified(w, o, now, out);
    RejectSaves(Died(w, o, PlanFor(w.items, o, now, out)), o, note, later);
  }

  lemma RejectSaves(w: World, o: Order, note: string, now: int)
    requires DistinctBy(w.orders, OrderKey()) && o in w.orders && o.status.Pending? && o.accessId == 0
    ensures var after := Next(w, DoReject(o.id, note, now));
            Became(after.orders, o, Rejected) && after.items == w.items && after.made == w.made
  {
    FirstMeans(w.orders, OrderWith(o.id));
    DistinctAgree(w.orders, OrderKey(), o, First(w.orders, OrderWith(o.id)).value);
    var rejected := o.(status := Rejected, adminNote := note);
    SavedMembers(w.orders, rejected, now, rejected.(updated := now));
  }

  // ---------------------------------------------------------------- created once

  predicate AllLive(w: World) { forall id | id in w.made :: Live(w.items, id) }

  /** Nobody deletes an account. */
  predicate KeepsAccounts(w: World, step: Step) {
    step.DoAdmin? ==> forall x | x in w.items :: Live(step.items, x.id)
  }

  lemma StepKeepsAccounts(w: World, step: Step)
    requires Inv(w) && Enabled(w, step) && KeepsAccounts(w, step) && AllLive(w)
    ensures AllLive(Next(w, step))
  {
    var g := Next(w, step);
    match step
    case DoSubmit(_, _) =>
    case DoReject(_, _, _) =>
    case DoAdmin(items) =>
      forall id | id in w.made
        ensures Live(items, id)
      {
        var x :| x in w.items && x.id == id;
        assert Live(items, x.id);
      }
    case DoApprove(id, note, now, out, dies) =>
      FirstMeans(w.orders, OrderWith(id));
      if First(w.orders, OrderWith(id)).Some? {
        var o := First(w.orders, OrderWith(id)).value;
        var plan := PlanFor(w.items, o, now, out);
        assert OrderInv(w, o);
        PlanIsJustified(w, o, now, out);
        DiedKeepsAccounts(w, o, plan);
        assert g.items == Died(w, o, plan).items && g.made == Died(w, o, plan).made;
      }
  }

  lemma DiedKeepsAccounts(w: World, o: Order, plan: Plan)
    requires AllLive(w) && Justified(w, o, plan)
    ensures AllLive(Died(w, o, plan))
  {
    var g := Died(w, o, plan);
    if plan.Extended? || plan.Created? {
      var r := plan.change.record;
      assert r in g.items;
      forall id | id in g.made ensures Live(g.items, id) {
        if id != r.id {
          var x :| x in w.items && x.id == id;
          assert x in g.items;
        }
      }
    }
  }

  /** Runs can start from nothing. */
  lemma NothingYet()
    ensures Inv(World([], [], map[], {})) && AllLive(World([], [], map[], {}))
  {
  }

  /** Without deletions no order is ever given a second account, however often its approval dies or is repeated. */
  lemma {:induction false} RunCreatesOnce(worlds: seq<World>, steps: seq<Step>, n: nat, o: Order, i: int, j: int)
    requires IsRun(worlds, steps) && n <= |steps| && Inv(worlds[0]) && AllLive(worlds[0])
    requires forall k | 0 <= k < |steps| :: KeepsAccounts(worlds[k], steps[k])
    requires o in worlds[n].orders && i in worlds[n].made && j in worlds[n].made
    requires worlds[n].made[i] == worlds[n].made[j] == o.id
    ensures i == j
  {
    RunKeepsInv(worlds, steps, n);
    RunKeepsAccounts(worlds, steps, n);
    var x :| x in worlds[n].items && x.id == i;
    var y :| y in worlds[n].items && y.id == j;
    AtMostOneAccount(worlds[n], o, x, y);
  }

  lemma {:induction false} RunKeepsAccounts(worlds: seq<World>, steps: seq<Step>, n: nat)
    requires IsRun(worlds, steps) && n <= |steps| && Inv(worlds[0]) && AllLive(worlds[0])
    requires forall k | 0 <= k < |steps| :: KeepsAccounts(worlds[k], steps[k])
    ensures AllLive(worlds[n])
  {
    if n > 0 {
      RunKeepsAccounts(worlds, steps, n - 1);
      RunKeepsInv(worlds, steps, n - 1);
      StepKeepsAccounts(worlds[n - 1], steps[n - 1]);
    }
  }
}
