/**
 What the rows posted by an invoice hold, field by field (financial/web/src/App.jsx:4035-4086, 4507-4577): one
 row for each line that calls for one, under the line's fresh id, and no other row of that invoice.
 */
module FinancePostings {
  import opened Common
  import opened Lists
  import opened Settlement

  /** Different lines get different ids. */
  predicate DistinctIds(ids: nat -> string, n: nat) {
    forall i, j | 0 <= i < j < n :: ids(i) != ids(j)
  }

  /** One row of the origin has the id, and what it holds passes the test. */
  ghost predicate HasOne<A>(rows: seq<Row<A>>, o: Origin, id: string, test: A -> bool) {
    exists k: nat | k < |rows| ::
      && rows[k].origin == o && rows[k].id == id && test(rows[k].data)
      && forall j: nat | j < |rows| && j != k :: rows[j].origin != o || rows[j].id != id
  }

  /** The origin has one row for each line that calls for one, holding what it should, and no other row. */
  ghost predicate PostsExactly<A>(rows: seq<Row<A>>, o: Origin, payments: seq<Payment>, ids: nat -> string,
                            calls: Payment -> bool, holds: (Payment, A) -> bool) {
    && (forall i: nat | i < |payments| && calls(payments[i]) ::
          HasOne(rows, o, ids(i), (x: A) => holds(payments[i], x)))
    && (forall r | r in rows && r.origin == o ::
          exists i: nat | i < |payments| :: calls(payments[i]) && r.id == ids(i))
  }

  // ---------------------------------------------------------------- posted rows

  lemma {:induction false} PostedFor<A>(payments: seq<Payment>, pick: Pick<A>, o: Origin, ids: nat -> string, r: Row<A>)
    requires r in Posted(payments, pick, o, ids)
    ensures exists i: nat | i < |payments| :: r.id == ids(i) && pick(payments[i]) == Some(r.data)
  {
    var n := |payments| - 1;
    var earlier := Posted(payments[..n], pick, o, ids);
    if r in earlier {
      PostedFor(payments[..n], pick, o, ids, r);
      var i: nat :| i < n && r.id == ids(i) && pick(payments[..n][i]) == Some(r.data);
      assert payments[..n][i] == payments[i];
    }
  }

  lemma LaterIdIsNew<A>(payments: seq<Payment>, pick: Pick<A>, o: Origin, ids: nat -> string, id: string)
    requires forall i | 0 <= i < |payments| :: ids(i) != id
    ensures forall r | r in Posted(payments, pick, o, ids) :: r.id != id
  {
    forall r | r in Posted(payments, pick, o, ids) ensures r.id != id { PostedFor(payments, pick, o, ids, r); }
  }

  /** The row at k is the one with that id. */
  predicate OnlyAt<A>(rows: seq<Row<A>>, k: nat, id: string) {
    && k < |rows| && rows[k].id == id
    && forall j: nat | j < |rows| && j != k :: rows[j].id != id
  }

  lemma {:induction false} LinePosted<A>(payments: seq<Payment>, pick: Pick<A>, o: Origin, ids: nat -> string, i: nat)
    returns (k: nat)
    requires DistinctIds(ids, |payments|) && i < |payments| && pick(payments[i]).Some?
    ensures OnlyAt(Posted(payments, pick, o, ids), k, ids(i))
    ensures Posted(payments, pick, o, ids)[k] == Row(ids(i), o, pick(payments[i]).value)
  {
    var n := |payments| - 1;
    if i == n {
      k := 0;
      LaterIdIsNew(payments[..n], pick, o, ids, ids(n));
    } else {
      assert payments[..n][i] == payments[i];
      k := LinePosted(payments[..n], pick, o, ids, i);
      k := StaysTheOnly(payments, pick, o, ids, k, ids(i));
    }
  }

  lemma StaysTheOnly<A>(payments: seq<Payment>, pick: Pick<A>, o: Origin, ids: nat -> string, k: nat, id: string)
    returns (k': nat)
    requires payments != [] && ids(|payments| - 1) != id
    requires OnlyAt(Posted(payments[..|payments| - 1], pick, o, ids), k, id)
    ensures OnlyAt(Posted(payments, pick, o, ids), k', id)
    ensures Posted(payments, pick, o, ids)[k'] == Posted(payments[..|payments| - 1], pick, o, ids)[k]
  {
    var n := |payments| - 1;
    k' := k + if pick(payments[n]).Some? then 1 else 0;
  }

  /** Posting what `pick` makes of the lines and keeping the rows of all other origins. */
  lemma ReplacedPosts<A>(rows: seq<Row<A>>, payments: seq<Payment>, pick: Pick<A>, o: Origin, ids: nat -> string,
                         calls: Payment -> bool, holds: (Payment, A) -> bool)
    requires DistinctIds(ids, |payments|)
    requires forall p :: pick(p).Some? <==> calls(p)
    requires forall p | pick(p).Some? :: holds(p, pick(p).value)
    ensures PostsExactly(Replace(rows, Posted(payments, pick, o, ids), o), o, payments, ids, calls, holds)
  {
    var posted, rest := Posted(payments, pick, o, ids), Without(rows, o);
    forall r | r in rest ensures r.origin != o { FilterMember(rows, NotFrom(o), r); }
    forall i: nat | i < |payments| && calls(payments[i])
      ensures HasOne(posted + rest, o, ids(i), (x: A) => holds(payments[i], x))
    {
      var k := LinePosted(payments, pick, o, ids, i);
      assert (posted + rest)[k] == posted[k];
    }
    forall r | r in posted + rest && r.origin == o
      ensures exists i: nat | i < |payments| :: calls(payments[i]) && r.id == ids(i)
    {
      PostedFor(payments, pick, o, ids, r);
    }
  }

  // ---------------------------------------------------------------- what the rows hold

  function OfKind(kinds: set<Kind>): Payment -> bool { (p: Payment) => p.kind in kinds }

  /** A movement between the line's account and the party. */
  function MovesCash(party: string, direction: string, purpose: string): (Payment, Transfer) -> bool {
    (p: Payment, x: Transfer) =>
      && x.party == party && x.leg.account == p.account && x.leg.counter == "" && x.leg.amount == p.amount
      && x.leg.direction == direction && x.leg.kind == purpose
  }

  /** The line's check, in hand. */
  function IsOpenCheck(customer: string): (Payment, Receivable) -> bool {
    (p: Payment, x: Receivable) =>
      && x.customer == customer && x.amount == p.amount && x.checkNo == p.checkNo && x.dueDate == p.dueDate
      && x.status.Open? && x.assignedTo == "" && x.assignedIncoming.None?
  }

  /** The line's goods, taken in for the customer. */
  function IsBarter(customer: string): (Payment, Stock) -> bool {
    (p: Payment, x: Stock) =>
      && x.customer == customer && x.kind == (if p.kind.BarterYarn? then "yarn" else "fabric")
      && x.item == p.item && x.quantity == p.quantity && x.unitPrice == p.unitPrice && x.amount == p.amount
  }

  /** The line's check, given out. */
  function IsOwnCheck(customer: string): (Payment, Payable) -> bool {
    (p: Payment, x: Payable) =>
      x.customer == customer && x.amount == p.amount && x.checkNo == p.checkNo && x.dueDate == p.dueDate
  }

  /**
   After a sale is saved: a movement into the line's account for each cash line, an open and unassigned check
   for each check line, a stock row for each barter line, all of the sale's customer, and nothing else.
   */
  lemma SavedSalePosts(f: Finance, s: Sale, ids: nat -> string)
    requires DistinctIds(ids, |s.payments|)
    ensures var g, o := SaveSale(f, s, ids), FromSale(s.number);
            && PostsExactly(g.movements, o, s.payments, ids, OfKind({Cash}),
                            MovesCash(s.customer, "in", "customer_receipt"))
            && PostsExactly(g.receivables, o, s.payments, ids, OfKind({Check}), IsOpenCheck(s.customer))
            && PostsExactly(g.stock, o, s.payments, ids, OfKind({BarterYarn, BarterFabric}), IsBarter(s.customer))
  {
    var o := FromSale(s.number);
    ReplacedPosts(f.movements, s.payments, SaleMovement(s), o, ids, OfKind({Cash}),
                  MovesCash(s.customer, "in", "customer_receipt"));
    ReplacedPosts(f.receivables, s.payments, SaleCheck(s), o, ids, OfKind({Check}), IsOpenCheck(s.customer));
    ReplacedPosts(f.stock, s.payments, SaleStock(s), o, ids, OfKind({BarterYarn, BarterFabric}), IsBarter(s.customer));
  }

  // ---------------------------------------------------------------- incoming invoices

  /** Yarn, fabric and spare parts go into stock under the given id; anything else leaves no stock row. */
  ghost predicate StocksExactly(rows: seq<Row<Stock>>, inv: Incoming, stockId: string) {
    var o := FromIncoming(inv.id);
    if inv.inventoryType == "yarn" || inv.inventoryType == "fabric" || inv.inventoryType == "spare_part"
    then
      && HasOne(rows, o, stockId, (x: Stock) =>
           && x.customer == inv.customer && x.kind == inv.inventoryType && x.item == inv.item
           && x.quantity == inv.quantity && x.unitPrice == inv.unitPrice
           && x.amount == if inv.subtotal == 0 then inv.amount else inv.subtotal)
      && forall r | r in rows && r.origin == o :: r.id == stockId
    else forall r | r in rows :: r.origin != o
  }

  lemma StockPosted(rows: seq<Row<Stock>>, inv: Incoming, stockId: string)
    ensures StocksExactly(Replace(rows, StockRows(inv, stockId), FromIncoming(inv.id)), inv, stockId)
  {
    var o := FromIncoming(inv.id);
    var posted, rest := StockRows(inv, stockId), Without(rows, o);
    forall r | r in rest ensures r.origin != o { FilterMember(rows, NotFrom(o), r); }
    if posted != [] {
      assert (posted + rest)[0] == posted[0];
    }
  }

  /** What saving the invoice makes of one check. */
  predicate IsHandled(before: Row<Receivable>, after: Row<Receivable>, inv: Incoming, day: string) {
    && after.id == before.id && after.origin == before.origin
    && after.data.(status := Open, assignedTo := "", assignedIncoming := None, assignedAt := "")
       == before.data.(status := Open, assignedTo := "", assignedIncoming := None, assignedAt := "")
    && if exists i | 0 <= i < |inv.payments| ::
            inv.payments[i].kind.AssignReceivable? && inv.payments[i].docId == before.id
       then after.data.status.Assigned? && after.data.assignedTo == inv.customer
            && after.data.assignedIncoming == Some(inv.id) && after.data.assignedAt == day
       else if before.data.assignedIncoming == Some(inv.id)
       then after.data.status.Open? && after.data.assignedTo == "" && after.data.assignedIncoming.None?
            && after.data.assignedAt == before.data.assignedAt
       else after == before
  }

  lemma CheckHandled(f: Finance, inv: Incoming, ids: nat -> string, stockId: string, day: string, k: nat)
    requires k < |f.receivables|
    ensures |SaveIncoming(f, inv, ids, stockId, day).receivables| == |f.receivables|
    ensures IsHandled(f.receivables[k], SaveIncoming(f, inv, ids, stockId, day).receivables[k], inv, day)
  {
  }

  /**
   After an incoming invoice is saved: a movement out of the line's account for each cash line, a check given out
   for each check line, its one stock row, and nothing else of that invoice; and in the table of checks each check a
   line names is handed on, each one it had before and no longer names is open again, and all others are as before.
   */
  lemma SavedIncomingPosts(f: Finance, inv: Incoming, ids: nat -> string, stockId: string, day: string)
    requires DistinctIds(ids, |inv.payments|)
    ensures var g, o := SaveIncoming(f, inv, ids, stockId, day), FromIncoming(inv.id);
            && PostsExactly(g.movements, o, inv.payments, ids, OfKind({Cash}),
                            MovesCash(inv.customer, "out", "supplier_payment"))
            && PostsExactly(g.payables, o, inv.payments, ids, OfKind({Check}), IsOwnCheck(inv.customer))
            && StocksExactly(g.stock, inv, stockId)
            && |g.receivables| == |f.receivables|
            && forall k | 0 <= k < |f.receivables| :: IsHandled(f.receivables[k], g.receivables[k], inv, day)
  {
    var o := FromIncoming(inv.id);
    forall k: nat | k < |f.receivables|
      ensures IsHandled(f.receivables[k], SaveIncoming(f, inv, ids, stockId, day).receivables[k], inv, day)
    {
      CheckHandled(f, inv, ids, stockId, day, k);
    }
    ReplacedPosts(f.movements, inv.payments, IncomingMovement(inv), o, ids, OfKind({Cash}),
                  MovesCash(inv.customer, "out", "supplier_payment"));
    ReplacedPosts(f.payables, inv.payments, IncomingCheck(inv), o, ids, OfKind({Check}), IsOwnCheck(inv.customer));
    StockPosted(f.stock, inv, stockId);
  }

  /** After an incoming invoice is removed its checks are open again and all others are as before. */
  lemma RemovedIncomingReopens(f: Finance, id: string, k: nat)
    requires k < |f.receivables|
    ensures var before, after := f.receivables[k], RemoveIncoming(f, id).receivables[k];
            && |RemoveIncoming(f, id).receivables| == |f.receivables|
            && if before.data.assignedIncoming != Some(id) then after == before
               else after == before.(data := after.data) && after.data.status.Open? && after.data.assignedTo == ""
                    && after.data.assignedIncoming.None?
                    && after.data.(status := before.data.status, assignedTo := before.data.assignedTo,
                                   assignedIncoming := before.data.assignedIncoming) == before.data
  {
  }

  // ---------------------------------------------------------------- the stored invoices

  predicate StartsWith(s: string, front: string) { |s| >= |front| && s[..|front|] == front }

  /** Two registrations of one operational source. */
  predicate SameOperationalSource(x: Incoming, y: Incoming) {
    && StartsWith(x.sourceType, "operational") && x.sourceId != ""
    && y.sourceType == x.sourceType && y.sourceId == x.sourceId
  }

  /** A saved invoice takes the place of the one with its number or id, and of others registered for its source. */
  lemma SavedInvoices(f: Finance, s: Sale, inv: Incoming, ids: nat -> string, stockId: string, day: string)
    ensures var sales := SaveSale(f, s, ids).sales;
            sales != [] && sales[0] == s && forall x :: x in sales[1..] <==> x in f.sales && x.number != s.number
    ensures var incoming := SaveIncoming(f, inv, ids, stockId, day).incoming;
            incoming != [] && incoming[0] == inv
            && forall x :: x in incoming[1..] <==> x in f.incoming && x.id != inv.id && !SameOperationalSource(inv, x)
  {
    var sales, incoming := Filter(f.sales, OtherNumber(s.number)), Filter(f.incoming, NotDisplacedBy(inv));
    assert ([s] + sales)[1..] == sales && ([inv] + incoming)[1..] == incoming;
    forall x ensures x in sales <==> x in f.sales && x.number != s.number {
      FilterMember(f.sales, OtherNumber(s.number), x);
    }
    forall x ensures x in incoming <==> x in f.incoming && x.id != inv.id && !SameOperationalSource(inv, x) {
      FilterMember(f.incoming, NotDisplacedBy(inv), x);
    }
  }

  /** A removed invoice is gone with every row it posted, and nothing else is. */
  lemma RemovedInvoices(f: Finance, s: Sale, id: string)
    ensures var g := RemoveSale(f, s);
            && g.incoming == f.incoming && g.payables == f.payables
            && (forall x :: x in g.sales <==> x in f.sales && x.id != s.id)
            && (forall x :: x in g.movements <==> x in f.movements && x.origin != FromSale(s.number))
            && (forall x :: x in g.receivables <==> x in f.receivables && x.origin != FromSale(s.number))
            && (forall x :: x in g.stock <==> x in f.stock && x.origin != FromSale(s.number))
    ensures var g := RemoveIncoming(f, id);
            && g.sales == f.sales
            && (forall x :: x in g.incoming <==> x in f.incoming && x.id != id)
            && (forall x :: x in g.movements <==> x in f.movements && x.origin != FromIncoming(id))
            && (forall x :: x in g.payables <==> x in f.payables && x.origin != FromIncoming(id))
            && (forall x :: x in g.stock <==> x in f.stock && x.origin != FromIncoming(id))
  {
    OnlyOthersStay(f.movements, FromSale(s.number));
    OnlyOthersStay(f.receivables, FromSale(s.number));
    OnlyOthersStay(f.stock, FromSale(s.number));
    OnlyOthersStay(f.movements, FromIncoming(id));
    OnlyOthersStay(f.payables, FromIncoming(id));
    OnlyOthersStay(f.stock, FromIncoming(id));
    forall x ensures x in Filter(f.sales, OtherSale(s.id)) <==> x in f.sales && x.id != s.id {
      FilterMember(f.sales, OtherSale(s.id), x);
    }
    forall x ensures x in Filter(f.incoming, OtherIncoming(id)) <==> x in f.incoming && x.id != id {
      FilterMember(f.incoming, OtherIncoming(id), x);
    }
  }

  lemma OnlyOthersStay<A>(rows: seq<Row<A>>, o: Origin)
    ensures forall x :: x in Without(rows, o) <==> x in rows && x.origin != o
  {
    forall x ensures x in Without(rows, o) <==> x in rows && x.origin != o { FilterMember(rows, NotFrom(o), x); }
  }
}
