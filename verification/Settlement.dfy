/**
 Saving and removing sales and incoming invoices, and the movements, checks and stock rows they
 post (financial/web/src/App.jsx:1196-1214, 1236-1303, 1817-1830, 4035-4118, 4445-4617).

 Money is counted in whole units. Rows that an invoice posts carry it as their origin. Dates, notes
 and other texts that no rule reads are left out; `day` is the current date and `ids` the supply of
 fresh row ids of one save.
 */
module Settlement {
  import opened Common
  import LedgerViews
  import opened Lists

  datatype Kind = Cash | Check | Credit | BarterYarn | BarterFabric | AssignReceivable

  datatype Payment = Payment(
    kind: Kind, amount: int, account: string, checkNo: string, dueDate: string, docId: string,
    item: string, quantity: int, unitPrice: int)

  /** Where a row came from: an invoice of either side, or anything else. */
  datatype Origin = Other | FromSale(number: string) | FromIncoming(id: string)

  /** A row of one of the tables, with what it holds. */
  datatype Row<A> = Row(id: string, origin: Origin, data: A)

  datatype Transfer = Transfer(leg: LedgerViews.Movement, party: string)

  datatype Stock = Stock(customer: string, kind: string, item: string, quantity: int, unitPrice: int, amount: int)

  datatype Payable = Payable(customer: string, amount: int, checkNo: string, dueDate: string)

  datatype Status = Open | Cleared | Assigned | Returned | Bounced

  datatype Receivable = Receivable(
    customer: string, amount: int, checkNo: string, dueDate: string,
    status: Status, assignedTo: string, assignedIncoming: Option<string>, assignedAt: string,
    previousTo: string, previousIncoming: Option<string>, operatedAt: string)

  datatype Sale = Sale(id: string, number: string, customer: string, total: int, payments: seq<Payment>)

  datatype Incoming = Incoming(
    id: string, customer: string, amount: int, subtotal: int, nonFinancial: bool,
    inventoryType: string, item: string, quantity: int, unitPrice: int,
    sourceType: string, sourceId: string, payments: seq<Payment>)

  datatype Finance = Finance(
    sales: seq<Sale>,
    incoming: seq<Incoming>,
    movements: seq<Row<Transfer>>,
    receivables: seq<Row<Receivable>>,
    payables: seq<Row<Payable>>,
    stock: seq<Row<Stock>>)

  // ---------------------------------------------------------------- accepting payments

  function Sum(payments: seq<Payment>): int {
    if payments == [] then 0 else Sum(payments[..|payments| - 1]) + payments[|payments| - 1].amount
  }

  function Abs(x: int): nat { if x < 0 then -x else x }

  /** |difference| <= max(1, total * 0.000001), scaled to whole numbers. */
  predicate Within(difference: int, total: int) {
    Abs(difference) * 1_000_000 <= if total > 1_000_000 then total else 1_000_000
  }

  datatype Problem = Unbalanced | NoAccount | NoCheckData | NoDocument

  function LineProblem(p: Payment): Option<Problem> {
    if p.kind.Cash? && p.account == "" then Some(NoAccount)
    else if p.kind.Check? && (p.checkNo == "" || p.dueDate == "") then Some(NoCheckData)
    else if p.kind.AssignReceivable? && p.docId == "" then Some(NoDocument)
    else None
  }

  function FirstProblem(payments: seq<Payment>): Option<Problem> {
    if payments == [] then None
    else
      var earlier := FirstProblem(payments[..|payments| - 1]);
      if earlier.Some? then earlier else LineProblem(payments[|payments| - 1])
  }

  function Active(payments: seq<Payment>): seq<Payment> {
    if payments == [] then []
    else
      var last := payments[|payments| - 1];
      Active(payments[..|payments| - 1]) + if last.amount > 0 then [last] else []
  }

  function PaymentProblem(payments: seq<Payment>, total: int): Option<Problem> {
    var active := Active(payments);
    if !Within(total - Sum(active), total) then Some(Unbalanced) else FirstProblem(active)
  }

  /** The filter, the reduce and the checking loop of paymentValidationError. */
  method PaymentValidation(payments: seq<Payment>, total: int) returns (problem: Option<Problem>)
    ensures problem == PaymentProblem(payments, total)
  {
    var active, settled := [], 0;
    for i := 0 to |payments|
      invariant active == Active(payments[..i]) && settled == Sum(active)
    {
      assert payments[..i + 1][..i] == payments[..i];
      if payments[i].amount > 0 {
        assert (active + [payments[i]])[..|active|] == active;
        active := active + [payments[i]];
        settled := settled + payments[i].amount;
      }
    }
    assert payments[..|payments|] == payments;
    if !Within(total - settled, total) {
      return Some(Unbalanced);
    }
    for i := 0 to |active|
      invariant FirstProblem(active[..i]).None?
    {
      assert active[..i + 1][..i] == active[..i];
      problem := LineProblem(active[i]);
      if problem.Some? {
        ProblemStays(active, i + 1);
        return;
      }
    }
    assert active[..|active|] == active;
    problem := None;
  }

  lemma {:induction false} ProblemStays(payments: seq<Payment>, n: nat)
    requires n <= |payments| && FirstProblem(payments[..n]).Some?
    ensures FirstProblem(payments) == FirstProblem(payments[..n])
  {
    if n < |payments| {
      assert payments[..|payments| - 1][..n] == payments[..n];
      ProblemStays(payments[..|payments| - 1], n);
    } else {
      assert payments[..n] == payments;
    }
  }

  /** A line has all that its kind of payment asks for. */
  predicate IsComplete(p: Payment) {
    && (p.kind == Cash ==> p.account != "")
    && (p.kind == Check ==> p.checkNo != "" && p.dueDate != "")
    && (p.kind == AssignReceivable ==> p.docId != "")
  }

  function PositiveAmount(): Payment -> int { (p: Payment) => if p.amount > 0 then p.amount else 0 }

  /** A difference is tolerated up to one, or up to a millionth of the total where that is more. */
  predicate IsTolerated(difference: int, total: int) {
    var limit := if total < 1_000_000 then 1_000_000 else total;
    -limit <= 1_000_000 * difference <= limit
  }

  lemma {:induction false} ActiveMeans(payments: seq<Payment>, p: Payment)
    ensures p in Active(payments) <==> p in payments && p.amount > 0
  {
    if payments != [] {
      var n := |payments| - 1;
      ActiveMeans(payments[..n], p);
      assert payments == payments[..n] + [payments[n]];
    }
  }

  lemma SumOneMore(payments: seq<Payment>, p: Payment)
    ensures Sum(payments + [p]) == Sum(payments) + p.amount
  {
    assert (payments + [p])[..|payments|] == payments;
  }

  lemma {:induction false} ActiveSum(payments: seq<Payment>)
    ensures Sum(Active(payments)) == SumOf(payments, PositiveAmount())
  {
    if payments != [] {
      var n := |payments| - 1;
      ActiveSum(payments[..n]);
      SumLast(payments, PositiveAmount());
      SumOneMore(Active(payments[..n]), payments[n]);
      assert Active(payments[..n]) + [] == Active(payments[..n]);
    }
  }

  lemma {:induction false} ProblemsAreIncomplete(payments: seq<Payment>)
    ensures FirstProblem(payments).None? <==> forall i | 0 <= i < |payments| :: IsComplete(payments[i])
  {
    if payments != [] {
      var n := |payments| - 1;
      ProblemsAreIncomplete(payments[..n]);
      assert forall i | 0 <= i < n :: payments[..n][i] == payments[i];
    }
  }

  lemma AllComplete(payments: seq<Payment>)
    ensures FirstProblem(Active(payments)).None? <==> forall p | p in payments && p.amount > 0 :: IsComplete(p)
  {
    forall p ensures p in Active(payments) <==> p in payments && p.amount > 0 { ActiveMeans(payments, p); }
    ProblemsAreIncomplete(Active(payments));
  }

  /**
   Payments are accepted exactly when the positive lines add up to the total within the tolerance and each of them
   is complete; an imbalance is reported before anything else.
   */
  lemma PaymentsAcceptedIff(payments: seq<Payment>, total: int)
    ensures var balanced := IsTolerated(total - SumOf(payments, PositiveAmount()), total);
            && (PaymentProblem(payments, total) == Some(Unbalanced) <==> !balanced)
            && (PaymentProblem(payments, total).None? <==>
                  balanced && forall p | p in payments && p.amount > 0 :: IsComplete(p))
  {
    AllComplete(payments);
    ActiveSum(payments);
    NeverUnbalanced(Active(payments));
  }

  lemma {:induction false} NeverUnbalanced(payments: seq<Payment>)
    ensures FirstProblem(payments) != Some(Unbalanced)
  {
    if payments != [] {
      NeverUnbalanced(payments[..|payments| - 1]);
    }
  }

  // ---------------------------------------------------------------- rows of one origin

  function IsFrom<A>(o: Origin): Row<A> -> bool { (r: Row<A>) => r.origin == o }

  function NotFrom<A>(o: Origin): Row<A> -> bool { (r: Row<A>) => r.origin != o }

  function From<A>(rows: seq<Row<A>>, o: Origin): seq<Row<A>> { Filter(rows, IsFrom(o)) }

  function Without<A>(rows: seq<Row<A>>, o: Origin): seq<Row<A>> { Filter(rows, NotFrom(o)) }

  function Contents<A>(rows: seq<Row<A>>): seq<A> {
    if rows == [] then [] else [rows[0].data] + Contents(rows[1..])
  }

  lemma {:induction false} ContentsConcat<A>(a: seq<Row<A>>, b: seq<Row<A>>)
    ensures Contents(a + b) == Contents(a) + Contents(b)
  {
    if a == [] {
      assert a + b == b;
    } else {
      assert (a + b)[1..] == a[1..] + b;
      ContentsConcat(a[1..], b);
    }
  }

  /** What a payment line posts to one table, if anything. */
  type Pick<A> = Payment -> Option<A>

  function Picked<A>(payments: seq<Payment>, pick: Pick<A>): seq<A> {
    if payments == [] then []
    else
      var last := pick(payments[|payments| - 1]);
      (if last.Some? then [last.value] else []) + Picked(payments[..|payments| - 1], pick)
  }

  /** The rows posted for the payment lines, the last line first. */
  function Posted<A>(payments: seq<Payment>, pick: Pick<A>, o: Origin, ids: nat -> string): seq<Row<A>> {
    if payments == [] then []
    else
      var n := |payments| - 1;
      var last := pick(payments[n]);
      (if last.Some? then [Row(ids(n), o, last.value)] else []) + Posted(payments[..n], pick, o, ids)
  }

  predicate AllFrom<A>(rows: seq<Row<A>>, o: Origin) {
    forall i | 0 <= i < |rows| :: rows[i].origin == o
  }

  lemma {:induction false} PostedMeans<A>(payments: seq<Payment>, pick: Pick<A>, o: Origin, ids: nat -> string)
    ensures AllFrom(Posted(payments, pick, o, ids), o)
    ensures Contents(Posted(payments, pick, o, ids)) == Picked(payments, pick)
  {
    if payments != [] {
      var n := |payments| - 1;
      PostedMeans(payments[..n], pick, o, ids);
      var earlier := Posted(payments[..n], pick, o, ids);
      match pick(payments[n])
      case None =>
        assert [] + earlier == earlier && [] + Picked(payments[..n], pick) == Picked(payments[..n], pick);
      case Some(v) =>
        assert ([Row(ids(n), o, v)] + earlier)[1..] == earlier;
    }
  }

  /** One more line of the loop puts its row, if it posts one, in front. */
  lemma PostOneMore<A>(payments: seq<Payment>, i: nat, pick: Pick<A>, o: Origin, ids: nat -> string, rest: seq<Row<A>>)
    requires i < |payments|
    ensures Posted(payments[..i + 1], pick, o, ids) + rest
         == var earlier := Posted(payments[..i], pick, o, ids) + rest;
            match pick(payments[i]) { case None => earlier case Some(v) => [Row(ids(i), o, v)] + earlier }
  {
    assert payments[..i + 1][..i] == payments[..i];
  }

  /** A table in which the rows of one origin have been replaced by newly posted ones. */
  function Replace<A>(rows: seq<Row<A>>, posted: seq<Row<A>>, o: Origin): seq<Row<A>> {
    posted + Without(rows, o)
  }

  lemma WithoutMeans<A>(rows: seq<Row<A>>, o: Origin, p: Origin)
    ensures From(Without(rows, o), p) == if o == p then [] else From(rows, p)
    ensures Without(rows, o) == rows <==> From(rows, o) == []
    ensures |Without(rows, o)| <= |rows|
  {
    FilterSize(rows, NotFrom(o));
    FilterSize(rows, IsFrom(o));
    FilterTwice(rows, NotFrom(o), IsFrom(p));
    if o == p {
      var kept := Without(rows, o);
      forall i | 0 <= i < |kept| ensures !IsFrom(o)(kept[i]) { FilterMember(rows, NotFrom(o), kept[i]); }
      FilterSize(kept, IsFrom(o));
    }
  }

  lemma ReplaceMeans<A>(rows: seq<Row<A>>, posted: seq<Row<A>>, o: Origin, p: Origin)
    requires AllFrom(posted, o)
    ensures From(Replace(rows, posted, o), p) == if o == p then posted else From(rows, p)
    ensures Without(Replace(rows, posted, o), o) == Without(rows, o)
  {
    FilterConcat(posted, Without(rows, o), IsFrom(p));
    FilterConcat(posted, Without(rows, o), NotFrom(o));
    FilterSize(posted, IsFrom(p));
    FilterSize(posted, NotFrom(o));
    WithoutMeans(rows, o, p);
    FilterTwice(rows, NotFrom(o), NotFrom(o));
  }

  // ---------------------------------------------------------------- what a sale posts

  function SaleMovement(s: Sale): Pick<Transfer> {
    (p: Payment) =>
      if p.kind.Cash? then
        Some(Transfer(LedgerViews.Movement(p.account, "", "in", "customer_receipt", p.amount), s.customer))
      else None
  }

  function OpenCheck(customer: string, p: Payment): Receivable {
    Receivable(customer, p.amount, p.checkNo, p.dueDate, Open, "", None, "", "", None, "")
  }

  function SaleCheck(s: Sale): Pick<Receivable> {
    (p: Payment) => if p.kind.Check? then Some(OpenCheck(s.customer, p)) else None
  }

  function SaleStock(s: Sale): Pick<Stock> {
    (p: Payment) =>
      if p.kind.BarterYarn? then Some(Stock(s.customer, "yarn", p.item, p.quantity, p.unitPrice, p.amount))
      else if p.kind.BarterFabric? then Some(Stock(s.customer, "fabric", p.item, p.quantity, p.unitPrice, p.amount))
      else None
  }

  function OtherNumber(number: string): Sale -> bool { (x: Sale) => x.number != number }

  function OtherSale(id: string): Sale -> bool { (x: Sale) => x.id != id }

  function SaveSale(f: Finance, s: Sale, ids: nat -> string): Finance {
    var o := FromSale(s.number);
    f.(sales := [s] + Filter(f.sales, OtherNumber(s.number)),
       movements := Replace(f.movements, Posted(s.payments, SaleMovement(s), o, ids), o),
       receivables := Replace(f.receivables, Posted(s.payments, SaleCheck(s), o, ids), o),
       stock := Replace(f.stock, Posted(s.payments, SaleStock(s), o, ids), o))
  }

  function RemoveSale(f: Finance, s: Sale): Finance {
    var o := FromSale(s.number);
    f.(sales := Filter(f.sales, OtherSale(s.id)),
       movements := Without(f.movements, o),
       receivables := Without(f.receivables, o),
       stock := Without(f.stock, o))
  }

  /** The updater of saveSettlement: filters first, then one loop that puts rows in front. */
  method SaveSaleLoop(f: Finance, s: Sale, ids: nat -> string) returns (next: Finance)
    ensures next == SaveSale(f, s, ids)
  {
    var o := FromSale(s.number);
    var movements, receivables, stock := Without(f.movements, o), Without(f.receivables, o), Without(f.stock, o);
    for i := 0 to |s.payments|
      invariant movements == Replace(f.movements, Posted(s.payments[..i], SaleMovement(s), o, ids), o)
      invariant receivables == Replace(f.receivables, Posted(s.payments[..i], SaleCheck(s), o, ids), o)
      invariant stock == Replace(f.stock, Posted(s.payments[..i], SaleStock(s), o, ids), o)
    {
      var p := s.payments[i];
      PostOneMore(s.payments, i, SaleMovement(s), o, ids, Without(f.movements, o));
      PostOneMore(s.payments, i, SaleCheck(s), o, ids, Without(f.receivables, o));
      PostOneMore(s.payments, i, SaleStock(s), o, ids, Without(f.stock, o));
      if p.kind.Cash? {
        var leg := LedgerViews.Movement(p.account, "", "in", "customer_receipt", p.amount);
        movements := [Row(ids(i), o, Transfer(leg, s.customer))] + movements;
      }
      if p.kind.Check? {
        receivables := [Row(ids(i), o, OpenCheck(s.customer, p))] + receivables;
      }
      if p.kind.BarterYarn? || p.kind.BarterFabric? {
        var kind := if p.kind.BarterYarn? then "yarn" else "fabric";
        stock := [Row(ids(i), o, Stock(s.customer, kind, p.item, p.quantity, p.unitPrice, p.amount))] + stock;
      }
    }
    assert s.payments[..|s.payments|] == s.payments;
    next := f.(sales := [s] + Filter(f.sales, OtherNumber(s.number)),
               movements := movements, receivables := receivables, stock := stock);
  }

  // ---------------------------------------------------------------- what an incoming invoice posts

  function IncomingMovement(inv: Incoming): Pick<Transfer> {
    (p: Payment) =>
      if p.kind.Cash? then
        Some(Transfer(LedgerViews.Movement(p.account, "", "out", "supplier_payment", p.amount), inv.customer))
      else None
  }

  function IncomingCheck(inv: Incoming): Pick<Payable> {
    (p: Payment) => if p.kind.Check? then Some(Payable(inv.customer, p.amount, p.checkNo, p.dueDate)) else None
  }

  function IncomingStock(inv: Incoming): seq<Stock> {
    if inv.inventoryType in {"yarn", "fabric", "spare_part"} then
      [Stock(inv.customer, inv.inventoryType, inv.item, inv.quantity, inv.unitPrice,
             if inv.subtotal != 0 then inv.subtotal else inv.amount)]
    else []
  }

  function StockRows(inv: Incoming, id: string): seq<Row<Stock>> {
    seq(|IncomingStock(inv)|, i
      requires 0 <= i < |IncomingStock(inv)| => Row(id, FromIncoming(inv.id), IncomingStock(inv)[i]))
  }

  predicate Operational(inv: Incoming) {
    "operational" <= inv.sourceType && inv.sourceId != ""
  }

  /** Saving inv drops x: the same invoice, or another registration of the same operational source. */
  predicate Displaces(inv: Incoming, x: Incoming) {
    x.id == inv.id || (Operational(inv) && x.sourceType == inv.sourceType && x.sourceId == inv.sourceId)
  }

  function NotDisplacedBy(inv: Incoming): Incoming -> bool { (x: Incoming) => !Displaces(inv, x) }

  function OtherIncoming(id: string): Incoming -> bool { (x: Incoming) => x.id != id }

  /** A check endorsed to invoice id is open again. */
  function ReopenedRow(r: Row<Receivable>, id: string): Row<Receivable> {
    if r.data.assignedIncoming == Some(id)
    then r.(data := r.data.(status := Open, assignedTo := "", assignedIncoming := None)) else r
  }

  function Reopened(rows: seq<Row<Receivable>>, id: string): seq<Row<Receivable>> {
    seq(|rows|, i requires 0 <= i < |rows| => ReopenedRow(rows[i], id))
  }

  predicate Endorses(payments: seq<Payment>, docId: string) {
    exists i | 0 <= i < |payments| :: payments[i].kind.AssignReceivable? && payments[i].docId == docId
  }

  function EndorsedRow(r: Row<Receivable>, inv: Incoming, payments: seq<Payment>, day: string): Row<Receivable> {
    if Endorses(payments, r.id)
    then r.(data := r.data.(status := Assigned, assignedTo := inv.customer, assignedAt := day,
                            assignedIncoming := Some(inv.id)))
    else r
  }

  function Endorsed(rows: seq<Row<Receivable>>, inv: Incoming, payments: seq<Payment>, day: string)
    : seq<Row<Receivable>>
  {
    seq(|rows|, i requires 0 <= i < |rows| => EndorsedRow(rows[i], inv, payments, day))
  }

  function SaveIncoming(f: Finance, inv: Incoming, ids: nat -> string, stockId: string, day: string): Finance {
    var o := FromIncoming(inv.id);
    f.(incoming := [inv] + Filter(f.incoming, NotDisplacedBy(inv)),
       movements := Replace(f.movements, Posted(inv.payments, IncomingMovement(inv), o, ids), o),
       payables := Replace(f.payables, Posted(inv.payments, IncomingCheck(inv), o, ids), o),
       receivables := Endorsed(Reopened(f.receivables, inv.id), inv, inv.payments, day),
       stock := Replace(f.stock, StockRows(inv, stockId), o))
  }

  function RemoveIncoming(f: Finance, id: string): Finance {
    var o := FromIncoming(id);
    f.(incoming := Filter(f.incoming, OtherIncoming(id)),
       movements := Without(f.movements, o),
       payables := Without(f.payables, o),
       receivables := Reopened(f.receivables, id),
       stock := Without(f.stock, o))
  }

  /** The body of `proposed`: filters, one stock row, and a loop that maps the checks once per endorsement. */
  method SaveIncomingLoop(f: Finance, inv: Incoming, ids: nat -> string, stockId: string, day: string)
    returns (next: Finance)
    ensures next == SaveIncoming(f, inv, ids, stockId, day)
  {
    var o := FromIncoming(inv.id);
    var movements, payables, stock := Without(f.movements, o), Without(f.payables, o), Without(f.stock, o);
    var receivables := Reopened(f.receivables, inv.id);
    stock := StockRows(inv, stockId) + stock;
    for i := 0 to |inv.payments|
      invariant movements == Replace(f.movements, Posted(inv.payments[..i], IncomingMovement(inv), o, ids), o)
      invariant payables == Replace(f.payables, Posted(inv.payments[..i], IncomingCheck(inv), o, ids), o)
      invariant receivables == Endorsed(Reopened(f.receivables, inv.id), inv, inv.payments[..i], day)
    {
      var p := inv.payments[i];
      PostOneMore(inv.payments, i, IncomingMovement(inv), o, ids, Without(f.movements, o));
      PostOneMore(inv.payments, i, IncomingCheck(inv), o, ids, Without(f.payables, o));
      EndorseOneMore(Reopened(f.receivables, inv.id), inv, inv.payments, i, day);
      if p.kind.Cash? {
        var leg := LedgerViews.Movement(p.account, "", "out", "supplier_payment", p.amount);
        movements := [Row(ids(i), o, Transfer(leg, inv.customer))] + movements;
      }
      if p.kind.Check? {
        payables := [Row(ids(i), o, Payable(inv.customer, p.amount, p.checkNo, p.dueDate))] + payables;
      }
      if p.kind.AssignReceivable? {
        receivables := Endorsed(receivables, inv, [p], day);
      }
    }
    assert inv.payments[..|inv.payments|] == inv.payments;
    next := f.(incoming := [inv] + Filter(f.incoming, NotDisplacedBy(inv)),
               movements := movements, payables := payables,
               receivables := receivables, stock := stock);
  }

  lemma EndorseOneMore(rows: seq<Row<Receivable>>, inv: Incoming, payments: seq<Payment>, i: nat, day: string)
    requires i < |payments|
    ensures Endorsed(rows, inv, payments[..i + 1], day)
         == if payments[i].kind.AssignReceivable?
           then Endorsed(Endorsed(rows, inv, payments[..i], day), inv, [payments[i]], day)
            else Endorsed(rows, inv, payments[..i], day)
  {
    forall d: string
      ensures Endorses(payments[..i + 1], d) <==> Endorses(payments[..i], d) || Endorses([payments[i]], d)
    {
      EndorsesOneMore(payments, i, d);
    }
  }

  lemma EndorsesOneMore(payments: seq<Payment>, i: nat, d: string)
    requires i < |payments|
    ensures Endorses(payments[..i + 1], d) <==> Endorses(payments[..i], d) || Endorses([payments[i]], d)
  {
    var longer, shorter, one := payments[..i + 1], payments[..i], [payments[i]];
    assert longer == shorter + one;
    assert forall k | 0 <= k < i :: shorter[k] == longer[k];
    assert longer[i] == one[0];
  }

  // ---------------------------------------------------------------- saving replaces

  /** The tables after saving a sale: its own rows are the newly posted ones, all others as before. */
  lemma SaleTables(f: Finance, s: Sale, ids: nat -> string, p: Origin)
    ensures var g, o := SaveSale(f, s, ids), FromSale(s.number);
            && From(g.movements, p)
              == (if o == p then Posted(s.payments, SaleMovement(s), o, ids) else From(f.movements, p))
            && From(g.receivables, p)
              == (if o == p then Posted(s.payments, SaleCheck(s), o, ids) else From(f.receivables, p))
            && From(g.stock, p) == (if o == p then Posted(s.payments, SaleStock(s), o, ids) else From(f.stock, p))
            && Without(g.movements, o) == Without(f.movements, o)
            && Without(g.receivables, o) == Without(f.receivables, o)
            && Without(g.stock, o) == Without(f.stock, o)
  {
    var o := FromSale(s.number);
    PostedMeans(s.payments, SaleMovement(s), o, ids);
    PostedMeans(s.payments, SaleCheck(s), o, ids);
    PostedMeans(s.payments, SaleStock(s), o, ids);
    ReplaceMeans(f.movements, Posted(s.payments, SaleMovement(s), o, ids), o, p);
    ReplaceMeans(f.receivables, Posted(s.payments, SaleCheck(s), o, ids), o, p);
    ReplaceMeans(f.stock, Posted(s.payments, SaleStock(s), o, ids), o, p);
  }

  lemma SaleListReplaced(sales: seq<Sale>, a: Sale, number: string)
    requires a.number == number
    ensures Filter([a] + Filter(sales, OtherNumber(number)), OtherNumber(number)) == Filter(sales, OtherNumber(number))
  {
    FilterTwice(sales, OtherNumber(number), OtherNumber(number));
    FilterConcat([a], Filter(sales, OtherNumber(number)), OtherNumber(number));
  }

  /** Saving a sale over one with the same number is saving it alone. */
  lemma SaleSaveReplaces(f: Finance, a: Sale, b: Sale, ids: nat -> string, ids': nat -> string)
    requires a.number == b.number
    ensures SaveSale(SaveSale(f, a, ids), b, ids') == SaveSale(f, b, ids')
  {
    SaleTables(f, a, ids, Other);
    SaleListReplaced(f.sales, a, b.number);
  }

  /** No sale and no row belongs to this number. */
  predicate NumberUnused(f: Finance, number: string) {
    var o := FromSale(number);
    && (forall i | 0 <= i < |f.sales| :: f.sales[i].number != number)
    && From(f.movements, o) == [] && From(f.receivables, o) == [] && From(f.stock, o) == []
  }

  /** Removing a sale right after saving it under a new id restores everything exactly when its number was unused. */
  lemma SaleRemoveUndoesSaveIff(f: Finance, s: Sale, ids: nat -> string)
    requires forall i | 0 <= i < |f.sales| :: f.sales[i].id != s.id
    ensures RemoveSale(SaveSale(f, s, ids), s) == f <==> NumberUnused(f, s.number)
  {
    var o := FromSale(s.number);
    SaleTables(f, s, ids, o);
    WithoutMeans(f.movements, o, o);
    WithoutMeans(f.receivables, o, o);
    WithoutMeans(f.stock, o, o);
    var rest := Filter(f.sales, OtherNumber(s.number));
    forall i | 0 <= i < |rest| ensures rest[i].id != s.id {
      FilterMember(f.sales, OtherNumber(s.number), rest[i]);
    }
    FilterSize(rest, OtherSale(s.id));
    FilterConcat([s], rest, OtherSale(s.id));
    FilterSize(f.sales, OtherNumber(s.number));
  }

  /** Equal up to the day on which checks were last endorsed. */
  predicate SameReceivable(r: Row<Receivable>, q: Row<Receivable>) {
    r.(data := r.data.(assignedAt := "")) == q.(data := q.data.(assignedAt := ""))
  }

  predicate SameUpToStamps(f: Finance, g: Finance) {
    && f.(receivables := []) == g.(receivables := [])
    && |f.receivables| == |g.receivables|
    && forall i | 0 <= i < |f.receivables| :: SameReceivable(f.receivables[i], g.receivables[i])
  }

  /** The state in which the forms offer a check for endorsement. */
  predicate Unassigned(r: Receivable) {
    r.status.Open? && r.assignedTo == "" && r.assignedIncoming.None?
  }

  lemma StockRowsFrom(inv: Incoming, id: string)
    ensures AllFrom(StockRows(inv, id), FromIncoming(inv.id)) && Contents(StockRows(inv, id)) == IncomingStock(inv)
  {
  }

  lemma IncomingTables(f: Finance, inv: Incoming, ids: nat -> string, stockId: string, day: string, p: Origin)
    ensures var g, o := SaveIncoming(f, inv, ids, stockId, day), FromIncoming(inv.id);
            && (o != p ==> From(g.movements, p) == From(f.movements, p))
            && (o != p ==> From(g.payables, p) == From(f.payables, p))
            && (o != p ==> From(g.stock, p) == From(f.stock, p))
            && From(g.movements, o) == Posted(inv.payments, IncomingMovement(inv), o, ids)
            && From(g.payables, o) == Posted(inv.payments, IncomingCheck(inv), o, ids)
            && From(g.stock, o) == StockRows(inv, stockId)
            && Without(g.movements, o) == Without(f.movements, o)
            && Without(g.payables, o) == Without(f.payables, o)
            && Without(g.stock, o) == Without(f.stock, o)
  {
    var o := FromIncoming(inv.id);
    PostedMeans(inv.payments, IncomingMovement(inv), o, ids);
    PostedMeans(inv.payments, IncomingCheck(inv), o, ids);
    StockRowsFrom(inv, stockId);
    forall q | q == o || q == p
      ensures From(Replace(f.movements, Posted(inv.payments, IncomingMovement(inv), o, ids), o), q)
           == (if o == q then Posted(inv.payments, IncomingMovement(inv), o, ids) else From(f.movements, q))
      ensures From(Replace(f.payables, Posted(inv.payments, IncomingCheck(inv), o, ids), o), q)
           == (if o == q then Posted(inv.payments, IncomingCheck(inv), o, ids) else From(f.payables, q))
      ensures From(Replace(f.stock, StockRows(inv, stockId), o), q)
           == (if o == q then StockRows(inv, stockId) else From(f.stock, q))
    {
      ReplaceMeans(f.movements, Posted(inv.payments, IncomingMovement(inv), o, ids), o, q);
      ReplaceMeans(f.payables, Posted(inv.payments, IncomingCheck(inv), o, ids), o, q);
      ReplaceMeans(f.stock, StockRows(inv, stockId), o, q);
    }
    ReplaceMeans(f.movements, Posted(inv.payments, IncomingMovement(inv), o, ids), o, o);
    ReplaceMeans(f.payables, Posted(inv.payments, IncomingCheck(inv), o, ids), o, o);
    ReplaceMeans(f.stock, StockRows(inv, stockId), o, o);
  }

  /** What saving b over a, rather than b alone, needs of the checks only a endorses. */
  predicate FreedChecksWereOpen(rows: seq<Row<Receivable>>, a: Incoming, b: Incoming) {
    forall i | 0 <= i < |rows| ::
      Endorses(a.payments, rows[i].id) && !Endorses(b.payments, rows[i].id) ==>
        rows[i].data.assignedIncoming == Some(a.id) || Unassigned(rows[i].data)
  }

  lemma ReEndorsed(rows: seq<Row<Receivable>>, a: Incoming, b: Incoming, day: string, day': string, i: nat)
    requires a.id == b.id && i < |rows|
    ensures var twice :=
        Endorsed(Reopened(Endorsed(Reopened(rows, a.id), a, a.payments, day), b.id), b, b.payments, day');
            var once := Endorsed(Reopened(rows, b.id), b, b.payments, day');
            SameReceivable(twice[i], once[i])
            <==> (Endorses(a.payments, rows[i].id) && !Endorses(b.payments, rows[i].id) ==>
                    rows[i].data.assignedIncoming == Some(a.id) || Unassigned(rows[i].data))
  {
  }

  lemma IncomingListReplacedIff(invoices: seq<Incoming>, a: Incoming, b: Incoming)
    requires a.id == b.id
    ensures Filter([a] + Filter(invoices, NotDisplacedBy(a)), NotDisplacedBy(b)) == Filter(invoices, NotDisplacedBy(b))
       <==> forall i | 0 <= i < |invoices| :: Displaces(a, invoices[i]) ==> Displaces(b, invoices[i])
  {
    FilterTwice(invoices, NotDisplacedBy(a), NotDisplacedBy(b));
    FilterConcat([a], Filter(invoices, NotDisplacedBy(a)), NotDisplacedBy(b));
  }

  lemma ReEndorsedIff(rows: seq<Row<Receivable>>, a: Incoming, b: Incoming, day: string, day': string)
    requires a.id == b.id
    ensures (forall i | 0 <= i < |rows| ::
              SameReceivable(Endorsed(Reopened(Endorsed(Reopened(rows, a.id), a, a.payments, day), b.id), b,
                                      b.payments, day')[i],
                             Endorsed(Reopened(rows, b.id), b, b.payments, day')[i]))
       <==> FreedChecksWereOpen(rows, a, b)
  {
    forall i | 0 <= i < |rows|
      ensures SameReceivable(Endorsed(Reopened(Endorsed(Reopened(rows, a.id), a, a.payments, day), b.id), b,
                                      b.payments, day')[i],
                             Endorsed(Reopened(rows, b.id), b, b.payments, day')[i])
         <==> (Endorses(a.payments, rows[i].id) && !Endorses(b.payments, rows[i].id) ==>
                 rows[i].data.assignedIncoming == Some(a.id) || Unassigned(rows[i].data))
    {
      ReEndorsed(rows, a, b, day, day', i);
    }
  }

  /**
   Saving incoming invoice b over a, both with one id, equals saving b alone up to endorsement days,
   exactly when b displaces every invoice a displaced and the checks only a endorsed were free.
   */
  lemma IncomingSaveReplacesIff(
      f: Finance, a: Incoming, b: Incoming, ids: nat -> string, ids': nat -> string,
      stockId: string, stockId': string, day: string, day': string)
    requires a.id == b.id
    ensures SameUpToStamps(SaveIncoming(SaveIncoming(f, a, ids, stockId, day), b, ids', stockId', day'),
                           SaveIncoming(f, b, ids', stockId', day'))
       <==> && (forall i | 0 <= i < |f.incoming| :: Displaces(a, f.incoming[i]) ==> Displaces(b, f.incoming[i]))
            && FreedChecksWereOpen(f.receivables, a, b)
  {
    var first := SaveIncoming(f, a, ids, stockId, day);
    var twice, once := SaveIncoming(first, b, ids', stockId', day'), SaveIncoming(f, b, ids', stockId', day');
    IncomingTables(f, a, ids, stockId, day, Other);
    IncomingListReplacedIff(f.incoming, a, b);
    assert twice.incoming[1..] == Filter(first.incoming, NotDisplacedBy(b));
    assert once.incoming[1..] == Filter(f.incoming, NotDisplacedBy(b));
    ReEndorsedIff(f.receivables, a, b, day, day');
  }

  /** Nothing in the books belongs to this invoice id yet. */
  predicate IdUnused(f: Finance, id: string) {
    var o := FromIncoming(id);
    From(f.movements, o) == [] && From(f.payables, o) == [] && From(f.stock, o) == []
  }

  lemma EndorsedThenReopened(rows: seq<Row<Receivable>>, inv: Incoming, day: string, i: nat)
    requires i < |rows|
    ensures SameReceivable(Reopened(Endorsed(Reopened(rows, inv.id), inv, inv.payments, day), inv.id)[i], rows[i])
       <==> (rows[i].data.assignedIncoming == Some(inv.id) || Endorses(inv.payments, rows[i].id)
             ==> Unassigned(rows[i].data))
  {
  }

  lemma IncomingListRestored(invoices: seq<Incoming>, inv: Incoming)
    ensures Filter([inv] + Filter(invoices, NotDisplacedBy(inv)), OtherIncoming(inv.id)) == invoices
       <==> forall i | 0 <= i < |invoices| :: !Displaces(inv, invoices[i])
  {
    var kept := Filter(invoices, NotDisplacedBy(inv));
    forall i | 0 <= i < |kept| ensures kept[i].id != inv.id {
      FilterMember(invoices, NotDisplacedBy(inv), kept[i]);
    }
    FilterSize(kept, OtherIncoming(inv.id));
    FilterConcat([inv], kept, OtherIncoming(inv.id));
    FilterSize(invoices, NotDisplacedBy(inv));
  }

  lemma IncomingTablesRestored(f: Finance, inv: Incoming, ids: nat -> string, stockId: string, day: string)
    ensures var back := RemoveIncoming(SaveIncoming(f, inv, ids, stockId, day), inv.id);
            (back.movements == f.movements && back.payables == f.payables && back.stock == f.stock)
            <==> IdUnused(f, inv.id)
  {
    var o := FromIncoming(inv.id);
    IncomingTables(f, inv, ids, stockId, day, o);
    WithoutMeans(f.movements, o, o);
    WithoutMeans(f.payables, o, o);
    WithoutMeans(f.stock, o, o);
  }

  /**
   Removing an incoming invoice right after saving it restores the books up to endorsement days exactly
   when it displaced nothing, its id was unused, and the checks it touched were free.
   */
  lemma IncomingRemoveUndoesSaveIff(f: Finance, inv: Incoming, ids: nat -> string, stockId: string, day: string)
    ensures SameUpToStamps(RemoveIncoming(SaveIncoming(f, inv, ids, stockId, day), inv.id), f)
       <==> && (forall i | 0 <= i < |f.incoming| :: !Displaces(inv, f.incoming[i]))
            && IdUnused(f, inv.id)
            && (forall i | 0 <= i < |f.receivables| ::
                  f.receivables[i].data.assignedIncoming == Some(inv.id) || Endorses(inv.payments, f.receivables[i].id)
                  ==> Unassigned(f.receivables[i].data))
  {
    var back := RemoveIncoming(SaveIncoming(f, inv, ids, stockId, day), inv.id);
    IncomingListRestored(f.incoming, inv);
    IncomingTablesRestored(f, inv, ids, stockId, day);
    forall i | 0 <= i < |f.receivables|
      ensures SameReceivable(back.receivables[i], f.receivables[i])
         <==> (f.receivables[i].data.assignedIncoming == Some(inv.id) || Endorses(inv.payments, f.receivables[i].id)
               ==> Unassigned(f.receivables[i].data))
    {
      EndorsedThenReopened(f.receivables, inv, day, i);
    }
  }
}
