/**
 What every run of the books keeps: each invoice has posted exactly its own rows, no row outlives its
 invoice, and the sum of the account balances is what the invoices say.
 */
module FinanceLedger {
  import opened Common
  import opened Lists
  import opened Settlement
  import opened SettlementMoney
  import opened FinanceRuns
  import LedgerViews

  // ---------------------------------------------------------------- rows are what the invoices post

  function Numbered(number: string): Sale -> bool { (s: Sale) => s.number == number }

  function SaleOf(f: Finance, o: Origin): Option<Sale> {
    match o case FromSale(number) => First(f.sales, Numbered(number)) case _ => None
  }

  function InvoiceOf(f: Finance, o: Origin): Option<Incoming> {
    match o case FromIncoming(id) => First(f.incoming, InvoiceWith(id)) case _ => None
  }

  function MovementsFor(sale: Option<Sale>, invoice: Option<Incoming>): seq<Transfer> {
    if sale.Some? then Picked(sale.value.payments, SaleMovement(sale.value))
    else if invoice.Some? then Picked(invoice.value.payments, IncomingMovement(invoice.value)) else []
  }

  function ChecksFor(sale: Option<Sale>): seq<Receivable> {
    if sale.Some? then Picked(sale.value.payments, SaleCheck(sale.value)) else []
  }

  function PayablesFor(invoice: Option<Incoming>): seq<Payable> {
    if invoice.Some? then Picked(invoice.value.payments, IncomingCheck(invoice.value)) else []
  }

  function StockFor(sale: Option<Sale>, invoice: Option<Incoming>): seq<Stock> {
    if sale.Some? then Picked(sale.value.payments, SaleStock(sale.value))
    else if invoice.Some? then IncomingStock(invoice.value) else []
  }

  /** A check as it was received, whatever has happened to it since. */
  function AsReceived(r: Receivable): Receivable {
    Receivable(r.customer, r.amount, r.checkNo, r.dueDate, Open, "", None, "", "", None, "")
  }

  function Received(rows: seq<Row<Receivable>>): seq<Receivable> {
    if rows == [] then [] else [AsReceived(rows[0].data)] + Received(rows[1..])
  }

  /** The rows of one origin are what its invoice posts, and there are none without an invoice. */
  predicate BookedAt(f: Finance, o: Origin) {
    && Contents(From(f.movements, o)) == MovementsFor(SaleOf(f, o), InvoiceOf(f, o))
    && Received(From(f.receivables, o)) == ChecksFor(SaleOf(f, o))
    && Contents(From(f.payables, o)) == PayablesFor(InvoiceOf(f, o))
    && Contents(From(f.stock, o)) == StockFor(SaleOf(f, o), InvoiceOf(f, o))
  }

  ghost predicate Booked(f: Finance) {
    forall o: Origin | !o.Other? :: BookedAt(f, o)
  }

  lemma {:induction false} ReceivedPosted(payments: seq<Payment>, s: Sale, o: Origin, ids: nat -> string)
    ensures Received(Posted(payments, SaleCheck(s), o, ids)) == Picked(payments, SaleCheck(s))
  {
    if payments != [] {
      var n := |payments| - 1;
      ReceivedPosted(payments[..n], s, o, ids);
      var earlier := Posted(payments[..n], SaleCheck(s), o, ids);
      match SaleCheck(s)(payments[n])
      case None =>
        assert [] + earlier == earlier;
        assert [] + Picked(payments[..n], SaleCheck(s)) == Picked(payments[..n], SaleCheck(s));
      case Some(v) => assert ([Row(ids(n), o, v)] + earlier)[1..] == earlier;
    }
  }

  /** Two tables of checks that differ only in what has happened to them. */
  predicate SameReceived(a: seq<Row<Receivable>>, b: seq<Row<Receivable>>) {
    |a| == |b| && forall i | 0 <= i < |a| ::
      a[i].id == b[i].id && a[i].origin == b[i].origin && AsReceived(a[i].data) == AsReceived(b[i].data)
  }

  lemma {:induction false} ReceivedKept(a: seq<Row<Receivable>>, b: seq<Row<Receivable>>, o: Origin)
    requires SameReceived(a, b)
    ensures Received(From(a, o)) == Received(From(b, o))
  {
    if a != [] {
      ReceivedKept(a[1..], b[1..], o);
      var restA, restB := From(a[1..], o), From(b[1..], o);
      if a[0].origin == o {
        assert From(a, o)[1..] == restA && From(b, o)[1..] == restB;
      } else {
        assert [] + restA == restA && [] + restB == restB;
      }
    }
  }

  lemma ReceivedAfterSave(rows: seq<Row<Receivable>>, inv: Incoming, day: string)
    ensures SameReceived(rows, Endorsed(Reopened(rows, inv.id), inv, inv.payments, day))
  {
  }

  lemma ReceivedAfterReopen(rows: seq<Row<Receivable>>, id: string)
    ensures SameReceived(rows, Reopened(rows, id))
  {
  }

  lemma ReceivedAfterMark(rows: seq<Row<Receivable>>, id: string, status: Status, day: string)
    ensures SameReceived(rows, StatusRows(rows, id, status, day))
  {
  }

  // ---------------------------------------------------------------- each step keeps the rows exact

  lemma SaleFoundAfterSave(f: Finance, s: Sale, number: string)
    ensures First([s] + Filter(f.sales, OtherNumber(s.number)), Numbered(number))
         == if number == s.number then Some(s) else First(f.sales, Numbered(number))
  {
    var kept := Filter(f.sales, OtherNumber(s.number));
    assert ([s] + kept)[1..] == kept;
    FirstFiltered(f.sales, OtherNumber(s.number), Numbered(number));
  }

  lemma SaveSaleBooks(f: Finance, s: Sale, ids: nat -> string, p: Origin)
    requires BookedAt(f, p) || p == FromSale(s.number)
    requires p == FromSale(s.number) ==> From(f.payables, p) == []
    ensures BookedAt(SaveSale(f, s, ids), p)
  {
    var o := FromSale(s.number);
    SaleTables(f, s, ids, p);
    if p.FromSale? { SaleFoundAfterSave(f, s, p.number); }
    PostedMeans(s.payments, SaleMovement(s), o, ids);
    PostedMeans(s.payments, SaleStock(s), o, ids);
    ReceivedPosted(s.payments, s, o, ids);
  }

  lemma SaleFoundAfterRemove(f: Finance, s: Sale, number: string)
    requires Keyed(f) && s in f.sales
    ensures First(Filter(f.sales, OtherSale(s.id)), Numbered(number))
         == if number == s.number then None else First(f.sales, Numbered(number))
  {
    FirstFiltered(f.sales, OtherSale(s.id), Numbered(number));
    forall x | x in f.sales && Numbered(number)(x) ensures OtherSale(s.id)(x) <==> number != s.number {
      if number == s.number {
        DistinctAgree(f.sales, SaleNumber(), x, s);
      } else if x.id == s.id {
        DistinctAgree(f.sales, SaleId(), x, s);
      }
    }
  }

  lemma RemoveSaleBooks(f: Finance, s: Sale, p: Origin)
    requires Keyed(f) && s in f.sales && BookedAt(f, p)
    ensures BookedAt(RemoveSale(f, s), p)
  {
    var o := FromSale(s.number);
    if p.FromSale? { SaleFoundAfterRemove(f, s, p.number); }
    WithoutMeans(f.movements, o, p);
    WithoutMeans(f.receivables, o, p);
    WithoutMeans(f.stock, o, p);
  }

  lemma SaveIncomingBooks(f: Finance, inv: Incoming, ids: nat -> string, stockId: string, day: string, p: Origin)
    requires Keyed(f) && BookedAt(f, p) && !(p.FromIncoming? && Dropped(f, inv, p.id))
    ensures BookedAt(SaveIncoming(f, inv, ids, stockId, day), p)
  {
    var o := FromIncoming(inv.id);
    IncomingTables(f, inv, ids, stockId, day, p);
    if p.FromIncoming? { FoundAfterSave(f, inv, p.id); }
    PostedMeans(inv.payments, IncomingMovement(inv), o, ids);
    PostedMeans(inv.payments, IncomingCheck(inv), o, ids);
    StockRowsFrom(inv, stockId);
    ReceivedAfterSave(f.receivables, inv, day);
    ReceivedKept(f.receivables, Endorsed(Reopened(f.receivables, inv.id), inv, inv.payments, day), p);
  }

  lemma RemoveIncomingBooks(f: Finance, id: string, p: Origin)
    requires BookedAt(f, p)
    ensures BookedAt(RemoveIncoming(f, id), p)
  {
    var o := FromIncoming(id);
    if p.FromIncoming? {
      FirstFiltered(f.incoming, OtherIncoming(id), InvoiceWith(p.id));
    }
    WithoutMeans(f.movements, o, p);
    WithoutMeans(f.payables, o, p);
    WithoutMeans(f.stock, o, p);
    ReceivedAfterReopen(f.receivables, id);
    ReceivedKept(f.receivables, Reopened(f.receivables, id), p);
  }

  lemma AssignBooks(f: Finance, checkNo: string, to: string, docId: string, day: string, p: Origin)
    requires BookedAt(f, p)
    ensures BookedAt(AssignCheck(f, checkNo, to, docId, day), p)
  {
    var g := AssignCheck(f, checkNo, to, docId, day);
    assert SameReceived(f.receivables, g.receivables);
    ReceivedKept(f.receivables, g.receivables, p);
  }

  /** Lines that post the same, post the same together. */
  lemma {:induction false} PickedSame<A>(a: seq<Payment>, b: seq<Payment>, pickA: Pick<A>, pickB: Pick<A>)
    requires |a| == |b| && forall i | 0 <= i < |a| :: pickA(a[i]) == pickB(b[i])
    ensures Picked(a, pickA) == Picked(b, pickB)
  {
    if a != [] {
      var n := |a| - 1;
      assert a[n] == a[|a| - 1] && b[n] == b[|b| - 1];
      forall i | 0 <= i < n ensures pickA(a[..n][i]) == pickB(b[..n][i]) {
        assert a[..n][i] == a[i] && b[..n][i] == b[i];
      }
      PickedSame(a[..n], b[..n], pickA, pickB);
    }
  }

  lemma ReturnPostsTheSame(inv: Incoming, source: string, docId: string)
    requires Tidy(inv.payments) && docId != ""
    ensures var after := InvoiceAfter(inv, source, docId);
            && Picked(after.payments, IncomingMovement(after)) == Picked(inv.payments, IncomingMovement(inv))
            && Picked(after.payments, IncomingCheck(after)) == Picked(inv.payments, IncomingCheck(inv))
            && IncomingStock(after) == IncomingStock(inv)
  {
    var after := InvoiceAfter(inv, source, docId);
    PickedSame(after.payments, inv.payments, IncomingMovement(after), IncomingMovement(inv));
    PickedSame(after.payments, inv.payments, IncomingCheck(after), IncomingCheck(inv));
  }

  lemma ReturnKeepsPostings(f: Finance, source: string, docId: string, p: Origin)
    requires docId != "" && forall inv | inv in f.incoming :: Tidy(inv.payments)
    ensures var before, after := InvoiceOf(f, p),
                                 InvoiceOf(f.(incoming := InvoicesAfter(f.incoming, source, docId)), p);
            && MovementsFor(None, after) == MovementsFor(None, before)
            && PayablesFor(after) == PayablesFor(before)
            && StockFor(None, after) == StockFor(None, before)
  {
    if p.FromIncoming? {
      FoundAfterReturn(f.incoming, source, docId, p.id);
      FirstMeans(f.incoming, InvoiceWith(p.id));
      if InvoiceOf(f, p).Some? { ReturnPostsTheSame(InvoiceOf(f, p).value, source, docId); }
    }
  }

  lemma MarkBooks(f: Finance, id: string, status: Status, day: string, p: Origin)
    requires Keyed(f) && BookedAt(f, p)
    ensures BookedAt(SetStatus(f, id, status, day), p)
  {
    var g := SetStatus(f, id, status, day);
    ReceivedAfterMark(f.receivables, id, status, day);
    ReceivedKept(f.receivables, StatusRows(f.receivables, id, status, day), p);
    FirstMeans(f.receivables, RowWith(id));
    match First(f.receivables, RowWith(id))
    case None =>
    case Some(selected) =>
      if IsReturn(status) && selected.data.assignedIncoming.Some? {
        ReturnKeepsPostings(f, selected.data.assignedIncoming.value, id, p);
      }
      assert InvoiceOf(g, p) == InvoiceOf(f.(incoming := g.incoming), p) && SaleOf(g, p) == SaleOf(f, p);
  }

  // ---------------------------------------------------------------- the invariant of every run

  ghost predicate Inv(f: Finance) {
    Keyed(f) && Ref(f) && Booked(f)
  }

  lemma EmptyBooks()
    ensures Inv(Finance([], [], [], [], [], []))
  {
  }

  lemma StepKeepsBooked(f: Finance, step: Step)
    requires Inv(f) && Enabled(f, step)
    ensures Booked(Next(f, step))
  {
    forall p: Origin | !p.Other? ensures BookedAt(Next(f, step), p) {
      assert BookedAt(f, p);
      match step
      case Sell(sale, ids) =>
        if p.FromSale? { NothingFrom(f, p); }
        SaveSaleBooks(f, sale, ids, p);
      case Unsell(sale) => RemoveSaleBooks(f, sale, p);
      case Receive(inv, ids, stockId, day) => SaveIncomingBooks(f, inv, ids, stockId, day, p);
      case Unreceive(id) => RemoveIncomingBooks(f, id, p);
      case Assign(checkNo, to, docId, day) => AssignBooks(f, checkNo, to, docId, day, p);
      case Mark(id, status, day) => MarkBooks(f, id, status, day, p);
    }
  }

  lemma NothingFrom(f: Finance, p: Origin)
    requires BookedAt(f, p) && p.FromSale?
    ensures From(f.payables, p) == []
  {
    assert Contents(From(f.payables, p)) == [];
  }

  lemma StepKeepsInv(f: Finance, step: Step)
    requires Inv(f) && Enabled(f, step)
    ensures Inv(Next(f, step))
  {
    StepKeepsBooked(f, step);
    match step
    case Sell(sale, ids) => SaveSaleKeepsKeys(f, sale, ids); SaveSaleKeepsRef(f, sale, ids);
    case Unsell(sale) => RemoveSaleKeepsKeysAndRef(f, sale);
    case Receive(inv, ids, stockId, day) =>
      IncomingListKeyed(f, inv, ids, stockId, day);
      SaveIncomingKeepsRefIff(f, inv, ids, stockId, day);
    case Unreceive(id) => RemoveIncomingKeepsKeysAndRef(f, id);
    case Assign(checkNo, to, docId, day) => AssignKeepsKeysAndRef(f, checkNo, to, docId, day);
    case Mark(id, status, day) => MarkKeepsKeys(f, id, status, day); MarkKeepsRef(f, id, status, day);
  }

  function After(f: Finance, steps: seq<Step>): Finance {
    if steps == [] then f else Next(After(f, steps[..|steps| - 1]), steps[|steps| - 1])
  }

  predicate IsRun(f: Finance, steps: seq<Step>) {
    steps == [] || (IsRun(f, steps[..|steps| - 1]) && Enabled(After(f, steps[..|steps| - 1]), steps[|steps| - 1]))
  }

  lemma {:induction false} RunKeepsInv(f: Finance, steps: seq<Step>)
    requires Inv(f) && IsRun(f, steps)
    ensures Inv(After(f, steps))
  {
    if steps != [] {
      var n := |steps| - 1;
      RunKeepsInv(f, steps[..n]);
      StepKeepsInv(After(f, steps[..n]), steps[n]);
    }
  }

  // ---------------------------------------------------------------- balances are what the invoices say

  function SaleCash(known: seq<string>): Sale -> int { (s: Sale) => SumOf(s.payments, CashTo(known)) }

  /** Cash an incoming invoice has taken out of the known accounts, as a negative amount. */
  function IncomingCash(known: seq<string>): Incoming -> int { (x: Incoming) => SumOf(x.payments, CashFrom(known)) }

  /** How far the account balances are from what the stored invoices account for. */
  function Unexplained(f: Finance, known: seq<string>): int {
    LedgerViews.Total(known, Legs(f.movements)) - SumOf(f.sales, SaleCash(known))
      - SumOf(f.incoming, IncomingCash(known))
  }

  lemma {:induction false} ValueSplit<A>(rows: seq<Row<A>>, o: Origin, worth: A -> int)
    ensures Value(rows, worth) == Value(Without(rows, o), worth) + Value(From(rows, o), worth)
  {
    if rows != [] {
      var head, tail := rows[0], rows[1..];
      ValueSplit(tail, o, worth);
      assert rows == [head] + tail;
      ValueConcat([head], tail, worth);
      ValueConcat([head], Without(tail, o), worth);
      ValueConcat([head], From(tail, o), worth);
      assert [] + Without(tail, o) == Without(tail, o) && [] + From(tail, o) == From(tail, o);
    }
  }

  /** Replacing one origin's movements changes the sum of the balances by their worth. */
  lemma TotalReplaced(known: seq<string>, rows: seq<Row<Transfer>>, posted: seq<Row<Transfer>>, o: Origin)
    ensures LedgerViews.Total(known, Legs(Replace(rows, posted, o)))
         == LedgerViews.Total(known, Legs(rows)) + Value(posted, KnownLeg(known))
           - Value(From(rows, o), KnownLeg(known))
  {
    TotalIsValue(known, rows);
    TotalIsValue(known, Replace(rows, posted, o));
    ValueConcat(posted, Without(rows, o), KnownLeg(known));
    ValueSplit(rows, o, KnownLeg(known));
  }

  function CashOfSale(sale: Option<Sale>, known: seq<string>): int {
    match sale case None => 0 case Some(s) => SaleCash(known)(s)
  }

  function CashOfIncoming(invoice: Option<Incoming>, known: seq<string>): int {
    match invoice case None => 0 case Some(x) => IncomingCash(known)(x)
  }

  /** The movements in the books for one origin are worth the cash lines of its invoice. */
  lemma BookedCash(f: Finance, o: Origin, known: seq<string>)
    requires DistinctAccounts(known) && BookedAt(f, o)
    ensures Value(From(f.movements, o), KnownLeg(known))
        == CashOfSale(SaleOf(f, o), known) + CashOfIncoming(InvoiceOf(f, o), known)
  {
    if SaleOf(f, o).Some? {
      CashArrives(SaleOf(f, o).value, known);
    } else if InvoiceOf(f, o).Some? {
      CashLeaves(InvoiceOf(f, o).value, known);
    }
  }

  lemma SellKeepsExplained(f: Finance, s: Sale, ids: nat -> string, known: seq<string>)
    requires DistinctAccounts(known) && Inv(f)
    ensures Unexplained(SaveSale(f, s, ids), known) == Unexplained(f, known)
  {
    var g, o := SaveSale(f, s, ids), FromSale(s.number);
    assert BookedAt(f, o);
    TotalReplaced(known, f.movements, Posted(s.payments, SaleMovement(s), o, ids), o);
    BookedCash(f, o, known);
    PostedMeans(s.payments, SaleMovement(s), o, ids);
    CashArrives(s, known);
    assert g.sales[1..] == Filter(f.sales, OtherNumber(s.number));
    OneSaleDropped(f, OtherNumber(s.number), s.number, known);
  }

  lemma OneSaleDropped(f: Finance, keep: Sale -> bool, number: string, known: seq<string>)
    requires Keyed(f) && forall x | x in f.sales :: keep(x) <==> x.number != number
    ensures SumOf(Filter(f.sales, keep), SaleCash(known))
         == SumOf(f.sales, SaleCash(known)) - CashOfSale(First(f.sales, Numbered(number)), known)
  {
    forall i, j | 0 <= i < j < |f.sales| ensures !(Numbered(number)(f.sales[i]) && Numbered(number)(f.sales[j])) {
      assert SaleNumber()(f.sales[i]) != SaleNumber()(f.sales[j]);
    }
    SumDropped(f.sales, keep, Numbered(number), SaleCash(known));
  }

  lemma OneIncomingDropped(f: Finance, keep: Incoming -> bool, id: string, known: seq<string>)
    requires Keyed(f) && forall x | x in f.incoming :: keep(x) <==> x.id != id
    ensures SumOf(Filter(f.incoming, keep), IncomingCash(known))
         == SumOf(f.incoming, IncomingCash(known)) - CashOfIncoming(First(f.incoming, InvoiceWith(id)), known)
  {
    forall i, j | 0 <= i < j < |f.incoming|
      ensures !(InvoiceWith(id)(f.incoming[i]) && InvoiceWith(id)(f.incoming[j]))
    {
      assert IncomingId()(f.incoming[i]) != IncomingId()(f.incoming[j]);
    }
    SumDropped(f.incoming, keep, InvoiceWith(id), IncomingCash(known));
  }

  lemma UnsellKeepsExplained(f: Finance, s: Sale, known: seq<string>)
    requires DistinctAccounts(known) && Inv(f) && s in f.sales
    ensures Unexplained(RemoveSale(f, s), known) == Unexplained(f, known)
  {
    var o := FromSale(s.number);
    assert BookedAt(f, o);
    assert [] + Without(f.movements, o) == Without(f.movements, o);
    TotalReplaced(known, f.movements, [], o);
    BookedCash(f, o, known);
    forall x | x in f.sales ensures OtherSale(s.id)(x) <==> x.number != s.number {
      if x.id == s.id { DistinctAgree(f.sales, SaleId(), x, s); }
      if x.number == s.number { DistinctAgree(f.sales, SaleNumber(), x, s); }
    }
    OneSaleDropped(f, OtherSale(s.id), s.number, known);
  }

  lemma ReceiveKeepsExplained(f: Finance, inv: Incoming, ids: nat -> string, stockId: string, day: string,
      known: seq<string>)
    requires DistinctAccounts(known) && Inv(f) && OnlyRegistration(f, inv)
    ensures Unexplained(SaveIncoming(f, inv, ids, stockId, day), known) == Unexplained(f, known)
  {
    var g, o := SaveIncoming(f, inv, ids, stockId, day), FromIncoming(inv.id);
    assert BookedAt(f, o);
    TotalReplaced(known, f.movements, Posted(inv.payments, IncomingMovement(inv), o, ids), o);
    BookedCash(f, o, known);
    PostedMeans(inv.payments, IncomingMovement(inv), o, ids);
    CashLeaves(inv, known);
    assert g.incoming[1..] == Filter(f.incoming, NotDisplacedBy(inv));
    OneIncomingDropped(f, NotDisplacedBy(inv), inv.id, known);
  }

  lemma UnreceiveKeepsExplained(f: Finance, id: string, known: seq<string>)
    requires DistinctAccounts(known) && Inv(f)
    ensures Unexplained(RemoveIncoming(f, id), known) == Unexplained(f, known)
  {
    var o := FromIncoming(id);
    assert BookedAt(f, o);
    assert [] + Without(f.movements, o) == Without(f.movements, o);
    TotalReplaced(known, f.movements, [], o);
    BookedCash(f, o, known);
    OneIncomingDropped(f, OtherIncoming(id), id, known);
  }

  lemma ReturnMovesNoCash(inv: Incoming, source: string, docId: string, known: seq<string>)
    requires Tidy(inv.payments) && docId != ""
    ensures IncomingCash(known)(InvoiceAfter(inv, source, docId)) == IncomingCash(known)(inv)
  {
    var after := InvoiceAfter(inv, source, docId);
    forall i | 0 <= i < |inv.payments|
      ensures CashFrom(known)(inv.payments[i]) == CashFrom(known)(after.payments[i])
    {
    }
    SumSame(inv.payments, after.payments, CashFrom(known));
  }

  lemma MarkKeepsExplained(f: Finance, id: string, status: Status, day: string, known: seq<string>)
    requires Keyed(f)
    ensures Unexplained(SetStatus(f, id, status, day), known) == Unexplained(f, known)
  {
    var g := SetStatus(f, id, status, day);
    if g.incoming != f.incoming {
      FirstMeans(f.receivables, RowWith(id));
      var source := First(f.receivables, RowWith(id)).value.data.assignedIncoming.value;
      forall i | 0 <= i < |f.incoming|
        ensures IncomingCash(known)(f.incoming[i]) == IncomingCash(known)(g.incoming[i])
      {
        assert f.incoming[i] in f.incoming;
        ReturnMovesNoCash(f.incoming[i], source, id, known);
      }
      SumSame(f.incoming, g.incoming, IncomingCash(known));
    }
  }

  lemma StepKeepsExplained(f: Finance, step: Step, known: seq<string>)
    requires DistinctAccounts(known) && Inv(f) && Enabled(f, step)
    ensures Unexplained(Next(f, step), known) == Unexplained(f, known)
  {
    match step
    case Sell(sale, ids) => SellKeepsExplained(f, sale, ids, known);
    case Unsell(sale) => UnsellKeepsExplained(f, sale, known);
    case Receive(inv, ids, stockId, day) => ReceiveKeepsExplained(f, inv, ids, stockId, day, known);
    case Unreceive(id) => UnreceiveKeepsExplained(f, id, known);
    case Assign(_, _, _, _) =>
    case Mark(id, status, day) => MarkKeepsExplained(f, id, status, day, known);
  }

  /** Over every run, balances move exactly as the cash lines of the stored invoices do. */
  lemma {:induction false} RunKeepsExplained(f: Finance, steps: seq<Step>, known: seq<string>)
    requires DistinctAccounts(known) && Inv(f) && IsRun(f, steps)
    ensures Unexplained(After(f, steps), known) == Unexplained(f, known)
  {
    if steps != [] {
      var n := |steps| - 1;
      RunKeepsExplained(f, steps[..n], known);
      RunKeepsInv(f, steps[..n]);
      StepKeepsExplained(After(f, steps[..n]), steps[n], known);
    }
  }

  // ---------------------------------------------------------------- registering one source twice

  predicate PostsNothing(inv: Incoming) {
    && MovementsFor(None, Some(inv)) == [] && PayablesFor(Some(inv)) == [] && StockFor(None, Some(inv)) == []
  }

  lemma DroppedRowsStay(f: Finance, inv: Incoming, ids: nat -> string, stockId: string, day: string, x: Incoming)
    requires Keyed(f) && Booked(f) && x in f.incoming && x.id != inv.id && Displaces(inv, x)
    ensures BookedAt(SaveIncoming(f, inv, ids, stockId, day), FromIncoming(x.id)) <==> PostsNothing(x)
  {
    var p := FromIncoming(x.id);
    assert BookedAt(f, p);
    IncomingTables(f, inv, ids, stockId, day, p);
    FoundAfterSave(f, inv, x.id);
    FirstMeans(f.incoming, InvoiceWith(x.id));
    DistinctAgree(f.incoming, IncomingId(), x, First(f.incoming, InvoiceWith(x.id)).value);
    ReceivedAfterSave(f.receivables, inv, day);
    ReceivedKept(f.receivables, Endorsed(Reopened(f.receivables, inv.id), inv, inv.payments, day), p);
  }

  /**
   Saving an incoming invoice leaves rows without an invoice exactly when it drops another registration
   of its operational source that has posted something.
   */
  lemma SaveIncomingKeepsBookedIff(f: Finance, inv: Incoming, ids: nat -> string, stockId: string, day: string)
    requires Keyed(f) && Booked(f)
    ensures Booked(SaveIncoming(f, inv, ids, stockId, day))
       <==> forall x | x in f.incoming && x.id != inv.id && Displaces(inv, x) :: PostsNothing(x)
  {
    var g := SaveIncoming(f, inv, ids, stockId, day);
    forall x | x in f.incoming && x.id != inv.id && Displaces(inv, x)
      ensures BookedAt(g, FromIncoming(x.id)) <==> PostsNothing(x)
    {
      DroppedRowsStay(f, inv, ids, stockId, day, x);
    }
    if forall x | x in f.incoming && x.id != inv.id && Displaces(inv, x) :: PostsNothing(x) {
      forall p: Origin | !p.Other? ensures BookedAt(g, p) {
        if !(p.FromIncoming? && Dropped(f, inv, p.id)) {
          assert BookedAt(f, p);
          SaveIncomingBooks(f, inv, ids, stockId, day, p);
        }
      }
    }
  }

  // A yarn delivery paid with check "c1", and its second registration under a new id.
  function PaidWithCheck(): Incoming {
    var line := Payment(AssignReceivable, 5, "", "7", "", "c1", "", 0, 0);
    Incoming("IN1", "mill", 5, 5, false, "yarn", "yarn", 1, 5, "operational_yarn_in", "9", [line])
  }

  function RegisteredAgain(): Incoming {
    PaidWithCheck().(id := "IN2", payments := [Payment(Credit, 5, "", "", "", "", "", 0, 0)])
  }

  function EndorsedCheck(): Row<Receivable> {
    Row("c1", Other, Receivable("shop", 5, "7", "", Assigned, "mill", Some("IN1"), "d", "", None, ""))
  }

  function YarnRow(): Row<Stock> {
    Row("s1", FromIncoming("IN1"), Stock("mill", "yarn", "yarn", 1, 5, 5))
  }

  function BooksWithCheck(): Finance {
    Finance([], [PaidWithCheck()], [], [EndorsedCheck()], [], [YarnRow()])
  }

  lemma FilterOne<A>(x: A, keep: A -> bool)
    ensures Filter([x], keep) == if keep(x) then [x] else []
  {
    assert [x][1..] == [];
  }

  lemma PickedOne<A>(p: Payment, pick: Pick<A>)
    ensures Picked([p], pick) == match pick(p) { case None => [] case Some(v) => [v] }
  {
    assert [p][..0] == [];
  }

  lemma BooksWithCheckAreSound()
    ensures Inv(BooksWithCheck())
  {
    var f, first, check := BooksWithCheck(), PaidWithCheck(), EndorsedCheck();
    forall p: Origin | !p.Other? ensures BookedAt(f, p) {
      FilterOne(check, IsFrom(p));
      FilterOne(YarnRow(), IsFrom(p));
      PickedOne(first.payments[0], IncomingMovement(first));
      PickedOne(first.payments[0], IncomingCheck(first));
      if p == FromIncoming("IN1") {
        assert From(f.stock, p) == [YarnRow()] && IncomingStock(first) == [YarnRow().data];
        assert InvoiceOf(f, p) == Some(first);
      } else {
        assert From(f.stock, p) == [];
        assert InvoiceOf(f, p) == None;
      }
    }
    assert first.payments[0].docId == "c1";
    assert Referenced(f.incoming, check);
  }

  lemma OneLineIsAccepted(p: Payment)
    requires p.amount > 0 && LineProblem(p).None?
    ensures PaymentProblem([p], p.amount).None?
  {
    assert [p][..0] == [];
    assert Sum([p]) == Sum([p][..0]) + p.amount;
    assert FirstProblem([p]) == LineProblem(p);
    ActiveAll([p]);
  }

  lemma RegisteredAgainIsAccepted()
    ensures IncomingAccepted(RegisteredAgain())
  {
    OneLineIsAccepted(Payment(Credit, 5, "", "", "", "", "", 0, 0));
  }

  /** The second registration orphans the check and leaves the first one's stock row behind. */
  lemma SecondRegistrationOrphansCheck(ids: nat -> string, stockId: string, day: string)
    ensures Inv(BooksWithCheck()) && IncomingAccepted(RegisteredAgain())
    ensures !Ref(SaveIncoming(BooksWithCheck(), RegisteredAgain(), ids, stockId, day))
    ensures !Booked(SaveIncoming(BooksWithCheck(), RegisteredAgain(), ids, stockId, day))
  {
    var f, first, again, check := BooksWithCheck(), PaidWithCheck(), RegisteredAgain(), EndorsedCheck();
    BooksWithCheckAreSound();
    RegisteredAgainIsAccepted();
    assert first in f.incoming && Displaces(again, first) && Dropped(f, again, "IN1");
    assert !Ref(SaveIncoming(f, again, ids, stockId, day)) by {
      assert check in f.receivables && !Endorses(again.payments, check.id);
      SaveIncomingKeepsRefIff(f, again, ids, stockId, day);
    }
    assert !Booked(SaveIncoming(f, again, ids, stockId, day)) by {
      assert StockFor(None, Some(first)) == [YarnRow().data];
      SaveIncomingKeepsBookedIff(f, again, ids, stockId, day);
    }
  }

  // ---------------------------------------------------------------- returning an endorsed check

  /** What is still owed to a customer on financial incoming invoices. */
  function OwedOn(customer: string): Incoming -> int {
    (x: Incoming) =>
      if x.customer == customer && !x.nonFinancial then
        var rest := x.amount - SumOf(x.payments, NotOnCredit());
        if rest > 0 then rest else 0
      else 0
  }

  function PayableTo(f: Finance, customer: string): int { SumOf(f.incoming, OwedOn(customer)) }

  /** Nothing is owed on financial invoices that are paid in full, nor on any other. */
  lemma {:induction false} PaidOwesNothing(incoming: seq<Incoming>, customer: string)
    requires forall x | x in incoming && x.customer == customer && !x.nonFinancial ::
               SumOf(x.payments, NotOnCredit()) >= x.amount
    ensures SumOf(incoming, OwedOn(customer)) == 0
  {
    if incoming != [] {
      PaidOwesNothing(incoming[1..], customer);
      assert incoming[0] in incoming;
    }
  }

  function ReturnedBy(customer: string): Row<Receivable> -> int {
    (r: Row<Receivable>) => if r.data.customer == customer && IsReturn(r.data.status) then r.data.amount else 0
  }

  /** bouncedChecks of customerFinance. */
  function ReturnedTotal(f: Finance, customer: string): int { SumOf(f.receivables, ReturnedBy(customer)) }

  lemma {:induction false} ReturnKeepsSum(payments: seq<Payment>, docId: string)
    ensures Sum(OnCreditAgain(payments, docId)) == Sum(payments)
  {
    if payments != [] {
      var n := |payments| - 1;
      ReturnKeepsSum(payments[..n], docId);
      assert OnCreditAgain(payments, docId)[..n] == OnCreditAgain(payments[..n], docId);
    }
  }

  /** What the lines naming the check amount to. */
  function Naming(docId: string): Payment -> int {
    (p: Payment) => if p.docId == docId then p.amount else 0
  }

  /** The rewritten lines keep the payment total, and take what named the check out of what is paid. */
  lemma {:induction false} ReturnedLines(payments: seq<Payment>, docId: string)
    requires Tidy(payments) && docId != ""
    ensures Sum(OnCreditAgain(payments, docId)) == Sum(payments)
    ensures SumOf(OnCreditAgain(payments, docId), NotOnCredit())
         == SumOf(payments, NotOnCredit()) - SumOf(payments, Naming(docId))
  {
    ReturnKeepsSum(payments, docId);
    if payments != [] {
      assert forall i | 0 <= i < |payments[1..]| :: payments[1..][i] == payments[i + 1];
      ReturnedLines(payments[1..], docId);
      assert OnCreditAgain(payments, docId)[1..] == OnCreditAgain(payments[1..], docId);
    }
  }

  /** The invoice has one line for the check, of the check's amount. */
  predicate OneExactLine(inv: Incoming, docId: string, amount: int) {
    exists k | 0 <= k < |inv.payments| ::
      && inv.payments[k].docId == docId && inv.payments[k].amount == amount
      && forall i | 0 <= i < |inv.payments| && i != k :: inv.payments[i].docId != docId
  }

  lemma ExactLineNames(inv: Incoming, docId: string, amount: int)
    requires OneExactLine(inv, docId, amount)
    ensures SumOf(inv.payments, Naming(docId)) == amount
  {
    var k :| 0 <= k < |inv.payments| && inv.payments[k].docId == docId && inv.payments[k].amount == amount
             && forall i | 0 <= i < |inv.payments| && i != k :: inv.payments[i].docId != docId;
    SumOfOne(inv.payments, k, Naming(docId));
  }

  lemma ReturnedRow(f: Finance, id: string, status: Status, day: string, customer: string)
    requires Keyed(f) && Ref(f) && IsReturn(status)
    requires First(f.receivables, RowWith(id)).Some?
    requires var r := First(f.receivables, RowWith(id)).value; r.data.assignedIncoming.Some?
    ensures var r := First(f.receivables, RowWith(id)).value;
            ReturnedTotal(SetStatus(f, id, status, day), customer) ==
            ReturnedTotal(f, customer) + if r.data.customer == customer then r.data.amount else 0
  {
    FirstMeans(f.receivables, RowWith(id));
    var r := First(f.receivables, RowWith(id)).value;
    var k :| 0 <= k < |f.receivables| && f.receivables[k] == r;
    var after := StatusRows(f.receivables, id, status, day);
    forall i | 0 <= i < |f.receivables| && i != k ensures after[i] == f.receivables[i] {
      assert RowId()(f.receivables[i]) != RowId()(f.receivables[k]);
    }
    assert Referenced(f.incoming, r);
    SumChangedAt(f.receivables, after, k, ReturnedBy(customer));
  }

  /** What is left of an amount after a payment. */
  function Rest(amount: int, paid: int): nat { if amount > paid then amount - paid else 0 }

  lemma OwedAfterReturn(inv: Incoming, docId: string, customer: string)
    requires Tidy(inv.payments) && docId != ""
    ensures var paid := SumOf(inv.payments, NotOnCredit());
            OwedOn(customer)(InvoiceAfter(inv, inv.id, docId)) ==
            OwedOn(customer)(inv) + if customer == inv.customer && !inv.nonFinancial
                                    then Rest(inv.amount, paid - SumOf(inv.payments, Naming(docId)))
                                         - Rest(inv.amount, paid)
                                    else 0
  {
    ReturnedLines(inv.payments, docId);
  }

  lemma OneInvoiceRewritten(f: Finance, inv: Incoming, docId: string) returns (k: nat)
    requires Keyed(f) && inv in f.incoming
    ensures k < |f.incoming| && f.incoming[k] == inv
    ensures forall i | 0 <= i < |f.incoming| && i != k :: InvoicesAfter(f.incoming, inv.id, docId)[i] == f.incoming[i]
  {
    k :| 0 <= k < |f.incoming| && f.incoming[k] == inv;
    forall i | 0 <= i < |f.incoming| && i != k ensures InvoicesAfter(f.incoming, inv.id, docId)[i] == f.incoming[i] {
      assert IncomingId()(f.incoming[i]) != IncomingId()(f.incoming[k]);
    }
  }

  lemma ReturnedInvoice(f: Finance, inv: Incoming, docId: string, customer: string)
    requires Keyed(f) && First(f.incoming, InvoiceWith(inv.id)) == Some(inv) && docId != ""
    ensures var before, after := PayableTo(f, customer),
                                 PayableTo(f.(incoming := InvoicesAfter(f.incoming, inv.id, docId)), customer);
            var paid := SumOf(inv.payments, NotOnCredit());
            after == before + if customer == inv.customer && !inv.nonFinancial
                              then Rest(inv.amount, paid - SumOf(inv.payments, Naming(docId))) - Rest(inv.amount, paid)
                              else 0
  {
    FirstMeans(f.incoming, InvoiceWith(inv.id));
    var k := OneInvoiceRewritten(f, inv, docId);
    OwedAfterReturn(inv, docId, customer);
    SumChangedAt(f.incoming, InvoicesAfter(f.incoming, inv.id, docId), k, OwedOn(customer));
  }

  /**
   Returning or bouncing a check endorsed to an incoming invoice, however many lines name it: the invoice's
   payment total stays, the issuer's returned checks rise by the check's amount, what is owed to the endorsee on
   a financial invoice grows by what the lines naming the check had covered of it, and nobody else's figures move.
   */
  lemma ReturnMovesDebt(f: Finance, id: string, status: Status, day: string, inv: Incoming, customer: string)
    requires Inv(f) && IsReturn(status)
    requires First(f.receivables, RowWith(id)).Some?
    requires First(f.receivables, RowWith(id)).value.data.assignedIncoming == Some(inv.id)
    requires First(f.incoming, InvoiceWith(inv.id)) == Some(inv)
    ensures var g, r := SetStatus(f, id, status, day), First(f.receivables, RowWith(id)).value;
            var paid, named := SumOf(inv.payments, NotOnCredit()), SumOf(inv.payments, Naming(id));
            && First(g.incoming, InvoiceWith(inv.id)).Some?
            && Sum(First(g.incoming, InvoiceWith(inv.id)).value.payments) == Sum(inv.payments)
            && SumOf(First(g.incoming, InvoiceWith(inv.id)).value.payments, NotOnCredit()) == paid - named
            && ReturnedTotal(g, customer)
               == ReturnedTotal(f, customer) + (if r.data.customer == customer then r.data.amount else 0)
            && PayableTo(g, customer)
               == PayableTo(f, customer) + (if customer == inv.customer && !inv.nonFinancial
                                            then Rest(inv.amount, paid - named) - Rest(inv.amount, paid) else 0)
  {
    FirstMeans(f.receivables, RowWith(id));
    FirstMeans(f.incoming, InvoiceWith(inv.id));
    FoundAfterReturn(f.incoming, inv.id, id, inv.id);
    ReturnedLines(inv.payments, id);
    ReturnedRow(f, id, status, day, customer);
    ReturnedInvoice(f, inv, id, customer);
  }

  /**
   With one line of the check's amount for it, what is owed to the endorsee rises by exactly that amount if and
   only if the invoice was financial and not overpaid.
   */
  lemma ReturnMovesDebtIff(f: Finance, id: string, status: Status, day: string, inv: Incoming)
    requires Inv(f) && IsReturn(status)
    requires First(f.receivables, RowWith(id)).Some?
    requires var r := First(f.receivables, RowWith(id)).value;
             && r.data.amount > 0 && r.data.assignedIncoming == Some(inv.id)
             && OneExactLine(inv, id, r.data.amount)
    requires First(f.incoming, InvoiceWith(inv.id)) == Some(inv)
    ensures var g, r := SetStatus(f, id, status, day), First(f.receivables, RowWith(id)).value;
            PayableTo(g, inv.customer) == PayableTo(f, inv.customer) + r.data.amount
            <==> !inv.nonFinancial && SumOf(inv.payments, NotOnCredit()) <= inv.amount
  {
    ReturnMovesDebt(f, id, status, day, inv, inv.customer);
    ExactLineNames(inv, id, First(f.receivables, RowWith(id)).value.data.amount);
  }
}
