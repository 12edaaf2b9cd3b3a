/**
 The other half of the check references: every line of a stored incoming invoice that endorses a check is
 backed by a check in the table that is assigned to that invoice. Most steps of the books keep this
 (financial/web/src/App.jsx:4035-4118, 5581-5647); saving or removing a sale, and saving an incoming invoice,
 keep it exactly under a condition on the checks they touch.
 */
module FinanceBacking {
  import opened Common
  import opened Lists
  import opened Settlement
  import opened FinanceRuns
  import opened FinanceLedger

  type Checks = seq<Row<Receivable>>

  /** A check with this id is assigned to the invoice. */
  predicate LineBacked(rows: Checks, invoice: string, docId: string) {
    exists r | r in rows :: r.id == docId && r.data.assignedIncoming == Some(invoice)
  }

  ghost predicate InvoiceBacked(rows: Checks, inv: Incoming) {
    forall docId | Endorses(inv.payments, docId) :: LineBacked(rows, inv.id, docId)
  }

  ghost predicate AllBacked(rows: Checks, invoices: seq<Incoming>) {
    forall inv | inv in invoices :: InvoiceBacked(rows, inv)
  }

  ghost predicate Backed(f: Finance) {
    AllBacked(f.receivables, f.incoming)
  }

  // ---------------------------------------------------------------- sales

  /** No check of this sale has been endorsed to an incoming invoice. */
  predicate ChecksStayed(f: Finance, o: Origin) {
    forall r | r in f.receivables && r.origin == o :: r.data.assignedIncoming.None?
  }

  /** `rows` is the table of checks without those of one origin, with some unassigned ones besides. */
  ghost predicate LosesOrigin(f: Finance, rows: Checks, o: Origin) {
    && (forall r | r in f.receivables && r.origin != o :: r in rows)
    && (forall r | r in rows :: (r in f.receivables && r.origin != o) || r.data.assignedIncoming.None?)
  }

  lemma LosingOrigin(f: Finance, rows: Checks, o: Origin)
    requires Keyed(f) && Ref(f) && Backed(f) && LosesOrigin(f, rows, o)
    ensures AllBacked(rows, f.incoming) <==> ChecksStayed(f, o)
  {
    if ChecksStayed(f, o) {
      forall inv, docId | inv in f.incoming && Endorses(inv.payments, docId) ensures LineBacked(rows, inv.id, docId) {
        assert InvoiceBacked(f.receivables, inv);
        var r :| r in f.receivables && r.id == docId && r.data.assignedIncoming == Some(inv.id);
        assert r in rows;
      }
    } else {
      var r :| r in f.receivables && r.origin == o && r.data.assignedIncoming.Some?;
      LostCheckUnbacks(f, rows, o, r);
    }
  }

  lemma LostCheckUnbacks(f: Finance, rows: Checks, o: Origin, r: Row<Receivable>)
    requires Keyed(f) && Ref(f) && LosesOrigin(f, rows, o)
    requires r in f.receivables && r.origin == o && r.data.assignedIncoming.Some?
    ensures !AllBacked(rows, f.incoming)
  {
    assert Referenced(f.incoming, r);
    FirstMeans(f.incoming, InvoiceWith(r.data.assignedIncoming.value));
    var inv := First(f.incoming, InvoiceWith(r.data.assignedIncoming.value)).value;
    forall q | q in rows && q.id == r.id ensures q.data.assignedIncoming.None? {
      if q in f.receivables && q.origin != o {
        DistinctAgree(f.receivables, RowId(), q, r);
        assert false;
      }
    }
    assert Endorses(inv.payments, r.id) && !LineBacked(rows, inv.id, r.id);
  }

  /** Saving a sale keeps every endorsement backed exactly when none of its former checks had been endorsed. */
  lemma SaveSaleKeepsBackedIff(f: Finance, s: Sale, ids: nat -> string)
    requires Keyed(f) && Ref(f) && Backed(f)
    ensures Backed(SaveSale(f, s, ids)) <==> ChecksStayed(f, FromSale(s.number))
  {
    var o := FromSale(s.number);
    var posted, rows := Posted(s.payments, SaleCheck(s), o, ids), SaveSale(f, s, ids).receivables;
    forall r ensures r in Without(f.receivables, o) <==> r in f.receivables && r.origin != o {
      FilterMember(f.receivables, NotFrom(o), r);
    }
    forall r | r in posted ensures r.data.assignedIncoming.None? { PostedPick(s.payments, SaleCheck(s), o, ids, r); }
    LosingOrigin(f, rows, o);
  }

  /** So does removing one. */
  lemma RemoveSaleKeepsBackedIff(f: Finance, s: Sale)
    requires Keyed(f) && Ref(f) && Backed(f)
    ensures Backed(RemoveSale(f, s)) <==> ChecksStayed(f, FromSale(s.number))
  {
    var o := FromSale(s.number);
    forall r ensures r in Without(f.receivables, o) <==> r in f.receivables && r.origin != o {
      FilterMember(f.receivables, NotFrom(o), r);
    }
    LosingOrigin(f, Without(f.receivables, o), o);
  }

  // ---------------------------------------------------------------- incoming invoices

  predicate HasCheck(rows: Checks, docId: string) {
    exists r | r in rows :: r.id == docId
  }

  /** The check is free, endorsed to inv itself, or to a registration that saving inv drops. */
  predicate Takeable(f: Finance, inv: Incoming, r: Row<Receivable>) {
    match r.data.assignedIncoming
    case None => true
    case Some(id) => id == inv.id || Dropped(f, inv, id)
  }

  /** Every check the invoice endorses is in the table and may be taken. */
  ghost predicate TakesFreeChecks(f: Finance, inv: Incoming) {
    && (forall docId | Endorses(inv.payments, docId) :: HasCheck(f.receivables, docId))
    && (forall r | r in f.receivables && Endorses(inv.payments, r.id) :: Takeable(f, inv, r))
  }

  function SavedRow(r: Row<Receivable>, inv: Incoming, day: string): Row<Receivable> {
    EndorsedRow(ReopenedRow(r, inv.id), inv, inv.payments, day)
  }

  lemma SavedRows(rows: Checks, inv: Incoming, day: string)
    ensures var after := Endorsed(Reopened(rows, inv.id), inv, inv.payments, day);
            && (forall r | r in rows :: SavedRow(r, inv, day) in after)
            && (forall q | q in after :: exists r | r in rows :: q == SavedRow(r, inv, day))
  {
    var after := Endorsed(Reopened(rows, inv.id), inv, inv.payments, day);
    forall r | r in rows ensures SavedRow(r, inv, day) in after {
      var i :| 0 <= i < |rows| && rows[i] == r;
      assert after[i] == SavedRow(r, inv, day);
    }
    forall q | q in after ensures exists r | r in rows :: q == SavedRow(r, inv, day) {
      var i :| 0 <= i < |after| && after[i] == q;
      assert rows[i] in rows && q == SavedRow(rows[i], inv, day);
    }
  }

  /** The saved invoice's own lines are backed exactly when their checks are in the table. */
  lemma OwnLinesBacked(f: Finance, inv: Incoming, day: string)
    ensures InvoiceBacked(Endorsed(Reopened(f.receivables, inv.id), inv, inv.payments, day), inv)
       <==> forall docId | Endorses(inv.payments, docId) :: HasCheck(f.receivables, docId)
  {
    var after := Endorsed(Reopened(f.receivables, inv.id), inv, inv.payments, day);
    SavedRows(f.receivables, inv, day);
    forall docId | Endorses(inv.payments, docId)
      ensures LineBacked(after, inv.id, docId) <==> HasCheck(f.receivables, docId)
    {
      if HasCheck(f.receivables, docId) {
        var r :| r in f.receivables && r.id == docId;
        assert SavedRow(r, inv, day) in after;
      }
    }
  }

  /** Another invoice keeps its backing exactly when the saved one endorses none of the checks assigned to it. */
  lemma OtherLinesBacked(f: Finance, inv: Incoming, day: string, x: Incoming)
    requires Keyed(f) && Ref(f) && Backed(f) && x in f.incoming && x.id != inv.id
    ensures InvoiceBacked(Endorsed(Reopened(f.receivables, inv.id), inv, inv.payments, day), x)
       <==> forall r | r in f.receivables && Endorses(inv.payments, r.id) :: r.data.assignedIncoming != Some(x.id)
  {
    var after := Endorsed(Reopened(f.receivables, inv.id), inv, inv.payments, day);
    SavedRows(f.receivables, inv, day);
    if r :| r in f.receivables && Endorses(inv.payments, r.id) && r.data.assignedIncoming == Some(x.id) {
      TakenCheckUnbacks(f, inv, day, x, r);
    } else {
      forall docId | Endorses(x.payments, docId) ensures LineBacked(after, x.id, docId) {
        assert InvoiceBacked(f.receivables, x);
        var r :| r in f.receivables && r.id == docId && r.data.assignedIncoming == Some(x.id);
        assert SavedRow(r, inv, day) in after;
      }
    }
  }

  lemma TakenCheckUnbacks(f: Finance, inv: Incoming, day: string, x: Incoming, r: Row<Receivable>)
    requires Keyed(f) && Ref(f) && x in f.incoming && x.id != inv.id
    requires r in f.receivables && Endorses(inv.payments, r.id) && r.data.assignedIncoming == Some(x.id)
    ensures !InvoiceBacked(Endorsed(Reopened(f.receivables, inv.id), inv, inv.payments, day), x)
  {
    var after := Endorsed(Reopened(f.receivables, inv.id), inv, inv.payments, day);
    SavedRows(f.receivables, inv, day);
    assert Referenced(f.incoming, r);
    FirstMeans(f.incoming, InvoiceWith(x.id));
    DistinctAgree(f.incoming, IncomingId(), x, First(f.incoming, InvoiceWith(x.id)).value);
    assert Endorses(x.payments, r.id);
    forall q | q in after && q.id == r.id ensures q.data.assignedIncoming != Some(x.id) {
      var p :| p in f.receivables && q == SavedRow(p, inv, day);
      DistinctAgree(f.receivables, RowId(), p, r);
    }
  }

  lemma KeptInvoice(f: Finance, inv: Incoming, x: Incoming)
    requires Keyed(f)
    ensures x in Filter(f.incoming, NotDisplacedBy(inv))
        <==> x in f.incoming && x.id != inv.id && !Dropped(f, inv, x.id)
  {
    FilterMember(f.incoming, NotDisplacedBy(inv), x);
    if x in f.incoming && Dropped(f, inv, x.id) {
      var y :| y in f.incoming && y.id == x.id && Displaces(inv, y);
      DistinctAgree(f.incoming, IncomingId(), x, y);
    }
  }

  /**
   Saving an incoming invoice keeps every endorsement backed exactly when the checks it endorses are in the
   table and free, its own already, or endorsed to a registration it drops.
   */
  lemma SaveIncomingKeepsBackedIff(f: Finance, inv: Incoming, ids: nat -> string, stockId: string, day: string)
    requires Keyed(f) && Ref(f) && Backed(f)
    ensures Backed(SaveIncoming(f, inv, ids, stockId, day)) <==> TakesFreeChecks(f, inv)
  {
    var after := Endorsed(Reopened(f.receivables, inv.id), inv, inv.payments, day);
    var kept := Filter(f.incoming, NotDisplacedBy(inv));
    OwnLinesBacked(f, inv, day);
    forall x | x in kept
      ensures x in f.incoming && x.id != inv.id && !Dropped(f, inv, x.id)
      ensures InvoiceBacked(after, x)
         <==> forall r | r in f.receivables && Endorses(inv.payments, r.id) :: r.data.assignedIncoming != Some(x.id)
    {
      KeptInvoice(f, inv, x);
      OtherLinesBacked(f, inv, day, x);
    }
    if AllBacked(after, [inv] + kept) {
      assert inv in [inv] + kept;
      forall r | r in f.receivables && Endorses(inv.payments, r.id) ensures Takeable(f, inv, r) {
        TakenFromKept(f, inv, r, kept, after);
      }
    }
  }

  lemma TakenFromKept(f: Finance, inv: Incoming, r: Row<Receivable>, kept: seq<Incoming>, after: Checks)
    requires Keyed(f) && Ref(f) && kept == Filter(f.incoming, NotDisplacedBy(inv))
    requires r in f.receivables && Endorses(inv.payments, r.id)
    requires forall x | x in kept :: r.data.assignedIncoming != Some(x.id)
    ensures Takeable(f, inv, r)
  {
    assert Referenced(f.incoming, r);
    if r.data.assignedIncoming.Some? {
      FirstMeans(f.incoming, InvoiceWith(r.data.assignedIncoming.value));
      KeptInvoice(f, inv, First(f.incoming, InvoiceWith(r.data.assignedIncoming.value)).value);
    }
  }

  lemma RemoveIncomingKeepsBacked(f: Finance, id: string)
    requires Backed(f)
    ensures Backed(RemoveIncoming(f, id))
  {
    var g := RemoveIncoming(f, id);
    forall x, docId | x in g.incoming && Endorses(x.payments, docId) ensures LineBacked(g.receivables, x.id, docId) {
      FilterMember(f.incoming, OtherIncoming(id), x);
      assert InvoiceBacked(f.receivables, x);
      var r :| r in f.receivables && r.id == docId && r.data.assignedIncoming == Some(x.id);
      var i :| 0 <= i < |f.receivables| && f.receivables[i] == r;
      assert g.receivables[i] == r;
    }
  }

  // ---------------------------------------------------------------- check operations

  lemma AssignKeepsBacked(f: Finance, checkNo: string, to: string, docId: string, day: string)
    requires Backed(f)
    ensures Backed(AssignCheck(f, checkNo, to, docId, day))
  {
    var g := AssignCheck(f, checkNo, to, docId, day);
    forall x, d | x in g.incoming && Endorses(x.payments, d) ensures LineBacked(g.receivables, x.id, d) {
      assert InvoiceBacked(f.receivables, x);
      var r :| r in f.receivables && r.id == d && r.data.assignedIncoming == Some(x.id);
      var i :| 0 <= i < |f.receivables| && f.receivables[i] == r;
      assert g.receivables[i] in g.receivables && g.receivables[i].data.assignedIncoming == r.data.assignedIncoming;
    }
  }

  /** After a return, a line that still endorses a check endorsed it before, and not the one that came back. */
  lemma EndorsedStill(inv: Incoming, source: string, id: string, docId: string)
    requires id != "" && Tidy(inv.payments) && Endorses(InvoiceAfter(inv, source, id).payments, docId)
    ensures Endorses(inv.payments, docId) && (inv.id == source ==> docId != id)
  {
    var after := InvoiceAfter(inv, source, id);
    var i :| 0 <= i < |after.payments| && after.payments[i].kind.AssignReceivable? && after.payments[i].docId == docId;
    assert inv.payments[i] == after.payments[i];
  }

  lemma MarkKeepsBacked(f: Finance, id: string, status: Status, day: string)
    requires Keyed(f) && Backed(f) && Enabled(f, Mark(id, status, day))
    ensures Backed(SetStatus(f, id, status, day))
  {
    var g, selected := SetStatus(f, id, status, day), First(f.receivables, RowWith(id)).value;
    FirstMeans(f.receivables, RowWith(id));
    forall y, d | y in g.incoming && Endorses(y.payments, d) ensures LineBacked(g.receivables, y.id, d) {
      var x := MarkedInvoice(f, id, status, day, selected, y, d);
      assert InvoiceBacked(f.receivables, x);
      var r :| r in f.receivables && r.id == d && r.data.assignedIncoming == Some(x.id);
      if r.id == id { DistinctAgree(f.receivables, RowId(), r, selected); }
      var i :| 0 <= i < |f.receivables| && f.receivables[i] == r;
      assert g.receivables[i] in g.receivables && g.receivables[i].data.assignedIncoming == Some(y.id);
    }
  }

  /** The invoice as it was, and why its line for d cannot name the check that came back from it. */
  lemma MarkedInvoice(f: Finance, id: string, status: Status, day: string, selected: Row<Receivable>, y: Incoming,
      d: string)
    returns (x: Incoming)
    requires Keyed(f) && First(f.receivables, RowWith(id)) == Some(selected) && selected.id == id && id != ""
    requires y in SetStatus(f, id, status, day).incoming && Endorses(y.payments, d)
    ensures x in f.incoming && x.id == y.id && Endorses(x.payments, d)
    ensures IsReturn(status) && selected.data.assignedIncoming == Some(x.id) ==> d != id
  {
    if IsReturn(status) && selected.data.assignedIncoming.Some? {
      var source := selected.data.assignedIncoming.value;
      var k :| 0 <= k < |f.incoming| && InvoicesAfter(f.incoming, source, id)[k] == y;
      x := f.incoming[k];
      assert x in f.incoming;
      EndorsedStill(x, source, id, d);
    } else {
      x := y;
    }
  }

  // ---------------------------------------------------------------- runs

  /** When a step leaves every endorsement backed. */
  ghost predicate LeavesChecks(f: Finance, step: Step) {
    match step
    case Sell(sale, _) => ChecksStayed(f, FromSale(sale.number))
    case Unsell(sale) => ChecksStayed(f, FromSale(sale.number))
    case Receive(inv, _, _, _) => TakesFreeChecks(f, inv)
    case _ => true
  }

  lemma StepKeepsBackedIff(f: Finance, step: Step)
    requires Keyed(f) && Ref(f) && Backed(f) && Enabled(f, step)
    ensures Backed(Next(f, step)) <==> LeavesChecks(f, step)
  {
    match step
    case Sell(sale, ids) => SaveSaleKeepsBackedIff(f, sale, ids);
    case Unsell(sale) => RemoveSaleKeepsBackedIff(f, sale);
    case Receive(inv, ids, stockId, day) => SaveIncomingKeepsBackedIff(f, inv, ids, stockId, day);
    case Unreceive(id) => RemoveIncomingKeepsBacked(f, id);
    case Assign(checkNo, to, docId, day) => AssignKeepsBacked(f, checkNo, to, docId, day);
    case Mark(id, status, day) => MarkKeepsBacked(f, id, status, day);
  }

  /** Every step of the run leaves the checks that others were paid with. */
  ghost predicate AllLeaveChecks(f: Finance, steps: seq<Step>) {
    forall i | 0 <= i < |steps| :: LeavesChecks(After(f, steps[..i]), steps[i])
  }

  /**
   In a run that touches no check others were paid with, checks and endorsement lines match both ways: a check
   that names an invoice has a line there, and a line that names a check has the check assigned to its invoice.
   */
  lemma {:induction false} RunKeepsBacked(f: Finance, steps: seq<Step>)
    requires Inv(f) && Backed(f) && IsRun(f, steps) && AllLeaveChecks(f, steps)
    ensures Ref(After(f, steps)) && Backed(After(f, steps))
  {
    RunKeepsInv(f, steps);
    if steps != [] {
      var n := |steps| - 1;
      forall i | 0 <= i < n ensures LeavesChecks(After(f, steps[..n][..i]), steps[..n][i]) {
        assert steps[..n][..i] == steps[..i] && steps[..n][i] == steps[i];
      }
      RunKeepsBacked(f, steps[..n]);
      RunKeepsInv(f, steps[..n]);
      StepKeepsBackedIff(After(f, steps[..n]), steps[n]);
    }
  }
}
