/**
 Runs of the books: saving and removing invoices of both sides, handing a check over by hand, and
 clearing, returning or bouncing a check (financial/web/src/App.jsx:4035-4118, 4507-4617, 5581-5647;
 financial/web/vite-financial-integrity-v2.js:67-99).
 */
module FinanceRuns {
  import opened Common
  import opened Lists
  import opened Settlement
  import opened SettlementMoney

  // ---------------------------------------------------------------- the two check operations

  function OpenWith(checkNo: string): Row<Receivable> -> bool {
    (r: Row<Receivable>) => r.data.status.Open? && r.data.checkNo == checkNo
  }

  function RowWith(id: string): Row<Receivable> -> bool { (r: Row<Receivable>) => r.id == id }

  function HandedOver(rows: seq<Row<Receivable>>, id: string, to: string, day: string): seq<Row<Receivable>> {
    seq(|rows|, i requires 0 <= i < |rows| =>
      if rows[i].id == id
      then rows[i].(data := rows[i].data.(status := Assigned, assignedTo := to, assignedAt := day)) else rows[i])
  }

  /** The check the form settles on: the one picked from the list, or the only open one with the number. */
  function ChosenCheck(f: Finance, checkNo: string, docId: string): string {
    var candidates := Filter(f.receivables, OpenWith(checkNo));
    if docId != "" then docId else if |candidates| == 1 then candidates[0].id else ""
  }

  function AssignCheck(f: Finance, checkNo: string, to: string, docId: string, day: string): Finance {
    var id := ChosenCheck(f, checkNo, docId);
    var picked := First(Filter(f.receivables, OpenWith(checkNo)), RowWith(id));
    if checkNo == "" || to == "" || id == "" || picked.None? then f
    else f.(receivables := HandedOver(f.receivables, id, to, day))
  }

  predicate IsReturn(status: Status) { status.Returned? || status.Bounced? }

  function WithStatus(r: Receivable, status: Status, day: string): Receivable {
    if IsReturn(status)
    then r.(status := status, operatedAt := day, previousTo := r.assignedTo, previousIncoming := r.assignedIncoming,
            assignedTo := "", assignedIncoming := None)
    else r.(status := status, operatedAt := day)
  }

  function StatusRows(rows: seq<Row<Receivable>>, id: string, status: Status, day: string): seq<Row<Receivable>> {
    seq(|rows|, i requires 0 <= i < |rows| =>
      if rows[i].id == id then rows[i].(data := WithStatus(rows[i].data, status, day)) else rows[i])
  }

  function OnCreditAgain(payments: seq<Payment>, docId: string): seq<Payment> {
    seq(|payments|, i requires 0 <= i < |payments| =>
      if payments[i].docId == docId then payments[i].(kind := Credit, docId := "") else payments[i])
  }

  function InvoiceAfter(inv: Incoming, source: string, docId: string): Incoming {
    if inv.id == source then inv.(payments := OnCreditAgain(inv.payments, docId)) else inv
  }

  function InvoicesAfter(invoices: seq<Incoming>, source: string, docId: string): seq<Incoming> {
    seq(|invoices|, i requires 0 <= i < |invoices| => InvoiceAfter(invoices[i], source, docId))
  }

  function SetStatus(f: Finance, id: string, status: Status, day: string): Finance {
    match First(f.receivables, RowWith(id))
    case None => f
    case Some(selected) =>
      var g := f.(receivables := StatusRows(f.receivables, id, status, day));
      if IsReturn(status) && selected.data.assignedIncoming.Some?
      then g.(incoming := InvoicesAfter(f.incoming, selected.data.assignedIncoming.value, id)) else g
  }

  /** The buttons of a check row. */
  predicate Offered(r: Receivable, status: Status) {
    match status
    case Cleared => !r.status.Assigned? && !r.status.Cleared?
    case Returned => !r.status.Returned?
    case Bounced => !r.status.Bounced?
    case _ => false
  }

  // ---------------------------------------------------------------- steps

  datatype Step =
    | Sell(sale: Sale, ids: nat -> string)
    | Unsell(sale: Sale)
    | Receive(inv: Incoming, ids: nat -> string, stockId: string, day: string)
    | Unreceive(id: string)
    | Assign(checkNo: string, to: string, docId: string, day: string)
    | Mark(id: string, status: Status, day: string)

  function Next(f: Finance, step: Step): Finance {
    match step
    case Sell(sale, ids) => SaveSale(f, sale, ids)
    case Unsell(sale) => RemoveSale(f, sale)
    case Receive(inv, ids, stockId, day) => SaveIncoming(f, inv, ids, stockId, day)
    case Unreceive(id) => RemoveIncoming(f, id)
    case Assign(checkNo, to, docId, day) => AssignCheck(f, checkNo, to, docId, day)
    case Mark(id, status, day) => SetStatus(f, id, status, day)
  }

  function RowId<A>(): Row<A> -> string { (r: Row<A>) => r.id }

  function SaleNumber(): Sale -> string { (s: Sale) => s.number }

  function SaleId(): Sale -> string { (s: Sale) => s.id }

  function IncomingId(): Incoming -> string { (inv: Incoming) => inv.id }

  /** New row ids: not empty, not in use, and different from each other. */
  predicate NewIds(f: Finance, ids: nat -> string, n: nat) {
    && (forall i | 0 <= i < n :: ids(i) != "")
    && (forall i, j | 0 <= i < j < n :: ids(i) != ids(j))
    && (forall i, r | 0 <= i < n && r in f.receivables :: r.id != ids(i))
  }

  /** Only endorsement lines name a check: the form clears the name when the kind of a line changes. */
  predicate Tidy(payments: seq<Payment>) {
    forall i | 0 <= i < |payments| :: payments[i].docId != "" ==> payments[i].kind.AssignReceivable?
  }

  /** An incoming invoice as its form saves it. */
  predicate IncomingAccepted(inv: Incoming) {
    && Tidy(inv.payments)
    && (if inv.nonFinancial then inv.payments == []
        else inv.payments != [] && (forall i | 0 <= i < |inv.payments| :: inv.payments[i].amount > 0)
             && PaymentProblem(inv.payments, inv.amount).None?)
  }

  /** No other invoice registers the operational source of this one. */
  predicate OnlyRegistration(f: Finance, inv: Incoming) {
    forall x | x in f.incoming && Displaces(inv, x) :: x.id == inv.id
  }

  predicate Enabled(f: Finance, step: Step) {
    match step
    case Sell(sale, ids) =>
      Accepted(sale) && NewIds(f, ids, |sale.payments|) && forall x | x in f.sales :: x.id != sale.id
    case Unsell(sale) => sale in f.sales
    case Receive(inv, _, _, _) => IncomingAccepted(inv) && OnlyRegistration(f, inv)
    case Unreceive(_) => true
    case Assign(_, _, _, _) => true
    case Mark(id, status, _) =>
      var row := First(f.receivables, RowWith(id));
      row.Some? && Offered(row.value.data, status)
  }

  // ---------------------------------------------------------------- invariant: keys and references

  predicate Keyed(f: Finance) {
    && DistinctBy(f.sales, SaleNumber())
    && DistinctBy(f.sales, SaleId())
    && DistinctBy(f.incoming, IncomingId())
    && DistinctBy(f.receivables, RowId())
    && (forall r | r in f.receivables :: r.id != "")
    && (forall inv | inv in f.incoming :: Tidy(inv.payments))
  }

  function InvoiceWith(id: string): Incoming -> bool { (inv: Incoming) => inv.id == id }

  /** A check that names an incoming invoice is in status assigned, and the invoice exists and has a line for it. */
  predicate Referenced(incoming: seq<Incoming>, r: Row<Receivable>) {
    match r.data.assignedIncoming
    case None => true
    case Some(id) =>
      var inv := First(incoming, InvoiceWith(id));
      r.data.status.Assigned? && inv.Some? && Endorses(inv.value.payments, r.id)
  }

  predicate Ref(f: Finance) {
    forall r | r in f.receivables :: Referenced(f.incoming, r)
  }

  lemma SaveSaleKeepsKeys(f: Finance, s: Sale, ids: nat -> string)
    requires Keyed(f) && Enabled(f, Sell(s, ids))
    ensures Keyed(SaveSale(f, s, ids))
  {
    var g, o := SaveSale(f, s, ids), FromSale(s.number);
    var kept := Filter(f.sales, OtherNumber(s.number));
    DistinctFiltered(f.sales, OtherNumber(s.number), SaleNumber());
    DistinctFiltered(f.sales, OtherNumber(s.number), SaleId());
    forall x | x in kept
      ensures x.number != s.number && x.id != s.id
    {
      FilterMember(f.sales, OtherNumber(s.number), x);
    }
    DistinctConcat([s], kept, SaleNumber());
    DistinctConcat([s], kept, SaleId());
    var posted, rest := Posted(s.payments, SaleCheck(s), o, ids), Without(f.receivables, o);
    DistinctFiltered(f.receivables, NotFrom(o), RowId());
    PostedIds(s.payments, SaleCheck(s), o, ids);
    forall r | r in rest ensures r in f.receivables { FilterMember(f.receivables, NotFrom(o), r); }
    DistinctConcat(posted, rest, RowId());
  }

  lemma {:induction false} PostedIds<A>(payments: seq<Payment>, pick: Pick<A>, o: Origin, ids: nat -> string)
    requires forall i, j | 0 <= i < j < |payments| :: ids(i) != ids(j)
    ensures forall r | r in Posted(payments, pick, o, ids) :: exists i | 0 <= i < |payments| :: r.id == ids(i)
    ensures DistinctBy(Posted(payments, pick, o, ids), RowId())
  {
    if payments != [] {
      var n := |payments| - 1;
      var earlier := Posted(payments[..n], pick, o, ids);
      PostedIds(payments[..n], pick, o, ids);
      match pick(payments[n])
      case None => assert [] + earlier == earlier;
      case Some(v) => DistinctConcat([Row(ids(n), o, v)], earlier, RowId());
    }
  }

  lemma PostedPick<A>(payments: seq<Payment>, pick: Pick<A>, o: Origin, ids: nat -> string, r: Row<A>)
    requires r in Posted(payments, pick, o, ids)
    ensures exists i | 0 <= i < |payments| :: pick(payments[i]) == Some(r.data)
  {
    if payments != [] {
      var n := |payments| - 1;
      var earlier := Posted(payments[..n], pick, o, ids);
      if r in earlier {
        PostedPick(payments[..n], pick, o, ids, r);
        var i :| 0 <= i < n && pick(payments[..n][i]) == Some(r.data);
        assert payments[..n][i] == payments[i];
      }
    }
  }

  lemma SaveSaleKeepsRef(f: Finance, s: Sale, ids: nat -> string)
    requires Ref(f)
    ensures Ref(SaveSale(f, s, ids))
  {
    var g, o := SaveSale(f, s, ids), FromSale(s.number);
    forall r | r in g.receivables ensures Referenced(f.incoming, r) {
      if r in Posted(s.payments, SaleCheck(s), o, ids) {
        PostedPick(s.payments, SaleCheck(s), o, ids, r);
      } else {
        FilterMember(f.receivables, NotFrom(o), r);
      }
    }
  }

  lemma RemoveSaleKeepsKeysAndRef(f: Finance, s: Sale)
    requires Keyed(f) && Ref(f)
    ensures Keyed(RemoveSale(f, s)) && Ref(RemoveSale(f, s))
  {
    var g, o := RemoveSale(f, s), FromSale(s.number);
    DistinctFiltered(f.sales, OtherSale(s.id), SaleNumber());
    DistinctFiltered(f.sales, OtherSale(s.id), SaleId());
    DistinctFiltered(f.receivables, NotFrom(o), RowId());
    forall r | r in g.receivables ensures r in f.receivables { FilterMember(f.receivables, NotFrom(o), r); }
  }

  // ---------------------------------------------------------------- saving and removing an incoming invoice

  lemma IncomingListKeyed(f: Finance, inv: Incoming, ids: nat -> string, stockId: string, day: string)
    requires Keyed(f) && Tidy(inv.payments)
    ensures Keyed(SaveIncoming(f, inv, ids, stockId, day))
  {
    var g := SaveIncoming(f, inv, ids, stockId, day);
    var kept := Filter(f.incoming, NotDisplacedBy(inv));
    DistinctFiltered(f.incoming, NotDisplacedBy(inv), IncomingId());
    forall x | x in kept ensures x in f.incoming && x.id != inv.id { FilterMember(f.incoming, NotDisplacedBy(inv), x); }
    DistinctConcat([inv], kept, IncomingId());
    assert forall i | 0 <= i < |f.receivables| :: g.receivables[i].id == f.receivables[i].id;
  }

  /** The invoices other than inv that saving inv drops. */
  predicate Dropped(f: Finance, inv: Incoming, id: string) {
    id != inv.id && exists x | x in f.incoming :: x.id == id && Displaces(inv, x)
  }

  /** Which invoice an id finds after the save. */
  lemma FoundAfterSave(f: Finance, inv: Incoming, id: string)
    requires Keyed(f)
    ensures var incoming := [inv] + Filter(f.incoming, NotDisplacedBy(inv));
            First(incoming, InvoiceWith(id)) ==
            if id == inv.id then Some(inv) else if Dropped(f, inv, id) then None else First(f.incoming, InvoiceWith(id))
  {
    var incoming := [inv] + Filter(f.incoming, NotDisplacedBy(inv));
    assert incoming[1..] == Filter(f.incoming, NotDisplacedBy(inv));
    if id != inv.id {
      FirstFiltered(f.incoming, NotDisplacedBy(inv), InvoiceWith(id));
      if Dropped(f, inv, id) {
        var x :| x in f.incoming && x.id == id && Displaces(inv, x);
        forall y | y in f.incoming && InvoiceWith(id)(y) ensures !NotDisplacedBy(inv)(y) {
          DistinctAgree(f.incoming, IncomingId(), x, y);
        }
      }
    }
  }

  lemma SavedCheckReferenced(f: Finance, inv: Incoming, day: string, i: nat)
    requires Keyed(f) && Ref(f) && i < |f.receivables|
    ensures var r, r' := f.receivables[i], Endorsed(Reopened(f.receivables, inv.id), inv, inv.payments, day)[i];
            Referenced([inv] + Filter(f.incoming, NotDisplacedBy(inv)), r') <==>
            (r.data.assignedIncoming.Some? && Dropped(f, inv, r.data.assignedIncoming.value) ==>
               Endorses(inv.payments, r.id))
  {
    var r := f.receivables[i];
    assert Referenced(f.incoming, r);
    FoundAfterSave(f, inv, inv.id);
    if r.data.assignedIncoming.Some? {
      FoundAfterSave(f, inv, r.data.assignedIncoming.value);
    }
  }

  /**
   Saving an incoming invoice keeps every check reference sound exactly when no check that it does not
   endorse itself is endorsed to an invoice it drops: another registration of its operational source.
   */
  lemma SaveIncomingKeepsRefIff(f: Finance, inv: Incoming, ids: nat -> string, stockId: string, day: string)
    requires Keyed(f) && Ref(f)
    ensures Ref(SaveIncoming(f, inv, ids, stockId, day))
       <==> forall r | r in f.receivables
                       && r.data.assignedIncoming.Some? && Dropped(f, inv, r.data.assignedIncoming.value) ::
              Endorses(inv.payments, r.id)
  {
    var g := SaveIncoming(f, inv, ids, stockId, day);
    forall i | 0 <= i < |f.receivables|
      ensures Referenced(g.incoming, g.receivables[i])
         <==> (f.receivables[i].data.assignedIncoming.Some?
               && Dropped(f, inv, f.receivables[i].data.assignedIncoming.value)
               ==> Endorses(inv.payments, f.receivables[i].id))
    {
      SavedCheckReferenced(f, inv, day, i);
    }
    if Ref(g) {
      forall r | r in f.receivables && r.data.assignedIncoming.Some? && Dropped(f, inv, r.data.assignedIncoming.value)
        ensures Endorses(inv.payments, r.id)
      {
        var i :| 0 <= i < |f.receivables| && f.receivables[i] == r;
        assert g.receivables[i] in g.receivables;
      }
    } else {
      var r' :| r' in g.receivables && !Referenced(g.incoming, r');
      var i :| 0 <= i < |g.receivables| && g.receivables[i] == r';
      assert f.receivables[i] in f.receivables;
    }
  }

  lemma RemoveIncomingKeepsKeysAndRef(f: Finance, id: string)
    requires Keyed(f) && Ref(f)
    ensures Keyed(RemoveIncoming(f, id)) && Ref(RemoveIncoming(f, id))
  {
    var g := RemoveIncoming(f, id);
    DistinctFiltered(f.incoming, OtherIncoming(id), IncomingId());
    forall x | x in g.incoming ensures x in f.incoming { FilterMember(f.incoming, OtherIncoming(id), x); }
    assert forall i | 0 <= i < |f.receivables| :: g.receivables[i].id == f.receivables[i].id;
    forall i | 0 <= i < |f.receivables| ensures Referenced(g.incoming, g.receivables[i]) {
      var r := f.receivables[i];
      assert Referenced(f.incoming, r);
      if r.data.assignedIncoming.Some? && r.data.assignedIncoming != Some(id) {
        FirstFiltered(f.incoming, OtherIncoming(id), InvoiceWith(r.data.assignedIncoming.value));
      }
    }
  }

  // ---------------------------------------------------------------- check operations

  /** Assigning by hand changes at most one check, which was open and had the number asked for. */
  lemma AssignTakesAnOpenCheck(f: Finance, checkNo: string, to: string, docId: string, day: string)
    requires Keyed(f)
    ensures var g, id := AssignCheck(f, checkNo, to, docId, day), ChosenCheck(f, checkNo, docId);
            && g.(receivables := f.receivables) == f
            && |g.receivables| == |f.receivables|
            && (g != f ==> forall i | 0 <= i < |f.receivables| ::
                  if f.receivables[i].id == id
                  then f.receivables[i].data.status.Open? && f.receivables[i].data.checkNo == checkNo
                       && g.receivables[i].data.status.Assigned? && g.receivables[i].data.assignedTo == to
                  else g.receivables[i] == f.receivables[i])
  {
    var g, id := AssignCheck(f, checkNo, to, docId, day), ChosenCheck(f, checkNo, docId);
    var candidates := Filter(f.receivables, OpenWith(checkNo));
    if g != f {
      FirstMeans(candidates, RowWith(id));
      var chosen := First(candidates, RowWith(id)).value;
      FilterMember(f.receivables, OpenWith(checkNo), chosen);
      forall i | 0 <= i < |f.receivables| && f.receivables[i].id == id ensures f.receivables[i] == chosen {
        DistinctAgree(f.receivables, RowId(), f.receivables[i], chosen);
      }
    }
  }

  /** An open check with the number. */
  predicate OpenAt(f: Finance, checkNo: string, i: nat) {
    i < |f.receivables| && f.receivables[i].data.status.Open? && f.receivables[i].data.checkNo == checkNo
  }

  /** The check the form means: the one picked, or the only open one with the number. */
  ghost predicate Meant(f: Finance, checkNo: string, docId: string, i: nat) {
    && OpenAt(f, checkNo, i)
    && if docId != "" then f.receivables[i].id == docId else forall j: nat | OpenAt(f, checkNo, j) :: j == i
  }

  lemma {:induction false} OnlyCandidate(rows: seq<Row<Receivable>>, checkNo: string)
    ensures var open := Filter(rows, OpenWith(checkNo));
            && (|open| == 1 ==> exists i | 0 <= i < |rows| ::
                  OpenWith(checkNo)(rows[i]) && open == [rows[i]]
                  && forall j | 0 <= j < |rows| && j != i :: !OpenWith(checkNo)(rows[j]))
            && (forall i | 0 <= i < |rows| && OpenWith(checkNo)(rows[i])
                           && forall j | 0 <= j < |rows| && j != i :: !OpenWith(checkNo)(rows[j]) :: open == [rows[i]])
  {
    if rows != [] {
      OnlyCandidate(rows[1..], checkNo);
      FilterSize(rows[1..], OpenWith(checkNo));
      var open, rest := Filter(rows, OpenWith(checkNo)), Filter(rows[1..], OpenWith(checkNo));
      assert forall i | 0 < i < |rows| :: rows[i] == rows[1..][i - 1];
      if OpenWith(checkNo)(rows[0]) {
        assert open[1..] == rest;
      } else {
        assert open == rest;
      }
    }
  }

  /**
   Handing a check over by hand goes through exactly when number and receiver are given and the form means a check:
   a picked one that is open with that number, or the only open one; an ambiguous number is refused. That check is
   assigned to the receiver on that day and nothing else of it or of the books changes.
   */
  lemma AssignIff(f: Finance, checkNo: string, to: string, docId: string, day: string)
    requires Keyed(f)
    ensures var g := AssignCheck(f, checkNo, to, docId, day);
            if checkNo != "" && to != "" && exists i: nat :: Meant(f, checkNo, docId, i)
            then exists i: nat | Meant(f, checkNo, docId, i) ::
                   var r := f.receivables[i];
                   g == f.(receivables := f.receivables[
                             i := r.(data := r.data.(status := Assigned, assignedTo := to, assignedAt := day))])
            else g == f
  {
    var candidates := Filter(f.receivables, OpenWith(checkNo));
    var id := ChosenCheck(f, checkNo, docId);
    OnlyCandidate(f.receivables, checkNo);
    FirstMeans(candidates, RowWith(id));
    if i: nat :| Meant(f, checkNo, docId, i) {
      MeantIsChosen(f, checkNo, docId, i);
      HandedOverAt(f.receivables, i, to, day);
    } else if checkNo != "" && to != "" && id != "" && First(candidates, RowWith(id)).Some? {
      ChosenIsMeant(f, checkNo, docId);
    }
  }

  lemma MeantIsChosen(f: Finance, checkNo: string, docId: string, i: nat)
    requires Keyed(f) && Meant(f, checkNo, docId, i)
    ensures var r := f.receivables[i];
            ChosenCheck(f, checkNo, docId) == r.id != ""
            && First(Filter(f.receivables, OpenWith(checkNo)), RowWith(r.id)).Some?
  {
    var r, candidates := f.receivables[i], Filter(f.receivables, OpenWith(checkNo));
    assert r in f.receivables;
    FilterMember(f.receivables, OpenWith(checkNo), r);
    FirstMeans(candidates, RowWith(r.id));
    OnlyCandidate(f.receivables, checkNo);
    if docId == "" {
      forall j | 0 <= j < |f.receivables| && j != i ensures !OpenWith(checkNo)(f.receivables[j]) {
        assert !OpenAt(f, checkNo, j);
      }
      assert candidates == [r];
    }
  }

  lemma ChosenIsMeant(f: Finance, checkNo: string, docId: string)
    requires Keyed(f)
    requires First(Filter(f.receivables, OpenWith(checkNo)), RowWith(ChosenCheck(f, checkNo, docId))).Some?
    ensures ChosenCheck(f, checkNo, docId) == "" || exists i: nat :: Meant(f, checkNo, docId, i)
  {
    var candidates, id := Filter(f.receivables, OpenWith(checkNo)), ChosenCheck(f, checkNo, docId);
    FirstMeans(candidates, RowWith(id));
    OnlyCandidate(f.receivables, checkNo);
    if docId != "" {
      var r := First(candidates, RowWith(id)).value;
      FilterMember(f.receivables, OpenWith(checkNo), r);
      var i :| 0 <= i < |f.receivables| && f.receivables[i] == r;
      assert Meant(f, checkNo, docId, i);
    } else if |candidates| == 1 {
      var i :| 0 <= i < |f.receivables| && OpenWith(checkNo)(f.receivables[i])
        && forall j | 0 <= j < |f.receivables| && j != i :: !OpenWith(checkNo)(f.receivables[j]);
      assert Meant(f, checkNo, docId, i);
    }
  }

  lemma HandedOverAt(rows: seq<Row<Receivable>>, i: nat, to: string, day: string)
    requires i < |rows| && DistinctBy(rows, RowId())
    ensures HandedOver(rows, rows[i].id, to, day)
         == rows[i := rows[i].(data := rows[i].data.(status := Assigned, assignedTo := to, assignedAt := day))]
  {
    forall j | 0 <= j < |rows| && j != i ensures rows[j].id != rows[i].id {
      assert RowId()(rows[j]) != RowId()(rows[i]);
    }
  }

  lemma AssignKeepsKeysAndRef(f: Finance, checkNo: string, to: string, docId: string, day: string)
    requires Keyed(f) && Ref(f)
    ensures Keyed(AssignCheck(f, checkNo, to, docId, day)) && Ref(AssignCheck(f, checkNo, to, docId, day))
  {
    var g := AssignCheck(f, checkNo, to, docId, day);
    assert forall i | 0 <= i < |f.receivables| :: g.receivables[i].id == f.receivables[i].id;
    forall i | 0 <= i < |f.receivables| ensures Referenced(g.incoming, g.receivables[i]) {
      assert Referenced(f.incoming, f.receivables[i]);
    }
  }

  lemma {:induction false} FoundAfterReturn(invoices: seq<Incoming>, source: string, docId: string, id: string)
    ensures var before, after := First(invoices, InvoiceWith(id)),
                                 First(InvoicesAfter(invoices, source, docId), InvoiceWith(id));
            after == match before case None => None case Some(inv) => Some(InvoiceAfter(inv, source, docId))
  {
    if invoices != [] {
      FoundAfterReturn(invoices[1..], source, docId, id);
      assert InvoicesAfter(invoices, source, docId)[1..] == InvoicesAfter(invoices[1..], source, docId);
    }
  }

  lemma StillEndorses(payments: seq<Payment>, docId: string, other: string)
    requires Endorses(payments, other) && other != docId
    ensures Endorses(OnCreditAgain(payments, docId), other)
  {
    var i :| 0 <= i < |payments| && payments[i].kind.AssignReceivable? && payments[i].docId == other;
    assert OnCreditAgain(payments, docId)[i] == payments[i];
  }

  lemma ReturnKeepsInvoices(f: Finance, source: string, docId: string)
    requires Keyed(f)
    ensures Keyed(f.(incoming := InvoicesAfter(f.incoming, source, docId)))
  {
    var after := InvoicesAfter(f.incoming, source, docId);
    assert forall i | 0 <= i < |f.incoming| :: after[i].id == f.incoming[i].id;
    forall inv | inv in after ensures Tidy(inv.payments) {
      var i :| 0 <= i < |after| && after[i] == inv;
      assert f.incoming[i] in f.incoming;
    }
  }

  /** What the change makes of the check itself. */
  predicate IsMarked(before: Receivable, after: Receivable, status: Status, day: string) {
    var back := status == Returned || status == Bounced;
    && after.status == status && after.operatedAt == day
    && after.(status := before.status, operatedAt := before.operatedAt, assignedTo := before.assignedTo,
              assignedIncoming := before.assignedIncoming, previousTo := before.previousTo,
              previousIncoming := before.previousIncoming) == before
    && if back then after.previousTo == before.assignedTo && after.previousIncoming == before.assignedIncoming
                    && after.assignedTo == "" && after.assignedIncoming.None?
       else after.previousTo == before.previousTo && after.previousIncoming == before.previousIncoming
            && after.assignedTo == before.assignedTo && after.assignedIncoming == before.assignedIncoming
  }

  /** The invoice with its lines for the check turned into open credit, and nothing else changed. */
  predicate IsOnCreditAgain(before: Incoming, after: Incoming, docId: string) {
    && after.(payments := before.payments) == before && |after.payments| == |before.payments|
    && forall i | 0 <= i < |before.payments| ::
         var p, q := before.payments[i], after.payments[i];
         if p.docId == docId then q.kind == Credit && q.docId == "" && q.(kind := p.kind, docId := p.docId) == p
         else q == p
  }

  /**
   Changing the status of a check changes that check and, when it comes back from an incoming invoice it had been
   endorsed to, that invoice's lines for it; the rest of the books stays.
   */
  lemma MarkMeans(f: Finance, id: string, status: Status, day: string, k: nat)
    requires Keyed(f) && k < |f.receivables| && f.receivables[k].id == id
    ensures var g, r := SetStatus(f, id, status, day), f.receivables[k];
            && g.(receivables := f.receivables, incoming := f.incoming) == f
            && |g.receivables| == |f.receivables|
            && (forall i | 0 <= i < |f.receivables| && i != k :: g.receivables[i] == f.receivables[i])
            && g.receivables[k] == r.(data := g.receivables[k].data)
            && IsMarked(r.data, g.receivables[k].data, status, day)
            && |g.incoming| == |f.incoming|
            && forall i | 0 <= i < |f.incoming| ::
                 if (status == Returned || status == Bounced) && r.data.assignedIncoming == Some(f.incoming[i].id)
                 then IsOnCreditAgain(f.incoming[i], g.incoming[i], id)
                 else g.incoming[i] == f.incoming[i]
  {
    FirstMeans(f.receivables, RowWith(id));
    assert f.receivables[k] in f.receivables && RowWith(id)(f.receivables[k]);
    DistinctAgree(f.receivables, RowId(), First(f.receivables, RowWith(id)).value, f.receivables[k]);
    forall i | 0 <= i < |f.receivables| && i != k ensures f.receivables[i].id != id {
      assert RowId()(f.receivables[i]) != RowId()(f.receivables[k]);
    }
  }

  lemma MarkKeepsKeys(f: Finance, id: string, status: Status, day: string)
    requires Keyed(f)
    ensures Keyed(SetStatus(f, id, status, day))
  {
    var after := StatusRows(f.receivables, id, status, day);
    assert forall i | 0 <= i < |f.receivables| :: after[i].id == f.receivables[i].id;
    var g := f.(receivables := after);
    assert Keyed(g);
    match First(f.receivables, RowWith(id))
    case None =>
    case Some(selected) =>
      if selected.data.assignedIncoming.Some? {
        ReturnKeepsInvoices(g, selected.data.assignedIncoming.value, id);
      }
  }

  lemma MarkKeepsRef(f: Finance, id: string, status: Status, day: string)
    requires Keyed(f) && Ref(f) && Enabled(f, Mark(id, status, day))
    ensures Ref(SetStatus(f, id, status, day))
  {
    var g, selected := SetStatus(f, id, status, day), First(f.receivables, RowWith(id)).value;
    FirstMeans(f.receivables, RowWith(id));
    forall i | 0 <= i < |f.receivables| ensures Referenced(g.incoming, g.receivables[i]) {
      var r := f.receivables[i];
      assert Referenced(f.incoming, r);
      if r.id == id {
        DistinctAgree(f.receivables, RowId(), r, selected);
      } else if r.data.assignedIncoming.Some? && g.incoming != f.incoming {
        var source, i := selected.data.assignedIncoming.value, r.data.assignedIncoming.value;
        FoundAfterReturn(f.incoming, source, id, i);
        StillEndorses(First(f.incoming, InvoiceWith(i)).value.payments, id, r.id);
      }
    }
  }
}
