/**
 Where the money of an accepted sale goes (financial/web/src/App.jsx:1196-1247, 1817-1830, 4445-4577).
 */
module SettlementMoney {
  import opened Common
  import opened Settlement
  import LedgerViews
  import opened Lists

  /** The worth of the rows of a table. */
  function Value<A>(rows: seq<Row<A>>, worth: A -> int): int { SumOf(Contents(rows), worth) }

  function Worth<A>(posted: Option<A>, worth: A -> int): int {
    match posted case None => 0 case Some(v) => worth(v)
  }

  lemma ValueConcat<A>(a: seq<Row<A>>, b: seq<Row<A>>, worth: A -> int)
    ensures Value(a + b, worth) == Value(a, worth) + Value(b, worth)
  {
    ContentsConcat(a, b);
    SumConcat(Contents(a), Contents(b), worth);
  }

  /** What payment lines post is worth what the lines are. */
  lemma {:induction false} PickedValue<A>(payments: seq<Payment>, pick: Pick<A>, worth: A -> int, line: Payment -> int)
    requires forall i | 0 <= i < |payments| :: line(payments[i]) == Worth(pick(payments[i]), worth)
    ensures SumOf(Picked(payments, pick), worth) == SumOf(payments, line)
  {
    if payments != [] {
      var n := |payments| - 1;
      PickedValue(payments[..n], pick, worth, line);
      SumLast(payments, line);
      var earlier := Picked(payments[..n], pick);
      match pick(payments[n])
      case None => assert [] + earlier == earlier;
      case Some(v) => assert ([v] + earlier)[1..] == earlier;
    }
  }

  // ---------------------------------------------------------------- movements as balances

  function Legs(rows: seq<Row<Transfer>>): seq<LedgerViews.Movement> {
    if rows == [] then [] else [rows[0].data.leg] + Legs(rows[1..])
  }

  /** What one movement adds to the sum of the balances of the known accounts. */
  function KnownLeg(known: seq<string>): Transfer -> int {
    (t: Transfer) =>
      LedgerViews.Listed(known, t.leg.account, LedgerViews.Leg(t.leg))
      + if t.leg.kind == "transfer" then LedgerViews.Listed(known, t.leg.counter, -LedgerViews.Leg(t.leg)) else 0
  }

  lemma {:induction false} PullFirst(id: string, m: LedgerViews.Movement, ms: seq<LedgerViews.Movement>)
    ensures LedgerViews.PullNet(id, [m] + ms) == LedgerViews.Pulled(id, m) + LedgerViews.PullNet(id, ms)
  {
    if ms == [] {
      assert [m] + ms == [m] && [m][..0] == [];
    } else {
      var n := |ms| - 1;
      assert ([m] + ms)[..n + 1] == [m] + ms[..n];
      PullFirst(id, m, ms[..n]);
    }
  }

  lemma {:induction false} TotalFirst(ids: seq<string>, m: LedgerViews.Movement, ms: seq<LedgerViews.Movement>)
    ensures LedgerViews.Total(ids, [m] + ms)
         == LedgerViews.Total(ids, ms) + LedgerViews.Listed(ids, m.account, LedgerViews.Leg(m))
            + if m.kind == "transfer" then LedgerViews.Listed(ids, m.counter, -LedgerViews.Leg(m)) else 0
  {
    if ids != [] {
      TotalFirst(ids[1..], m, ms);
      PullFirst(ids[0], m, ms);
    }
  }

  lemma {:induction false} TotalIsValue(known: seq<string>, rows: seq<Row<Transfer>>)
    ensures LedgerViews.Total(known, Legs(rows)) == Value(rows, KnownLeg(known))
  {
    if rows == [] {
      TotalOfNothing(known);
    } else {
      TotalIsValue(known, rows[1..]);
      assert Contents(rows)[1..] == Contents(rows[1..]);
      TotalFirst(known, rows[0].data.leg, Legs(rows[1..]));
    }
  }

  lemma {:induction false} TotalOfNothing(known: seq<string>)
    ensures LedgerViews.Total(known, []) == 0
  {
    if known != [] {
      TotalOfNothing(known[1..]);
    }
  }

  // ---------------------------------------------------------------- what a line settles

  predicate DistinctAccounts(known: seq<string>) {
    forall i, j | 0 <= i < j < |known| :: known[i] != known[j]
  }

  function CashTo(known: seq<string>): Payment -> int {
    (p: Payment) => if p.kind.Cash? && p.account in known then p.amount else 0
  }

  function ByCheck(): Payment -> int { (p: Payment) => if p.kind.Check? then p.amount else 0 }

  function ByBarter(): Payment -> int {
    (p: Payment) => if p.kind.BarterYarn? || p.kind.BarterFabric? then p.amount else 0
  }

  function OnCredit(): Payment -> int { (p: Payment) => if p.kind.Credit? then p.amount else 0 }

  function NotOnCredit(): Payment -> int { (p: Payment) => if p.kind.Credit? then 0 else p.amount }

  /** Lines no table, account or debt records for a sale: cash to an unknown account, and endorsed checks. */
  predicate Unrecorded(known: seq<string>, p: Payment) {
    (p.kind.Cash? && p.account !in known) || p.kind.AssignReceivable?
  }

  function Lost(known: seq<string>): Payment -> int {
    (p: Payment) => if Unrecorded(known, p) then p.amount else 0
  }

  function CheckAmount(): Receivable -> int { (r: Receivable) => r.amount }

  function StockAmount(): Stock -> int { (x: Stock) => x.amount }

  function PaidAmount(s: Sale): int { SumOf(s.payments, NotOnCredit()) }

  function CreditAmount(s: Sale): int { SumOf(s.payments, OnCredit()) }

  function InvoiceDebt(s: Sale): int {
    var credit := CreditAmount(s);
    if credit != 0 then credit else if s.total > PaidAmount(s) then s.total - PaidAmount(s) else 0
  }

  lemma {:induction false} LinesSplit(payments: seq<Payment>, known: seq<string>)
    ensures Sum(payments)
         == SumOf(payments, CashTo(known)) + SumOf(payments, ByCheck()) + SumOf(payments, ByBarter())
            + SumOf(payments, OnCredit()) + SumOf(payments, Lost(known))
    ensures Sum(payments) == SumOf(payments, NotOnCredit()) + SumOf(payments, OnCredit())
  {
    if payments != [] {
      LinesSplit(payments[..|payments| - 1], known);
      SumLast(payments, CashTo(known));
      SumLast(payments, ByCheck());
      SumLast(payments, ByBarter());
      SumLast(payments, OnCredit());
      SumLast(payments, NotOnCredit());
      SumLast(payments, Lost(known));
    }
  }

  lemma {:induction false} ActiveAll(payments: seq<Payment>)
    requires forall i | 0 <= i < |payments| :: payments[i].amount > 0
    ensures Active(payments) == payments
  {
    if payments != [] {
      ActiveAll(payments[..|payments| - 1]);
    }
  }

  lemma {:induction false} NothingLostIff(payments: seq<Payment>, known: seq<string>)
    requires forall i | 0 <= i < |payments| :: payments[i].amount > 0
    ensures SumOf(payments, Lost(known)) >= 0
    ensures SumOf(payments, Lost(known)) == 0 <==> forall i | 0 <= i < |payments| :: !Unrecorded(known, payments[i])
  {
    if payments != [] {
      var n := |payments| - 1;
      NothingLostIff(payments[..n], known);
      SumLast(payments, Lost(known));
      assert forall i | 0 <= i < n :: payments[..n][i] == payments[i];
    }
  }

  /** A sale as its form saves it: only positive lines, accepted by paymentValidationError. */
  predicate Accepted(s: Sale) {
    && (forall i | 0 <= i < |s.payments| :: s.payments[i].amount > 0)
    && PaymentProblem(s.payments, s.total).None?
  }

  lemma AcceptedBalances(s: Sale)
    requires Accepted(s)
    ensures Within(s.total - Sum(s.payments), s.total)
  {
    ActiveAll(s.payments);
  }

  // ---------------------------------------------------------------- conservation

  /** How much saving the sale raises the sum of the known accounts' balances over the books without it. */
  function Inflow(f: Finance, g: Finance, o: Origin, known: seq<string>): int {
    LedgerViews.Total(known, Legs(g.movements)) - LedgerViews.Total(known, Legs(Without(f.movements, o)))
  }

  lemma CashArrives(s: Sale, known: seq<string>)
    requires DistinctAccounts(known)
    ensures SumOf(Picked(s.payments, SaleMovement(s)), KnownLeg(known)) == SumOf(s.payments, CashTo(known))
  {
    forall i | 0 <= i < |s.payments|
      ensures CashTo(known)(s.payments[i]) == Worth(SaleMovement(s)(s.payments[i]), KnownLeg(known))
    {
      LedgerViews.ListedOnce(known, s.payments[i].account, s.payments[i].amount);
    }
    PickedValue(s.payments, SaleMovement(s), KnownLeg(known), CashTo(known));
  }

  /** What a sale has settled: in the bank, as checks in hand, as goods in stock, and as open credit. */
  function Settled(f: Finance, g: Finance, s: Sale, known: seq<string>): int {
    var o := FromSale(s.number);
    Inflow(f, g, o, known)
    + Value(From(g.receivables, o), CheckAmount())
    + Value(From(g.stock, o), StockAmount())
    + CreditAmount(s)
  }

  /** Every unit of every line is settled or lost, and nothing of an older sale of that number is left. */
  lemma SaleMoneyIsConserved(f: Finance, s: Sale, ids: nat -> string, known: seq<string>)
    requires DistinctAccounts(known)
    ensures Settled(f, SaveSale(f, s, ids), s, known) + SumOf(s.payments, Lost(known)) == Sum(s.payments)
  {
    var g, o := SaveSale(f, s, ids), FromSale(s.number);
    var movements := Posted(s.payments, SaleMovement(s), o, ids);
    var checks, goods := Posted(s.payments, SaleCheck(s), o, ids), Posted(s.payments, SaleStock(s), o, ids);
    TotalIsValue(known, g.movements);
    TotalIsValue(known, Without(f.movements, o));
    ValueConcat(movements, Without(f.movements, o), KnownLeg(known));
    CashArrives(s, known);
    PostedMeans(s.payments, SaleMovement(s), o, ids);
    PostedMeans(s.payments, SaleCheck(s), o, ids);
    PostedMeans(s.payments, SaleStock(s), o, ids);
    ReplaceMeans(f.receivables, checks, o, o);
    ReplaceMeans(f.stock, goods, o, o);
    PickedValue(s.payments, SaleCheck(s), CheckAmount(), ByCheck());
    PickedValue(s.payments, SaleStock(s), StockAmount(), ByBarter());
    LinesSplit(s.payments, known);
  }

  /**
   An accepted sale settles its total up to the validation tolerance and the lost lines, and nothing is
   lost exactly when all cash goes to known accounts and no check is endorsed.
   */
  lemma AcceptedSaleIsSettled(f: Finance, s: Sale, ids: nat -> string, known: seq<string>)
    requires DistinctAccounts(known)
    requires Accepted(s)
    ensures Within(s.total - (Settled(f, SaveSale(f, s, ids), s, known) + SumOf(s.payments, Lost(known))), s.total)
    ensures SumOf(s.payments, Lost(known)) == 0
       <==> forall i | 0 <= i < |s.payments| :: !Unrecorded(known, s.payments[i])
  {
    SaleMoneyIsConserved(f, s, ids, known);
    AcceptedBalances(s);
    assert SumOf(s.payments, Lost(known)) == 0
      <==> (forall i | 0 <= i < |s.payments| :: !Unrecorded(known, s.payments[i])) by {
      NothingLostIff(s.payments, known);
    }
  }

  /** Paid amount and debt of an accepted sale add up to its total, within the same tolerance. */
  lemma PaidAndOwedIsTotal(s: Sale)
    requires Accepted(s)
    ensures Within(s.total - (PaidAmount(s) + InvoiceDebt(s)), s.total)
  {
    AcceptedBalances(s);
    LinesSplit(s.payments, []);
  }

  /** For any sale, accepted or not: what paid and owed add up to. */
  lemma PaidAndOwedIs(s: Sale)
    ensures PaidAmount(s) + InvoiceDebt(s)
         == if CreditAmount(s) != 0 || Sum(s.payments) >= s.total then Sum(s.payments) else s.total
  {
    LinesSplit(s.payments, []);
  }

  // ---------------------------------------------------------------- incoming invoices

  function CashFrom(known: seq<string>): Payment -> int {
    (p: Payment) => if p.kind.Cash? && p.account in known then -p.amount else 0
  }

  function ByEndorsement(): Payment -> int { (p: Payment) => if p.kind.AssignReceivable? then p.amount else 0 }

  /** Lines nothing records for an incoming invoice: cash from an unknown account, and barter. */
  predicate UnrecordedIncoming(known: seq<string>, p: Payment) {
    (p.kind.Cash? && p.account !in known) || p.kind.BarterYarn? || p.kind.BarterFabric?
  }

  function LostIncoming(known: seq<string>): Payment -> int {
    (p: Payment) => if UnrecordedIncoming(known, p) then p.amount else 0
  }

  function PayableAmount(): Payable -> int { (p: Payable) => p.amount }

  lemma CashLeaves(inv: Incoming, known: seq<string>)
    requires DistinctAccounts(known)
    ensures SumOf(Picked(inv.payments, IncomingMovement(inv)), KnownLeg(known)) == SumOf(inv.payments, CashFrom(known))
  {
    forall i | 0 <= i < |inv.payments|
      ensures CashFrom(known)(inv.payments[i]) == Worth(IncomingMovement(inv)(inv.payments[i]), KnownLeg(known))
    {
      LedgerViews.ListedOnce(known, inv.payments[i].account, -inv.payments[i].amount);
      assert |"out"| == 3 && |"in"| == 2;
    }
    PickedValue(inv.payments, IncomingMovement(inv), KnownLeg(known), CashFrom(known));
  }

  lemma {:induction false} IncomingLinesSplit(payments: seq<Payment>, known: seq<string>)
    ensures Sum(payments)
         == -SumOf(payments, CashFrom(known)) + SumOf(payments, ByCheck()) + SumOf(payments, ByEndorsement())
            + SumOf(payments, OnCredit()) + SumOf(payments, LostIncoming(known))
  {
    if payments != [] {
      IncomingLinesSplit(payments[..|payments| - 1], known);
      SumLast(payments, CashFrom(known));
      SumLast(payments, ByCheck());
      SumLast(payments, ByEndorsement());
      SumLast(payments, OnCredit());
      SumLast(payments, LostIncoming(known));
    }
  }

  /** What an incoming invoice costs: out of the bank, as own checks, as endorsed checks, and as open credit. */
  function PaidOut(f: Finance, g: Finance, inv: Incoming, known: seq<string>): int {
    var o := FromIncoming(inv.id);
    -Inflow(f, g, o, known)
    + Value(From(g.payables, o), PayableAmount())
    + SumOf(inv.payments, ByEndorsement())
    + SumOf(inv.payments, OnCredit())
  }

  /** Every unit of every line is paid out or unrecorded, and nothing of an older version of the invoice is left. */
  lemma IncomingMoneyIsConserved(
      f: Finance, inv: Incoming, ids: nat -> string, stockId: string, day: string, known: seq<string>)
    requires DistinctAccounts(known)
    ensures PaidOut(f, SaveIncoming(f, inv, ids, stockId, day), inv, known) + SumOf(inv.payments, LostIncoming(known))
         == Sum(inv.payments)
  {
    var g, o := SaveIncoming(f, inv, ids, stockId, day), FromIncoming(inv.id);
    var movements := Posted(inv.payments, IncomingMovement(inv), o, ids);
    TotalIsValue(known, g.movements);
    TotalIsValue(known, Without(f.movements, o));
    ValueConcat(movements, Without(f.movements, o), KnownLeg(known));
    CashLeaves(inv, known);
    PostedMeans(inv.payments, IncomingMovement(inv), o, ids);
    PostedMeans(inv.payments, IncomingCheck(inv), o, ids);
    ReplaceMeans(f.payables, Posted(inv.payments, IncomingCheck(inv), o, ids), o, o);
    PickedValue(inv.payments, IncomingCheck(inv), PayableAmount(), ByCheck());
    IncomingLinesSplit(inv.payments, known);
  }
}
