/**
 Two computations of account balances: the pull form of the application
 (financial/web/src/App.jsx:1236-1247) and the one-pass push form of the reconciliation script
 (scripts/recon/four_ledger.py:56-85).
 */
module LedgerViews {

  datatype Movement = Movement(account: string, counter: string, direction: string, kind: string, amount: int)

  /** What one movement adds to one account, as the application sums it. */
  function Pulled(id: string, m: Movement): int {
    (if m.account == id then (if m.direction == "in" then m.amount else -m.amount) else 0)
    + if m.kind == "transfer" && m.counter == id then (if m.direction == "in" then -m.amount else m.amount) else 0
  }

  function PullNet(id: string, ms: seq<Movement>): int {
    if ms == [] then 0 else PullNet(id, ms[..|ms| - 1]) + Pulled(id, ms[|ms| - 1])
  }

  function AccountBalance(id: string, opening: int, ms: seq<Movement>): int {
    opening + PullNet(id, ms)
  }

  /** accountBalance's reduce. */
  method AccountBalanceLoop(id: string, opening: int, ms: seq<Movement>) returns (balance: int)
    ensures balance == AccountBalance(id, opening, ms)
  {
    var sum := 0;
    for i := 0 to |ms|
      invariant sum == PullNet(id, ms[..i])
    {
      var m := ms[i];
      assert ms[..i + 1][..i] == ms[..i];
      if m.account == id { sum := sum + if m.direction == "in" then m.amount else -m.amount; }
      if m.kind == "transfer" && m.counter == id { sum := sum + if m.direction == "in" then -m.amount else m.amount; }
    }
    assert ms[..|ms|] == ms;
    balance := opening + sum;
  }

  /** A balance starts at the opening, moves with its own movements and against transfers that name it as counter. */
  lemma BalanceMoves(id: string, opening: int, ms: seq<Movement>, m: Movement)
    ensures AccountBalance(id, opening, []) == opening
    ensures var step := AccountBalance(id, opening, ms + [m]) - AccountBalance(id, opening, ms);
            var own, other := m.account == id, m.kind == "transfer" && m.counter == id;
            && (own == other ==> step == 0)
            && (own && !other ==> step == if m.direction == "in" then m.amount else -m.amount)
            && (other && !own ==> step == if m.direction == "in" then -m.amount else m.amount)
  {
    assert (ms + [m])[..|ms|] == ms;
  }

  type Nets = map<string, int>

  /** What one movement does to the script's table. */
  function Pushed(ws: Nets, m: Movement): (r: Nets)
    ensures r.Keys == ws.Keys
  {
    if m.account !in ws then ws
    else
      var own := ws[m.account := ws[m.account] + if m.direction == "in" then m.amount else -m.amount];
      if m.kind == "transfer" && m.counter in ws
      then own[m.counter := own[m.counter] + if m.direction == "out" then m.amount else -m.amount]
      else own
  }

  function PushNets(ws: Nets, ms: seq<Movement>): (r: Nets)
    ensures r.Keys == ws.Keys
  {
    if ms == [] then ws else Pushed(PushNets(ws, ms[..|ms| - 1]), ms[|ms| - 1])
  }

  /** The accumulation loop over all movements. */
  method PushLoop(start: Nets, ms: seq<Movement>) returns (ws: Nets)
    ensures ws == PushNets(start, ms)
  {
    ws := start;
    for i := 0 to |ms|
      invariant ws == PushNets(start, ms[..i])
    {
      var m := ms[i];
      assert ms[..i + 1][..i] == ms[..i];
      if m.account !in ws { continue; }
      if m.direction == "in" {
        ws := ws[m.account := ws[m.account] + m.amount];
      } else {
        ws := ws[m.account := ws[m.account] - m.amount];
      }
      if m.kind == "transfer" && m.counter in ws {
        ws := ws[m.counter := ws[m.counter] + if m.direction == "out" then m.amount else -m.amount];
      }
    }
    assert ms[..|ms|] == ms;
  }

  /**
   A movement both forms book alike: unless it is a transfer of something to a known counter-account,
   and then its own account must be known and its direction "in" or "out".
   */
  predicate BookedAlike(accounts: set<string>, m: Movement) {
    m.kind == "transfer" && m.counter in accounts && m.amount != 0 ==>
      m.account in accounts && m.direction in {"in", "out"}
  }

  /** Both forms show the same net for every account. */
  ghost predicate ViewsAgree(ws: Nets, ms: seq<Movement>) {
    forall id | id in ws :: PushNets(ws, ms)[id] == ws[id] + PullNet(id, ms)
  }

  lemma PushedIsPulled(ws: Nets, m: Movement, id: string)
    requires id in ws
    ensures BookedAlike(ws.Keys, m) ==> Pushed(ws, m)[id] == ws[id] + Pulled(id, m)
    ensures !BookedAlike(ws.Keys, m) && id == m.counter ==> Pushed(ws, m)[id] != ws[id] + Pulled(id, m)
  {
  }

  /**
   The two forms agree on every account after every prefix of the movements exactly when every
   movement is one they book alike.
   */
  lemma PushEqualsPullIff(ws: Nets, ms: seq<Movement>)
    ensures (forall n | 0 <= n <= |ms| :: ViewsAgree(ws, ms[..n]))
       <==> (forall i | 0 <= i < |ms| :: BookedAlike(ws.Keys, ms[i]))
  {
    if forall i | 0 <= i < |ms| :: BookedAlike(ws.Keys, ms[i]) {
      forall n | 0 <= n <= |ms| ensures ViewsAgree(ws, ms[..n]) {
        PushEqualsPull(ws, ms[..n]);
      }
    } else {
      var i :| 0 <= i < |ms| && !BookedAlike(ws.Keys, ms[i]);
      var id := ms[i].counter;
      assert ms[..i + 1][..i] == ms[..i];
      PushedIsPulled(PushNets(ws, ms[..i]), ms[i], id);
      if ViewsAgree(ws, ms[..i]) {
        assert PushNets(ws, ms[..i])[id] == ws[id] + PullNet(id, ms[..i]);
        assert !ViewsAgree(ws, ms[..i + 1]);
      }
    }
  }

  lemma {:induction false} PushEqualsPull(ws: Nets, ms: seq<Movement>)
    requires forall i | 0 <= i < |ms| :: BookedAlike(ws.Keys, ms[i])
    ensures ViewsAgree(ws, ms)
  {
    if ms != [] {
      var n := |ms| - 1;
      PushEqualsPull(ws, ms[..n]);
      forall id | id in ws ensures PushNets(ws, ms)[id] == ws[id] + PullNet(id, ms) {
        PushedIsPulled(PushNets(ws, ms[..n]), ms[n], id);
      }
    }
  }

  // ---------------------------------------------------------------- transfers move nothing out

  /** The sum of balances over a list of accounts. */
  function Total(ids: seq<string>, ms: seq<Movement>): int {
    if ids == [] then 0 else PullNet(ids[0], ms) + Total(ids[1..], ms)
  }

  /** x once for every time id is listed. */
  function Listed(ids: seq<string>, id: string, x: int): int {
    if ids == [] then 0 else (if ids[0] == id then x else 0) + Listed(ids[1..], id, x)
  }

  function Leg(m: Movement): int {
    if m.direction == "in" then m.amount else -m.amount
  }

  lemma PullStep(id: string, ms: seq<Movement>, m: Movement)
    ensures PullNet(id, ms + [m])
         == PullNet(id, ms) + (if m.account == id then Leg(m) else 0)
                            + (if m.kind == "transfer" && m.counter == id then -Leg(m) else 0)
  {
    assert (ms + [m])[..|ms|] == ms;
  }

  /** One movement changes the sum by its own leg and its counter leg, as often as their accounts are listed. */
  lemma {:induction false} TotalStep(ids: seq<string>, ms: seq<Movement>, m: Movement)
    ensures Total(ids, ms + [m]) == Total(ids, ms) + Listed(ids, m.account, Leg(m))
                                    + if m.kind == "transfer" then Listed(ids, m.counter, -Leg(m)) else 0
  {
    if ids != [] {
      TotalStep(ids[1..], ms, m);
      PullStep(ids[0], ms, m);
    }
  }

  lemma {:induction false} ListedOnce(ids: seq<string>, id: string, x: int)
    requires forall i, j | 0 <= i < j < |ids| :: ids[i] != ids[j]
    ensures Listed(ids, id, x) == if id in ids then x else 0
  {
    if ids != [] {
      ListedOnce(ids[1..], id, x);
    }
  }

  /** A transfer leaves the sum of all balances alone exactly when both its accounts are listed or neither is. */
  lemma TransferConservesIff(ids: seq<string>, ms: seq<Movement>, m: Movement)
    requires forall i, j | 0 <= i < j < |ids| :: ids[i] != ids[j]
    requires m.kind == "transfer" && m.amount != 0
    ensures Total(ids, ms + [m]) == Total(ids, ms) <==> (m.account in ids <==> m.counter in ids)
  {
    TotalStep(ids, ms, m);
    ListedOnce(ids, m.account, Leg(m));
    ListedOnce(ids, m.counter, -Leg(m));
  }
}
