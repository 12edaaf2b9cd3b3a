/**
 Runs in which the workspace client loses work (financial/web/src/App.jsx:876-984, 1065-1082): giving up after a
 sixth refusal, a quiet poll that merges after a reviewed commit, and a save that is cut off.
 */
module WorkspaceLosses {
  import opened Common
  import opened WorkspaceMerge
  import opened WorkspaceSync
  import WorkspaceRuns

  // ---------------------------------------------------------------- documents

  function OneRow(content: string): Row {
    Row(Some("7"), None, None, None, None, content)
  }

  function OneRowDoc(content: string): Doc {
    map["invoices" := Rows([OneRow(content)])]
  }

  lemma OneRowAt(content: string)
    ensures At(OneRowDoc(content), RowCell("invoices", Named("7"))) == Some(RowContent(OneRow(content)))
  {
    var rows := [OneRow(content)];
    assert rows[..0] == [] && "7"[0] == '7';
    assert RowKey(rows[0]) == Named("7");
    assert RowMap(rows) == map[RowKey(rows[0]) := rows[0]];
    assert Lookup(OneRowDoc(content), "invoices") == Some(Rows(rows));
  }

  // ---------------------------------------------------------------- giving up

  // Two users: client 0 has a note of its own, client 1 changes the one invoice again and again.

  function Text(k: nat): string {
    seq(k, i requires 0 <= i < k => 'x')
  }

  function Doc2(k: nat, note: string): Doc {
    map["invoices" := Rows([OneRow(Text(k))]), "note" := Scalar(note)]
  }

  function Invoice(): Cell { RowCell("invoices", Named("7")) }

  lemma InvoiceAt(k: nat, note: string)
    ensures At(Doc2(k, note), Invoice()) == Some(RowContent(OneRow(Text(k))))
    ensures RowMap([OneRow(Text(k))]) == map[Named("7") := OneRow(Text(k))]
    ensures |OneRow(Text(k)).rest| == k
  {
    var rows := [OneRow(Text(k))];
    assert rows[..0] == [] && "7"[0] == '7';
    assert RowKey(rows[0]) == Named("7");
    assert Lookup(Doc2(k, note), "invoices") == Some(Rows(rows));
  }

  lemma DocsDiffer(k: nat, j: nat, note: string, other: string)
    ensures k != j ==> Doc2(k, note) != Doc2(j, other)
    ensures note != other ==> Doc2(k, note) != Doc2(j, other)
  {
    InvoiceAt(k, note);
    InvoiceAt(j, other);
    assert Doc2(k, note)["note"] == Scalar(note) && Doc2(j, other)["note"] == Scalar(other);
  }

  lemma MergeOneRow(b: Row, v: Row)
    requires RowKey(b) == RowKey(v)
    ensures MergeRows([b], [v], [b]) == [v]
  {
    var bs, vs := [b], [v];
    assert bs[..0] == [] && vs[..0] == [];
    assert RowMap(bs) == map[RowKey(b) := b] && RowMap(vs) == map[RowKey(v) := v];
    assert Overlay(vs, RowMap(bs), RowMap(bs)) == [PickRow(v, RowMap(bs), RowMap(bs))];
    assert Unseen(bs, RowMap(vs).Keys) == [];
  }

  /** Merging takes over the invoice as the server has it and keeps the note. */
  lemma MergeTakesInvoice(k: nat)
    ensures MergeDocs(Doc2(k, ""), Doc2(k + 1, ""), Doc2(k, "mine")) == Doc2(k + 1, "mine")
  {
    var base, server, local := Doc2(k, ""), Doc2(k + 1, ""), Doc2(k, "mine");
    assert "7"[0] == '7';
    MergeOneRow(OneRow(Text(k)), OneRow(Text(k + 1)));
    assert MergedField(base, server, local, "invoices") == Some(Rows([OneRow(Text(k + 1))]));
    assert |"mine"| == 4 && MergedField(base, server, local, "note") == Some(Scalar("mine"));
    LookupDetermines(MergeDocs(base, server, local), Doc2(k + 1, "mine"));
  }

  // The clients and the server in round k, in which client 1 stores version k + 1 before client 0's PUT arrives.

  ghost function Theirs(k: nat): Client { Adopt(Doc2(k, ""), k) }

  ghost function TheirsEdited(k: nat): Client { EditClient(Theirs(k), Doc2(k + 1, "")) }

  ghost function Mine(k: nat): Client {
    Client(Doc2(k, "mine"), Doc2(k, ""), k, true, k, Idle, iset{} + Changed(Doc2(0, ""), Doc2(0, "mine")),
           iset{}, iset{}, iset{}, false, k, 0)
  }

  ghost function Stored(k: nat): (h: seq<Version>)
    ensures |h| == k + 1 && h[k].doc == Doc2(k, "")
  {
    if k == 0 then [Version(Doc2(0, ""), None)]
    else
      var req := Request(1, Doc2(k, ""), k - 1, TheirsEdited(k - 1).Blame(), k - 1);
      Stored(k - 1) + [Version(Doc2(k, ""), Some(req))]
  }

  ghost function Both(k: nat, mine: Client, theirs: Client): System {
    System(Server(map[], {"invoices"}, Stored(k)), map[0 := mine, 1 := theirs], [])
  }

  ghost function Refusal(k: nat): Client { Mine(k).(phase := Refused(k + 1)) }

  ghost function Round(k: nat, i: nat): System {
    var sending := Mine(k).(phase := InFlight(Doc2(k, "mine"), Mine(k).Blame()));
    match i
    case 0 => Both(k, Mine(k), Theirs(k))
    case 1 => Both(k, sending, Theirs(k))
    case 2 => Both(k, sending, TheirsEdited(k))
    case 3 => Both(k, sending, TheirsEdited(k).(phase := InFlight(Doc2(k + 1, ""), TheirsEdited(k).Blame())))
    case 4 => Both(k + 1, sending, TheirsEdited(k).(phase := Acked(Doc2(k + 1, ""), k + 1)))
    case 5 => Both(k + 1, sending, Theirs(k + 1))
    case 6 => Both(k + 1, Refusal(k), Theirs(k + 1))
    case _ => Both(k + 1, AfterRefusal(Refusal(k), Doc2(k + 1, ""), k + 1), Theirs(k + 1))
  }

  function RoundStep(k: nat, i: nat): Step {
    match i
    case 0 => Save(0)
    case 1 => Edit(1, Doc2(k + 1, ""))
    case 2 => Save(1)
    case 3 => Deliver(1)
    case 4 => Accepted(1, true)
    case 5 => Deliver(0)
    case _ => Conflict(0)
  }

  lemma BothPut(k: nat, a: Client, b: Client, c: Client)
    ensures Both(k, a, b).Put(0, c) == Both(k, c, b) && Both(k, a, b).Put(1, c) == Both(k, a, c)
    ensures Both(k, a, b).View(k) == Doc2(k, "") && WellFormed(Both(k, a, b).server, Doc2(k + 1, ""))
  {
    assert map[0 := a, 1 := b][0 := c] == map[0 := c, 1 := b];
    assert map[0 := a, 1 := b][1 := c] == map[0 := a, 1 := c];
    assert map[] + Doc2(k, "") == Doc2(k, "");
  }

  lemma RoundOpens(k: nat, i: nat)
    requires i < 3
    ensures Enabled(Round(k, i), RoundStep(k, i)) && Apply(Round(k, i), RoundStep(k, i)) == Round(k, i + 1)
  {
    DocsDiffer(k, k, "mine", "");
    DocsDiffer(k, k + 1, "", "");
    var s := Round(k, i);
    BothPut(k, s.clients[0], s.clients[1], Round(k, i + 1).clients[if i == 0 then 0 else 1]);
  }

  lemma StoreTheirs(k: nat)
    ensures var req := Request(1, Doc2(k + 1, ""), k, TheirsEdited(k).Blame(), k);
            Store(Server(map[], {"invoices"}, Stored(k)), req) == Server(map[], {"invoices"}, Stored(k + 1))
  {
  }

  lemma TheirsStored(k: nat)
    ensures Enabled(Round(k, 3), Deliver(1)) && Apply(Round(k, 3), Deliver(1)) == Round(k, 4)
  {
    var s, t := Round(k, 3), Round(k, 4);
    var sent := s.clients[1];
    StoreTheirs(k);
    assert SentBy(1, sent) == Request(1, Doc2(k + 1, ""), k, TheirsEdited(k).Blame(), k);
    assert Answer(s.server, sent) == Acked(Doc2(k + 1, ""), k + 1);
    BothPut(k + 1, s.clients[0], sent, t.clients[1]);
  }

  lemma TheirsAccepted(k: nat)
    ensures Enabled(Round(k, 4), Accepted(1, true)) && Apply(Round(k, 4), Accepted(1, true)) == Round(k, 5)
  {
    var s := Round(k, 4);
    BothPut(k + 1, s.clients[0], s.clients[1], Theirs(k + 1));
  }

  lemma MineRefused(k: nat, i: nat)
    requires i == 5 || i == 6
    ensures Enabled(Round(k, i), RoundStep(k, i)) && Apply(Round(k, i), RoundStep(k, i)) == Round(k, i + 1)
  {
    var s := Round(k, i);
    BothPut(k + 1, s.clients[0], s.clients[1], Round(k, i + 1).clients[0]);
  }

  lemma RoundMoves(k: nat, i: nat)
    requires i < 7
    ensures Enabled(Round(k, i), RoundStep(k, i)) && Apply(Round(k, i), RoundStep(k, i)) == Round(k, i + 1)
  {
    if i < 3 { RoundOpens(k, i); }
    else if i == 3 { TheirsStored(k); }
    else if i == 4 { TheirsAccepted(k); }
    else { MineRefused(k, i); }
  }

  /** The rebase of a round brings nothing back: the server has dropped nothing. */
  lemma NothingBroughtBack(k: nat)
    ensures BroughtBack(Refusal(k), Doc2(k + 1, "")) == iset{}
  {
    var base, view := Doc2(k, ""), Doc2(k + 1, "");
    InvoiceAt(k, "");
    InvoiceAt(k + 1, "");
    forall c: Cell | c.RowCell? && At(base, c).Some? ensures At(view, c).Some? {
      assert Lookup(base, "note") == Some(Scalar("")) && Lookup(base, "invoices") == Some(Rows([OneRow(Text(k))]));
      assert Lookup(view, "invoices") == Some(Rows([OneRow(Text(k + 1))]));
    }
  }

  /** A round with fewer than five refusals before it ends where the next one begins. */
  lemma NextRound(k: nat)
    requires k < 5
    ensures Round(k, 7) == Round(k + 1, 0)
  {
    MergeTakesInvoice(k);
    NothingBroughtBack(k);
    assert AfterRefusal(Refusal(k), Doc2(k + 1, ""), k + 1) == Mine(k + 1);
  }

  // The run: rounds, giving up in the last, and the save that overwrites.

  ghost function Resumed(last: nat): Client {
    AfterRefusal(Refusal(last), Doc2(last + 1, ""), last + 1).(attempts := 0)
  }

  /** What client 0 sends after giving up: the invoice as it was before the last round. */
  ghost function Overwriting(last: nat): Request {
    Request(0, Doc2(last, "mine"), last + 1, Resumed(last).Blame(), 0)
  }

  ghost function End(last: nat, i: nat): System {
    match i
    case 0 => Both(last + 1, AfterRefusal(Refusal(last), Doc2(last + 1, ""), last + 1), Theirs(last + 1))
    case 1 => Both(last + 1, Resumed(last), Theirs(last + 1))
    case 2 => Both(last + 1, Sending(last), Theirs(last + 1))
    case _ =>
      System(Server(map[], {"invoices"}, Stored(last + 1) + [Version(Doc2(last, "mine"), Some(Overwriting(last)))]),
             map[0 := Sending(last).(phase := Acked(Doc2(last, "mine"), last + 2)), 1 := Theirs(last + 1)], [])
  }

  function EndStep(i: nat): Step {
    match i case 0 => Resume(0) case 1 => Save(0) case _ => Deliver(0)
  }

  ghost function RunState(last: nat, n: nat): System {
    var start := Adopt(Doc2(0, ""), 0);
    if n == 0 then System(Server(map[], {"invoices"}, Stored(0)), map[], [])
    else if n == 1 then System(Server(map[], {"invoices"}, Stored(0)), map[0 := start], [])
    else if n == 2 then Both(0, start, start)
    else if n < 45 then Round((n - 3) / 7, (n - 3) % 7)
    else End(last, n - 45)
  }

  function RunStep(n: nat): Step {
    if n == 0 then Load(0, 0)
    else if n == 1 then Load(1, 0)
    else if n == 2 then Edit(0, Doc2(0, "mine"))
    else if n < 45 then RoundStep((n - 3) / 7, (n - 3) % 7)
    else EndStep(n - 45)
  }

  ghost predicate Moves(last: nat, n: nat) {
    Enabled(RunState(last, n), RunStep(n)) && Apply(RunState(last, n), RunStep(n)) == RunState(last, n + 1)
  }

  lemma RunOpens(last: nat, n: nat)
    requires n < 3
    ensures Moves(last, n)
  {
    var start := Adopt(Doc2(0, ""), 0);
    BothPut(0, start, start, Mine(0));
    if n == 1 {
      assert map[0 := start][1 := start] == map[0 := start, 1 := start];
    }
  }

  lemma RunGoesRound(last: nat, n: nat, k: nat, i: nat)
    requires last == 5 && k < 6 && i < 7 && n == 3 + 7 * k + i
    ensures Moves(last, n)
  {
    RoundMoves(k, i);
    assert (n - 3) / 7 == k && (n - 3) % 7 == i;
    if i < 6 {
      assert (n - 2) / 7 == k && (n - 2) % 7 == i + 1;
    } else if k < last {
      NextRound(k);
      assert (n - 2) / 7 == k + 1 && (n - 2) % 7 == 0;
    }
  }

  /** The server takes the PUT of client 0, which carries the current revision. */
  lemma DeliverTop(h: seq<Version>, mine: Client, theirs: Client)
    requires mine.phase.InFlight? && mine.rev + 1 == |h|
    ensures var s := System(Server(map[], {"invoices"}, h), map[0 := mine, 1 := theirs], []);
            && Enabled(s, Deliver(0))
            && Apply(s, Deliver(0)) ==
               System(Server(map[], {"invoices"}, h + [Version(mine.phase.sent, Some(SentBy(0, mine)))]),
                      map[0 := mine.(phase := Acked(mine.phase.sent, |h|)), 1 := theirs], [])
  {
    var next := mine.(phase := Acked(mine.phase.sent, |h|));
    assert map[0 := mine, 1 := theirs][0 := next] == map[0 := next, 1 := theirs];
  }

  ghost function Sending(last: nat): Client {
    Resumed(last).(phase := InFlight(Doc2(last, "mine"), Resumed(last).Blame()))
  }

  lemma OverwritingIsOnItsWay(last: nat)
    requires last >= 5
    ensures SentBy(0, Sending(last)) == Overwriting(last) && Sending(last).rev == last + 1
  {
  }

  lemma PauseEnds(last: nat)
    ensures Enabled(End(last, 0), Resume(0)) && Apply(End(last, 0), Resume(0)) == End(last, 1)
  {
    var s := End(last, 0);
    BothPut(last + 1, s.clients[0], s.clients[1], Resumed(last));
  }

  lemma SaveTop(h: seq<Version>, mine: Client, theirs: Client)
    requires mine.phase.Idle? && mine.value != mine.base
    ensures var s := System(Server(map[], {"invoices"}, h), map[0 := mine, 1 := theirs], []);
            var next := mine.(phase := InFlight(mine.value, mine.Blame()));
            Enabled(s, Save(0)) && Apply(s, Save(0)) == s.(clients := map[0 := next, 1 := theirs])
  {
    var next := mine.(phase := InFlight(mine.value, mine.Blame()));
    assert map[0 := mine, 1 := theirs][0 := next] == map[0 := next, 1 := theirs];
  }

  lemma ResumedOldContent(last: nat)
    requires last >= 5
    ensures var cl := Resumed(last);
            cl.value == Doc2(last, "mine") && cl.base == Doc2(last + 1, "") && cl.phase.Idle?
  {
  }

  lemma OverwritingSent(last: nat)
    requires last >= 5
    ensures Enabled(End(last, 1), Save(0)) && Apply(End(last, 1), Save(0)) == End(last, 2)
  {
    DocsDiffer(last, last + 1, "mine", "");
    ResumedOldContent(last);
    SaveTop(Stored(last + 1), Resumed(last), Theirs(last + 1));
  }

  lemma OverwritingStored(last: nat)
    requires last >= 5
    ensures Enabled(End(last, 2), Deliver(0)) && Apply(End(last, 2), Deliver(0)) == End(last, 3)
  {
    OverwritingIsOnItsWay(last);
    DeliverTop(Stored(last + 1), Sending(last), Theirs(last + 1));
  }

  lemma EndMoves(last: nat, i: nat)
    requires last >= 5 && i < 3
    ensures Enabled(End(last, i), EndStep(i)) && Apply(End(last, i), EndStep(i)) == End(last, i + 1)
  {
    if i == 0 { PauseEnds(last); } else if i == 1 { OverwritingSent(last); } else { OverwritingStored(last); }
  }

  lemma RunMoves(last: nat, n: nat)
    requires last == 5 && n < 48
    ensures Moves(last, n)
  {
    if n < 3 { RunOpens(last, n); }
    else if n < 45 { RunGoesRound(last, n, (n - 3) / 7, (n - 3) % 7); }
    else { EndMoves(last, n - 45); }
  }

  lemma NoForeignEdit(last: nat, n: nat)
    requires n < 48
    ensures !WorkspaceRuns.Edits(RunState(last, n), RunStep(n), 0, Invoice())
  {
    InvoiceAt(0, "");
    InvoiceAt(0, "mine");
  }

  lemma TopViews(h: seq<Version>, top: Version)
    requires h != []
    ensures var v := Server(map[], {"invoices"}, h + [top]);
            v.View(|h|) == top.doc && v.View(|h| - 1) == h[|h| - 1].doc
  {
    assert map[] + top.doc == top.doc && map[] + h[|h| - 1].doc == h[|h| - 1].doc;
  }

  /** The last version is by client 0 and changes the invoice. */
  ghost predicate LastOverwrites(s: System) {
    var r := |s.server.history| - 1;
    && r > 0 && s.server.history[r].put.Some? && s.server.history[r].put.value.author == 0
    && At(s.View(r), Invoice()).Some? && At(s.View(r - 1), Invoice()).Some?
    && At(s.View(r), Invoice()) != At(s.View(r - 1), Invoice())
  }

  /** And client 0 never edited it. */
  ghost predicate OverwritesForeign(run: seq<System>, steps: seq<Step>)
    requires |run| == |steps| + 1
  {
    && (forall i | 0 <= i < |steps| :: !WorkspaceRuns.Edits(run[i], steps[i], 0, Invoice()))
    && LastOverwrites(run[|steps|])
  }

  lemma TopOverwrites(s: System, h: seq<Version>, req: Request, k: nat)
    requires s.server == Server(map[], {"invoices"}, h + [Version(Doc2(k, "mine"), Some(req))]) && req.author == 0
    requires h != [] && h[|h| - 1].doc == Doc2(k + 1, "")
    ensures LastOverwrites(s)
  {
    TopViews(h, Version(Doc2(k, "mine"), Some(req)));
    InvoicesDiffer(k);
  }

  lemma InvoicesDiffer(k: nat)
    ensures var mine, theirs := At(Doc2(k, "mine"), Invoice()), At(Doc2(k + 1, ""), Invoice());
            mine.Some? && theirs.Some? && mine != theirs
  {
    InvoiceAt(k, "mine");
    InvoiceAt(k + 1, "");
  }

  ghost function RunStates(last: nat): (run: seq<System>)
    ensures |run| == 49 && forall n | 0 <= n < 49 :: run[n] == RunState(last, n)
  {
    seq(49, n requires 0 <= n < 49 => RunState(last, n))
  }

  function RunSteps(): (steps: seq<Step>)
    ensures |steps| == 48 && forall n | 0 <= n < 48 :: steps[n] == RunStep(n)
  {
    seq(48, n requires 0 <= n < 48 => RunStep(n))
  }

  lemma RunStatesMove(last: nat)
    requires last == 5
    ensures IsRun(RunStates(last), RunSteps())
  {
    var run, steps := RunStates(last), RunSteps();
    assert Initial(RunState(last, 0));
    forall n | 0 <= n < 48 ensures Enabled(run[n], steps[n]) && run[n + 1] == Apply(run[n], steps[n]) {
      RunMoves(last, n);
    }
  }

  lemma RunOverwrites(last: nat)
    ensures OverwritesForeign(RunStates(last), RunSteps())
  {
    var run, steps := RunStates(last), RunSteps();
    forall i | 0 <= i < |steps| ensures !WorkspaceRuns.Edits(run[i], steps[i], 0, Invoice()) {
      NoForeignEdit(last, i);
    }
    assert run[48] == End(last, 3);
    TopOverwrites(End(last, 3), Stored(last + 1), Overwriting(last), last);
  }

  /**
   Six refusals in a row, each behind another edit of the invoice by client 1, then giving up, the pause,
   and the next save: it puts the invoice back to its content before the last of those edits, though
   client 0 never edited it.
   */
  lemma GiveUpOverwritesForeignEdit()
    ensures exists run: seq<System>, steps: seq<Step> :: IsRun(run, steps) && OverwritesForeign(run, steps)
  {
    RunStatesMove(5);
    RunOverwrites(5);
  }

  // ---------------------------------------------------------------- a quiet poll after a reviewed commit

  lemma MergeKeepsOneRow(b: Row, v: Row, l: Row)
    requires RowKey(b) == RowKey(v) == RowKey(l) && l != b
    ensures MergeRows([b], [v], [l]) == [l]
  {
    var bs, vs, ls := [b], [v], [l];
    assert bs[..0] == [] && vs[..0] == [] && ls[..0] == [];
    assert RowMap(bs) == map[RowKey(b) := b] && RowMap(vs) == map[RowKey(v) := v] && RowMap(ls) == map[RowKey(l) := l];
    assert Overlay(vs, RowMap(bs), RowMap(ls)) == [PickRow(v, RowMap(bs), RowMap(ls))];
    assert Unseen(ls, RowMap(vs).Keys) == [];
  }

  /** Merging keeps the committed invoice: the base is still the one from before the commit. */
  lemma MergeKeepsInvoice(k: nat)
    ensures MergeDocs(Doc2(k, ""), Doc2(k + 2, ""), Doc2(k + 1, "")) == Doc2(k + 1, "")
  {
    var base, server, local := Doc2(k, ""), Doc2(k + 2, ""), Doc2(k + 1, "");
    InvoiceAt(k, "");
    InvoiceAt(k + 1, "");
    assert "7"[0] == '7';
    MergeKeepsOneRow(OneRow(Text(k)), OneRow(Text(k + 2)), OneRow(Text(k + 1)));
    assert MergedField(base, server, local, "invoices") == Some(Rows([OneRow(Text(k + 1))]));
    assert MergedField(base, server, local, "note") == Some(Scalar(""));
    LookupDetermines(MergeDocs(base, server, local), local);
  }

  // Client 0 commits a reviewed invoice k + 1, client 1 then makes it k + 2, and client 0 polls and saves a note.

  ghost function Committed(k: nat): Client { Reviewed(Adopt(Doc2(k, ""), 0), Doc2(k + 1, ""), 1) }

  // p is client 0 after its poll
  ghost predicate Polled(k: nat, p: Client) { p == PollClient(Committed(k), Doc2(k + 2, ""), 2) }

  ghost function Noted(k: nat, p: Client): Client { EditClient(p, Doc2(k + 1, "mine")) }

  ghost function NoteSent(k: nat, p: Client): Client {
    Noted(k, p).(phase := InFlight(Doc2(k + 1, "mine"), Noted(k, p).Blame()))
  }

  ghost function Committer(k: nat, p: Client, i: nat): Client {
    match i
    case 0 => Adopt(Doc2(k, ""), 0)
    case 1 => Committed(k)
    case 2 => p
    case 3 => Noted(k, p)
    case _ => NoteSent(k, p)
  }

  ghost function Further(k: nat): Client { EditClient(Adopt(Doc2(k + 1, ""), 1), Doc2(k + 2, "")) }

  ghost function Other(k: nat, i: nat): Client {
    match i
    case 0 => Adopt(Doc2(k, ""), 0)
    case 1 => Adopt(Doc2(k + 1, ""), 1)
    case 2 => Further(k)
    case 3 => Further(k).(phase := InFlight(Doc2(k + 2, ""), Further(k).Blame()))
    case 4 => Further(k).(phase := Acked(Doc2(k + 2, ""), 2))
    case _ => Adopt(Doc2(k + 2, ""), 2)
  }

  ghost function Brought(k: nat, p: Client, i: nat): Version {
    match i
    case 0 => Version(Doc2(k, ""), None)
    case 1 => Version(Doc2(k + 1, ""), Some(ReviewedBy(0, Adopt(Doc2(k, ""), 0), Doc2(k + 1, ""))))
    case 2 => Version(Doc2(k + 2, ""), Some(Request(1, Doc2(k + 2, ""), 1, Further(k).Blame(), 1)))
    case _ => Version(Doc2(k + 1, "mine"), Some(Request(0, Doc2(k + 1, "mine"), 2, Noted(k, p).Blame(), 0)))
  }

  ghost function Versions(k: nat, p: Client, n: nat): (h: seq<Version>)
    ensures |h| == n && forall i | 0 <= i < n :: h[i] == Brought(k, p, i)
  {
    if n == 0 then [] else Versions(k, p, n - 1) + [Brought(k, p, n - 1)]
  }

  ghost function Desk(k: nat, p: Client, versions: nat, mine: Client, theirs: Client): System {
    System(Server(map[], {"invoices"}, Versions(k, p, versions)), map[0 := mine, 1 := theirs], [])
  }

  lemma DeskPut(k: nat, p: Client, n: nat, a: Client, b: Client, c: Client, i: nat)
    ensures Desk(k, p, n, a, b).Put(0, c) == Desk(k, p, n, c, b) && Desk(k, p, n, a, b).Put(1, c) == Desk(k, p, n, a, c)
    ensures WellFormed(Desk(k, p, n, a, b).server, Doc2(i, ""))
    ensures WellFormed(Desk(k, p, n, a, b).server, Doc2(i, "mine"))
    ensures forall r | 0 <= r < n :: Desk(k, p, n, a, b).View(r) == Brought(k, p, r).doc
  {
    assert map[0 := a, 1 := b][0 := c] == map[0 := c, 1 := b];
    assert map[0 := a, 1 := b][1 := c] == map[0 := a, 1 := c];
    forall r | 0 <= r < n ensures Desk(k, p, n, a, b).View(r) == Brought(k, p, r).doc {
      assert map[] + Brought(k, p, r).doc == Brought(k, p, r).doc;
    }
  }

  ghost function Reviewing(k: nat, p: Client, n: nat): System {
    if n == 0 then System(Server(map[], {"invoices"}, Versions(k, p, 1)), map[], [])
    else if n == 1 then System(Server(map[], {"invoices"}, Versions(k, p, 1)), map[0 := Committer(k, p, 0)], [])
    else if n == 2 then Desk(k, p, 1, Committer(k, p, 0), Other(k, 0))
    else if n < 7 then Desk(k, p, 2, Committer(k, p, 1), Other(k, n - 3))
    else if n < 9 then Desk(k, p, 3, Committer(k, p, 1), Other(k, n - 3))
    else if n < 12 then Desk(k, p, 3, Committer(k, p, n - 7), Other(k, 5))
    else Desk(k, p, 4, Committer(k, p, 4).(phase := Acked(Doc2(k + 1, "mine"), 3)), Other(k, 5))
  }

  function ReviewStep(k: nat, n: nat): Step {
    match n
    case 0 => Load(0, 0)
    case 1 => Load(1, 0)
    case 2 => Review(0, Doc2(k + 1, ""), true)
    case 3 => Poll(1, 1)
    case 4 => Edit(1, Doc2(k + 2, ""))
    case 5 => Save(1)
    case 6 => Deliver(1)
    case 7 => Accepted(1, true)
    case 8 => Poll(0, 2)
    case 9 => Edit(0, Doc2(k + 1, "mine"))
    case 10 => Save(0)
    case _ => Deliver(0)
  }

  ghost predicate ReviewMoves(k: nat, p: Client, n: nat) {
    && Enabled(Reviewing(k, p, n), ReviewStep(k, n))
    && Apply(Reviewing(k, p, n), ReviewStep(k, n)) == Reviewing(k, p, n + 1)
  }

  lemma BothLoad(k: nat, p: Client, n: nat)
    requires n < 2
    ensures ReviewMoves(k, p, n)
  {
    assert map[] + Doc2(k, "") == Doc2(k, "");
    assert map[0 := Committer(k, p, 0)][1 := Other(k, 0)] == map[0 := Committer(k, p, 0), 1 := Other(k, 0)];
  }

  lemma ReviewIsStored(k: nat, p: Client)
    ensures ReviewMoves(k, p, 2)
  {
    DeskPut(k, p, 2, Committer(k, p, 0), Other(k, 0), Committer(k, p, 1), k + 1);
    assert Store(Desk(k, p, 1, Committer(k, p, 0), Other(k, 0)).server,
                 ReviewedBy(0, Committer(k, p, 0), Doc2(k + 1, "")))
        == Desk(k, p, 2, Committer(k, p, 0), Other(k, 0)).server;
  }

  lemma OtherPollsAndEdits(k: nat, p: Client, n: nat)
    requires 3 <= n < 6
    ensures ReviewMoves(k, p, n)
  {
    DocsDiffer(k + 2, k + 1, "", "");
    DeskPut(k, p, 2, Committer(k, p, 1), Other(k, n - 3), Other(k, n - 2), k + 2);
  }

  lemma OtherIsStored(k: nat, p: Client)
    ensures ReviewMoves(k, p, 6)
  {
    DeskPut(k, p, 3, Committer(k, p, 1), Other(k, 3), Other(k, 4), k + 2);
    var s := Reviewing(k, p, 6);
    assert SentBy(1, s.clients[1]) == Brought(k, p, 2).put.value;
    assert Store(s.server, Brought(k, p, 2).put.value) == Reviewing(k, p, 7).server;
  }

  lemma OtherIsAccepted(k: nat, p: Client)
    ensures ReviewMoves(k, p, 7)
  {
    DeskPut(k, p, 3, Committer(k, p, 1), Other(k, 4), Other(k, 5), k + 2);
  }

  lemma CommitterMerges(k: nat, p: Client)
    requires Polled(k, p)
    ensures p.value == p.base == Doc2(k + 1, "") && p.rev == 2 && p.since == 0 && p.phase.Idle?
  {
    DocsDiffer(k + 1, k, "", "");
    MergeKeepsInvoice(k);
  }

  lemma PollsOn(k: nat, p: Client, mine: Client, theirs: Client)
    ensures Enabled(Desk(k, p, 3, mine, theirs), Poll(0, 2))
    ensures Apply(Desk(k, p, 3, mine, theirs), Poll(0, 2))
        == Desk(k, p, 3, PollClient(mine, Doc2(k + 2, ""), 2), theirs)
  {
    DeskPut(k, p, 3, mine, theirs, PollClient(mine, Doc2(k + 2, ""), 2), k);
  }

  lemma NotesOn(k: nat, p: Client, mine: Client, theirs: Client)
    ensures var step := Edit(0, Doc2(k + 1, "mine"));
            && Enabled(Desk(k, p, 3, mine, theirs), step)
            && Apply(Desk(k, p, 3, mine, theirs), step) == Desk(k, p, 3, EditClient(mine, step.next), theirs)
  {
    DeskPut(k, p, 3, mine, theirs, EditClient(mine, Doc2(k + 1, "mine")), k + 1);
  }

  lemma SavesOn(k: nat, p: Client, mine: Client, theirs: Client)
    requires mine.phase.Idle? && mine.value != mine.base
    ensures Enabled(Desk(k, p, 3, mine, theirs), Save(0))
    ensures Apply(Desk(k, p, 3, mine, theirs), Save(0))
         == Desk(k, p, 3, mine.(phase := InFlight(mine.value, mine.Blame())), theirs)
  {
    SaveTop(Versions(k, p, 3), mine, theirs);
  }

  lemma StoresOn(k: nat, p: Client, mine: Client, theirs: Client)
    requires mine.phase.InFlight? && mine.phase.sent == Doc2(k + 1, "mine")
    requires Some(SentBy(0, mine)) == Brought(k, p, 3).put
    ensures Enabled(Desk(k, p, 3, mine, theirs), Deliver(0))
    ensures Apply(Desk(k, p, 3, mine, theirs), Deliver(0))
         == Desk(k, p, 4, mine.(phase := Acked(Doc2(k + 1, "mine"), 3)), theirs)
  {
    DeliverTop(Versions(k, p, 3), mine, theirs);
    assert Versions(k, p, 4) == Versions(k, p, 3) + [Brought(k, p, 3)];
  }

  lemma NoteIsNew(k: nat, p: Client)
    requires p.base == Doc2(k + 1, "") && p.rev == 2 && p.since == 0 && p.phase.Idle?
    ensures Noted(k, p).value != Noted(k, p).base && Noted(k, p).phase.Idle?
    ensures NoteSent(k, p) == Noted(k, p).(phase := InFlight(Noted(k, p).value, Noted(k, p).Blame()))
    ensures Some(SentBy(0, NoteSent(k, p))) == Brought(k, p, 3).put
  {
    DocsDiffer(k + 1, k + 1, "mine", "");
  }

  lemma NoteIsMade(k: nat, p: Client)
    ensures ReviewMoves(k, p, 9)
  {
    NotesOn(k, p, p, Other(k, 5));
  }

  lemma NoteGoesOut(k: nat, p: Client)
    requires p.base == Doc2(k + 1, "") && p.rev == 2 && p.since == 0 && p.phase.Idle?
    ensures ReviewMoves(k, p, 10)
  {
    NoteIsNew(k, p);
    SavesOn(k, p, Noted(k, p), Other(k, 5));
  }

  lemma NoteIsStored(k: nat, p: Client)
    requires p.base == Doc2(k + 1, "") && p.rev == 2 && p.since == 0 && p.phase.Idle?
    ensures ReviewMoves(k, p, 11)
  {
    NoteIsNew(k, p);
    StoresOn(k, p, NoteSent(k, p), Other(k, 5));
  }

  lemma ReviewingMoves(k: nat, p: Client, n: nat)
    requires Polled(k, p) && n < 12
    ensures ReviewMoves(k, p, n)
  {
    if n < 2 { BothLoad(k, p, n); }
    else if n == 2 { ReviewIsStored(k, p); }
    else if n < 6 { OtherPollsAndEdits(k, p, n); }
    else if n == 6 { OtherIsStored(k, p); }
    else if n == 7 { OtherIsAccepted(k, p); }
    else if n == 8 { PollsOn(k, p, Committed(k), Other(k, 5)); }
    else {
      CommitterMerges(k, p);
      if n == 9 { NoteIsMade(k, p); } else if n == 10 { NoteGoesOut(k, p); } else { NoteIsStored(k, p); }
    }
  }

  lemma NoteLeavesInvoice(k: nat)
    ensures At(Doc2(k + 1, ""), Invoice()) == At(Doc2(k + 1, "mine"), Invoice())
  {
    InvoiceAt(k + 1, "");
    InvoiceAt(k + 1, "mine");
  }

  lemma OnlyAnEditEdits(s: System, step: Step, c: Cell)
    requires step.Edit? && step.id == 0 && 0 in s.clients ==> At(s.clients[0].value, c) == At(step.next, c)
    ensures !WorkspaceRuns.Edits(s, step, 0, c)
  {
  }

  lemma CommitterAt(k: nat, p: Client)
    ensures Reviewing(k, p, 9).clients == map[0 := p, 1 := Other(k, 5)]
  {
  }

  lemma OnlyNoteIsEdited(k: nat, n: nat)
    requires n < 12 && ReviewStep(k, n).Edit? && ReviewStep(k, n).id == 0
    ensures n == 9 && ReviewStep(k, n).next == Doc2(k + 1, "mine")
  {
  }

  /** Version 3 by client 0 takes back what client 1 made of the invoice in version 2, to what version 1 had. */
  ghost predicate PutsBack(s: System) {
    && |s.server.history| == 4
    && s.server.history[3].put.Some? && s.server.history[3].put.value.author == 0
    && s.server.history[2].put.Some? && s.server.history[2].put.value.author == 1
    && At(s.View(3), Invoice()).Some? && At(s.View(2), Invoice()).Some?
    && At(s.View(3), Invoice()) == At(s.View(1), Invoice()) != At(s.View(2), Invoice())
  }

  /** Client 0 has the document committed at step 2, before any edit, and never edits the invoice itself. */
  ghost predicate KeepsOff(run: seq<System>, steps: seq<Step>, committed: Doc)
    requires |run| == 13
  {
    && |steps| == 12 && steps[2] == Review(0, committed, true)
    && (forall i | 2 < i < 12 :: !steps[i].Review?)
    && (forall i | 0 <= i < 12 :: !WorkspaceRuns.Edits(run[i], steps[i], 0, Invoice()))
  }

  lemma LastVersionPutsBack(k: nat, p: Client)
    ensures PutsBack(Reviewing(k, p, 12))
  {
    var s := Reviewing(k, p, 12);
    DeskPut(k, p, 4, s.clients[0], s.clients[1], s.clients[0], k);
    InvoiceAt(k + 1, "mine");
    InvoiceAt(k + 1, "");
    InvoiceAt(k + 2, "");
  }

  ghost function ReviewRun(k: nat, p: Client): (run: seq<System>)
    ensures |run| == 13 && forall n | 0 <= n < 13 :: run[n] == Reviewing(k, p, n)
  {
    seq(13, n requires 0 <= n < 13 => Reviewing(k, p, n))
  }

  function ReviewSteps(k: nat): (steps: seq<Step>)
    ensures |steps| == 12 && forall n | 0 <= n < 12 :: steps[n] == ReviewStep(k, n)
  {
    seq(12, n requires 0 <= n < 12 => ReviewStep(k, n))
  }

  lemma ReviewRunMoves(k: nat, p: Client)
    requires Polled(k, p)
    ensures IsRun(ReviewRun(k, p), ReviewSteps(k))
  {
    var run, steps := ReviewRun(k, p), ReviewSteps(k);
    forall n | 0 <= n < 12 ensures Enabled(run[n], steps[n]) && run[n + 1] == Apply(run[n], steps[n]) {
      ReviewingMoves(k, p, n);
    }
    assert Initial(Reviewing(k, p, 0));
  }

  lemma ReviewRunKeepsOff(k: nat, p: Client)
    requires Polled(k, p)
    ensures PutsBack(ReviewRun(k, p)[12]) && KeepsOff(ReviewRun(k, p), ReviewSteps(k), Doc2(k + 1, ""))
  {
    LastVersionPutsBack(k, p);
    ReviewedOnce(k, ReviewSteps(k));
    CommitterMerges(k, p);
    NoInvoiceEdited(k, p, ReviewRun(k, p), ReviewSteps(k));
  }

  lemma ReviewedOnce(k: nat, steps: seq<Step>)
    requires |steps| == 12 && forall n | 0 <= n < 12 :: steps[n] == ReviewStep(k, n)
    ensures steps[2] == Review(0, Doc2(k + 1, ""), true) && forall i | 2 < i < 12 :: !steps[i].Review?
  {
  }

  lemma NoInvoiceEdited(k: nat, p: Client, run: seq<System>, steps: seq<Step>)
    requires p.value == Doc2(k + 1, "") && |run| == 13 && |steps| == 12
    requires forall n | 0 <= n < 13 :: run[n] == Reviewing(k, p, n)
    requires forall n | 0 <= n < 12 :: steps[n] == ReviewStep(k, n)
    ensures forall i | 0 <= i < 12 :: !WorkspaceRuns.Edits(run[i], steps[i], 0, Invoice())
  {
    forall i | 0 <= i < 12 ensures !WorkspaceRuns.Edits(run[i], steps[i], 0, Invoice()) {
      CommitterAt(k, p);
      NoteLeavesInvoice(k);
      if steps[i].Edit? && steps[i].id == 0 {
        OnlyNoteIsEdited(k, i);
      }
      OnlyAnEditEdits(run[i], steps[i], Invoice());
    }
  }

  /**
   Whatever the invoice is at first: client 0 commits a reviewed change of it, client 1 changes it further, and
   after its next quiet poll client 0 saves an edit of a note. That save puts the invoice back to the committed
   one, though client 0 has not touched it since, and no edit of client 0 ever changed it.
   */
  lemma ReviewedCommitPutsBackForeignEdit(k: nat)
    ensures exists run: seq<System>, steps: seq<Step> ::
              IsRun(run, steps) && |run| == 13 && PutsBack(run[12]) && KeepsOff(run, steps, Doc2(k + 1, ""))
  {
    var p := PollClient(Committed(k), Doc2(k + 2, ""), 2);
    ReviewRunMoves(k, p);
    ReviewRunKeepsOff(k, p);
  }

  // ---------------------------------------------------------------- a save cut off

  function UndoSteps(): seq<Step> {
    [Load(0, 0), Edit(0, OneRowDoc("edit")), Save(0), Deliver(0), Edit(0, OneRowDoc("more")),
     Accepted(0, false), Fail(0), Edit(0, OneRowDoc("before")), Save(0)]
  }

  lemma UndoDocsDiffer()
    ensures var before, edit, more := OneRowDoc("before"), OneRowDoc("edit"), OneRowDoc("more");
            edit != before && more != before && more != edit
  {
    OneRowAt("before");
    OneRowAt("edit");
    OneRowAt("more");
  }

  /** The client of the run below, step by step. */
  ghost function UndoClient(k: nat): Client {
    var before, edit, more := OneRowDoc("before"), OneRowDoc("edit"), OneRowDoc("more");
    var touched := iset{} + Changed(before, edit);
    var start := Adopt(before, 0);
    var edited := Client(edit, before, 0, true, 0, Idle, touched, iset{}, iset{}, iset{}, false, 0, 0);
    var touchedMore := touched + Changed(edit, more);
    var cut := Client(more, before, 1, true, 0, Idle, touchedMore, iset{}, iset{}, iset{}, false, 0, 0);
    match k
    case 0 => start
    case 1 => edited
    case 2 => edited.(phase := InFlight(edit, edited.Blame()))
    case 3 => edited.(phase := Acked(edit, 1))
    case 4 => edited.(value := more, phase := Acked(edit, 1), edited := touchedMore)
    case 5 => cut.(phase := InFlight(more, cut.Blame()))
    case 6 => cut
    case 7 => cut.(value := before, edited := touchedMore + Changed(more, before))
    case _ => cut.(value := before, edited := touchedMore + Changed(more, before), dirty := false)
  }

  ghost function UndoSystem(k: nat): System {
    var before, edit, more := OneRowDoc("before"), OneRowDoc("edit"), OneRowDoc("more");
    var touched := iset{} + Changed(before, edit);
    var first, blame := Version(before, None), touched + iset{} + iset{} + iset{};
    var history := if k < 4 then [first] else [first, Version(edit, Some(Request(0, edit, 0, blame, 0)))];
    System(Server(map[], {"invoices"}, history),
           if k == 0 then map[] else map[0 := UndoClient(k - 1)],
           if k < 7 then [] else [Request(0, more, 1, touched + Changed(edit, more) + iset{} + iset{} + iset{}, 0)])
  }

  lemma UndoFirstSteps(k: nat)
    requires k < 4
    ensures Enabled(UndoSystem(k), UndoSteps()[k])
    ensures UndoSystem(k + 1) == Apply(UndoSystem(k), UndoSteps()[k])
  {
    UndoDocsDiffer();
    var s := UndoSystem(k);
    if k == 0 {
      assert s.View(0) == OneRowDoc("before");
    } else {
      assert s.clients[0 := UndoClient(k)] == UndoSystem(k + 1).clients;
    }
  }

  lemma UndoMiddleSteps(k: nat)
    requires 4 <= k < 7
    ensures Enabled(UndoSystem(k), UndoSteps()[k])
    ensures UndoSystem(k + 1) == Apply(UndoSystem(k), UndoSteps()[k])
  {
    UndoDocsDiffer();
    var s := UndoSystem(k);
    assert s.clients[0 := UndoClient(k)] == UndoSystem(k + 1).clients;
  }

  lemma UndoRevert()
    ensures Enabled(UndoSystem(7), UndoSteps()[7])
    ensures UndoSystem(8) == Apply(UndoSystem(7), UndoSteps()[7])
  {
    UndoDocsDiffer();
    var s := UndoSystem(7);
    assert s.clients[0 := UndoClient(7)] == UndoSystem(8).clients;
  }

  lemma UndoCleared()
    ensures Enabled(UndoSystem(8), UndoSteps()[8])
    ensures UndoSystem(9) == Apply(UndoSystem(8), UndoSteps()[8])
  {
    UndoDocsDiffer();
    var s := UndoSystem(8);
    assert s.clients[0 := UndoClient(8)] == UndoSystem(9).clients;
  }

  /**
   A save cut off between two PUTs can swallow an undo: the user returns to the old base, the client
   calls itself clean, and the server keeps what the user took back.
   */
  lemma UndoneEditStaysOnServer()
    ensures exists run: seq<System> ::
              IsRun(run, UndoSteps()) && 0 in run[9].clients
              && var cl := run[9].clients[0];
                 !cl.dirty && cl.phase.Idle? && cl.rev + 1 == |run[9].server.history|
                 && cl.value == OneRowDoc("before") && run[9].View(cl.rev) == OneRowDoc("edit")
  {
    var run := seq(10, k requires 0 <= k < 10 => UndoSystem(k));
    forall k | 0 <= k < 9 ensures Enabled(run[k], UndoSteps()[k]) && run[k + 1] == Apply(run[k], UndoSteps()[k]) {
      if k < 4 { UndoFirstSteps(k); }
      else if k < 7 { UndoMiddleSteps(k); }
      else if k == 7 { UndoRevert(); }
      else { UndoCleared(); }
    }
    assert IsRun(run, UndoSteps());
    assert run[9].View(1) == OneRowDoc("edit");
  }
}
