/**
 When a version stored by the workspace client overwrites what its user did not mean to change
 (financial/web/src/App.jsx:876-984, 1065-1082): exact conditions, over any run, for a refusal that leaves a
 cell as it is, for a quiet poll that merges, and for a reviewed commit.

 Each condition starts at such a step g and ends at the next save j that is stored, with any number of further
 refusals in between. Only steps that start such a story anew, or bring the client another version of its
 own, are kept out of it.
 */
module WorkspaceOverwrites {
  import opened Common
  import Traces
  import opened WorkspaceMerge
  import opened WorkspaceSync
  import opened WorkspaceRuns

  /** The client learns that a PUT was refused, and sees the server's current version. */
  ghost predicate Refuses(s: System, step: Step, id: int) {
    && step.Conflict? && step.id == id && id in s.clients && s.clients[id].phase.Refused?
    && s.clients[id].phase.current < |s.server.history|
  }

  /** What the version that refuses the client holds in the cell. */
  ghost function Served(s: System, id: int, c: Cell): Option<Content>
    requires id in s.clients && s.clients[id].phase.Refused? && s.clients[id].phase.current < |s.server.history|
  {
    At(s.View(s.clients[id].phase.current), c)
  }

  ghost predicate LeavesAsIs(s: System, step: Step, id: int, c: Cell) {
    Refuses(s, step, id) && (s.clients[id].attempts >= 5 || (c.RowCell? && Served(s, id, c).None?))
  }

  /** A refusal that leaves the cell as it is: the sixth in a row, or by a version without the row. */
  ghost predicate PassesOver(run: seq<System>, steps: seq<Step>, k: nat, id: int, c: Cell)
    requires k < |steps| <= |run|
  {
    Refuses(run[k], steps[k], id)
    && (RefusalsInARow(run, steps, k, id) >= 5 || (c.RowCell? && Served(run[k], id, c).None?))
  }

  lemma PassingOverLeaves(run: seq<System>, steps: seq<Step>, k: nat, id: int, c: Cell)
    requires IsRun(run, steps) && k < |steps|
    ensures PassesOver(run, steps, k, id, c) <==> LeavesAsIs(run[k], steps[k], id, c)
  {
    if Refuses(run[k], steps[k], id) {
      AttemptsCountRefusals(run, steps, k, id);
    }
  }

  ghost predicate Polls(s: System, step: Step, id: int) {
    step.Poll? && step.id == id && id in s.clients && TakesPoll(s.clients[id], step.r)
  }

  ghost predicate Interferes(s: System, step: Step, id: int, c: Cell) {
    Edits(s, step, id, c) || Accepts(step, id) || Commits(s, step, id) || Polls(s, step, id)
  }

  ghost predicate Undisturbed(run: seq<System>, steps: seq<Step>, g: nat, j: nat, id: int, c: Cell)
    requires j <= |steps| <= |run|
  {
    forall k: nat | g < k < j :: !Interferes(run[k], steps[k], id, c) && !PassesOver(run, steps, k, id, c)
  }

  ghost predicate RefusedIn(run: seq<System>, steps: seq<Step>, g: nat, j: nat, id: int)
    requires j <= |steps| <= |run|
  {
    exists k | g < k < j :: Refuses(run[k], steps[k], id)
  }

  /** A version that refuses the client between g and j holds this content. */
  ghost predicate ServedIn(run: seq<System>, steps: seq<Step>, g: nat, j: nat, id: int, c: Cell, w: Option<Content>)
    requires j <= |steps| <= |run|
  {
    exists k | g < k < j :: Refuses(run[k], steps[k], id) && Served(run[k], id, c) == w
  }

  // ---------------------------------------------------------------- one step

  lemma QuietStep(s: System, step: Step, id: int, c: Cell)
    requires Enabled(s, step) && id in s.clients && !Interferes(s, step, id, c) && !Refuses(s, step, id)
    ensures id in Apply(s, step).clients
    ensures var before, after := s.clients[id], Apply(s, step).clients[id];
            At(after.value, c) == At(before.value, c) && after.base == before.base && after.rev == before.rev
  {
  }

  lemma RefusalSettles(arrays: set<string>, cl: Client, view: Doc, at: nat, c: Cell)
    requires WellKinded(arrays, cl.base) && WellKinded(arrays, view) && WellKinded(arrays, cl.value)
    ensures var after := AfterRefusal(cl, view, at);
            && after.rev == at && after.base == view
            && At(after.value, c) == if cl.attempts >= 5 then At(cl.value, c)
                                     else SettleCell(c, At(cl.base, c), At(view, c), At(cl.value, c))
  {
    MergeAtCell(arrays, cl.base, view, cl.value, c);
  }

  lemma RefusalStep(s: System, step: Step, id: int, c: Cell)
    requires Inv(s) && Enabled(s, step) && Refuses(s, step, id)
    ensures id in Apply(s, step).clients
    ensures var before, after := s.clients[id], Apply(s, step).clients[id];
            && after.rev == before.phase.current && after.base == s.View(after.rev)
            && At(after.value, c) == if LeavesAsIs(s, step, id, c) then At(before.value, c)
                                     else SettleCell(c, At(before.base, c), Served(s, id, c), At(before.value, c))
  {
    var cl := s.clients[id];
    assert ClientInv(s.server, cl);
    RefusalSettles(s.server.arrays, cl, s.View(cl.phase.current), cl.phase.current, c);
  }

  // ---------------------------------------------------------------- any number of refusals

  /**
   The content the client starts with survives the refusals exactly when it can win a merge, differs from
   the base it started on, and no version met on the way holds it; otherwise the last version's content is there.
   */
  ghost predicate AfterRefusals(run: seq<System>, steps: seq<Step>, g: nat, j: nat, id: int, c: Cell)
    requires g < j <= |steps| && |run| == |steps| + 1 && id in run[g + 1].clients && id in run[j].clients
  {
    var s, e := run[g + 1].clients[id], run[j].clients[id];
    var w := At(s.value, c);
    if !RefusedIn(run, steps, g, j, id) then At(e.value, c) == w && e.base == s.base && e.rev == s.rev
    else
      && e.rev < |run[j].server.history| && e.base == run[j].View(e.rev)
      && ServedIn(run, steps, g, j, id, c, At(e.base, c))
      && At(e.value, c) == if Outlasts(run, steps, g, j, id, c, At(s.base, c), w) then w else At(e.base, c)
  }

  ghost predicate Outlasts(run: seq<System>, steps: seq<Step>, g: nat, j: nat, id: int, c: Cell,
                           base: Option<Content>, w: Option<Content>)
    requires j <= |steps| <= |run|
  {
    (c.RowCell? ==> w.Some?) && w != base && !ServedIn(run, steps, g, j, id, c, w)
  }

  lemma WindowGrows(run: seq<System>, steps: seq<Step>, g: nat, j: nat, id: int, c: Cell, w: Option<Content>)
    requires g < j < |steps| && |run| == |steps| + 1
    ensures RefusedIn(run, steps, g, j + 1, id) <==> RefusedIn(run, steps, g, j, id) || Refuses(run[j], steps[j], id)
    ensures ServedIn(run, steps, g, j + 1, id, c, w)
       <==> ServedIn(run, steps, g, j, id, c, w) || (Refuses(run[j], steps[j], id) && Served(run[j], id, c) == w)
  {
  }

  lemma OneMoreRefusal(run: seq<System>, steps: seq<Step>, g: nat, j: nat, id: int, c: Cell)
    requires IsRun(run, steps) && g < j < |steps| && id in run[g + 1].clients && id in run[j].clients
    requires AfterRefusals(run, steps, g, j, id, c)
    requires Refuses(run[j], steps[j], id) && !LeavesAsIs(run[j], steps[j], id, c)
    ensures id in run[j + 1].clients && AfterRefusals(run, steps, g, j + 1, id, c)
  {
    var s := run[g + 1].clients[id];
    RunKeepsInv(run, steps, j);
    RefusalStep(run[j], steps[j], id, c);
    HistoryGrows(run, steps, j, j + 1);
    var e := run[j + 1].clients[id];
    ViewStable(run[j].server, run[j + 1].server, e.rev);
    WindowGrows(run, steps, g, j, id, c, At(s.value, c));
    WindowGrows(run, steps, g, j, id, c, At(e.base, c));
  }

  lemma OneQuietStep(run: seq<System>, steps: seq<Step>, g: nat, j: nat, id: int, c: Cell)
    requires IsRun(run, steps) && g < j < |steps| && id in run[g + 1].clients && id in run[j].clients
    requires AfterRefusals(run, steps, g, j, id, c)
    requires !Refuses(run[j], steps[j], id) && !Interferes(run[j], steps[j], id, c)
    ensures id in run[j + 1].clients && AfterRefusals(run, steps, g, j + 1, id, c)
  {
    var s, e := run[g + 1].clients[id], run[j].clients[id];
    QuietStep(run[j], steps[j], id, c);
    HistoryGrows(run, steps, j, j + 1);
    if e.rev < |run[j].server.history| {
      ViewStable(run[j].server, run[j + 1].server, e.rev);
    }
    WindowGrows(run, steps, g, j, id, c, At(s.value, c));
    WindowGrows(run, steps, g, j, id, c, At(e.base, c));
  }

  ghost predicate Followed(run: seq<System>, steps: seq<Step>, g: nat, k: nat, id: int, c: Cell) {
    && g < k <= |steps| && |run| == |steps| + 1 && id in run[g + 1].clients && id in run[k].clients
    && AfterRefusals(run, steps, g, k, id, c)
  }

  lemma OneMoreStep(run: seq<System>, steps: seq<Step>, g: nat, k: nat, id: int, c: Cell)
    requires IsRun(run, steps) && k < |steps| && Followed(run, steps, g, k, id, c)
    requires !Interferes(run[k], steps[k], id, c) && !PassesOver(run, steps, k, id, c)
    ensures Followed(run, steps, g, k + 1, id, c)
  {
    PassingOverLeaves(run, steps, k, id, c);
    if Refuses(run[k], steps[k], id) {
      OneMoreRefusal(run, steps, g, k, id, c);
    } else {
      OneQuietStep(run, steps, g, k, id, c);
    }
  }

  lemma ValueAfterRefusals(run: seq<System>, steps: seq<Step>, g: nat, j: nat, id: int, c: Cell)
    requires IsRun(run, steps) && g < j <= |steps| && id in run[g + 1].clients && Undisturbed(run, steps, g, j, id, c)
    ensures Followed(run, steps, g, j, id, c)
  {
    ghost var holds := (k: nat) => Followed(run, steps, g, k, id, c);
    forall k: nat | g + 1 <= k < j && holds(k) ensures holds(k + 1) {
      OneMoreStep(run, steps, g, k, id, c);
    }
    Traces.PersistsTo(holds, g + 1, j);
  }

  // ---------------------------------------------------------------- the save that is stored

  /** Step j begins a save of the client, and version r is what it sent, whenever it was delivered. */
  ghost predicate SavedAs(run: seq<System>, steps: seq<Step>, j: nat, n: nat, r: nat, id: int)
    requires |run| == |steps| + 1
  {
    && j < n <= |steps| && 0 < r < |run[n].server.history|
    && steps[j] == Save(id) && id in run[j + 1].clients && run[j + 1].clients[id].phase.InFlight?
    && run[n].server.history[r].put == Some(SentBy(id, run[j + 1].clients[id]))
  }

  lemma SaveSendsValue(s: System, id: int)
    requires Enabled(s, Save(id)) && Apply(s, Save(id)).clients[id].phase.InFlight?
    ensures var req := SentBy(id, Apply(s, Save(id)).clients[id]);
            req.doc == s.clients[id].value && req.rev == s.clients[id].rev
  {
  }

  lemma SavedVersion(run: seq<System>, steps: seq<Step>, j: nat, n: nat, r: nat, id: int)
    requires IsRun(run, steps) && SavedAs(run, steps, j, n, r, id)
    ensures id in run[j].clients && run[j].clients[id].rev == r - 1 < |run[j].server.history|
    ensures run[n].View(r) == run[j].clients[id].value && run[n].View(r - 1) == run[j].View(r - 1)
  {
    var cl := run[j].clients[id];
    RunKeepsInv(run, steps, j);
    RunKeepsInv(run, steps, n);
    assert ClientInv(run[j].server, cl);
    assert VersionInv(run[n].server, r);
    SaveSendsValue(run[j], id);
    HistoryGrows(run, steps, j, n);
    ViewStable(run[j].server, run[n].server, r - 1);
    assert run[n].server.defaults + cl.value == cl.value;
  }

  /** What the next stored version does to the cell, from what the client holds there right after step g. */
  lemma StoredAfterRefusals(run: seq<System>, steps: seq<Step>, g: nat, j: nat, n: nat, r: nat, id: int, c: Cell,
                            view: Option<Content>)
    requires IsRun(run, steps) && SavedAs(run, steps, j, n, r, id) && g < j && Undisturbed(run, steps, g, j, id, c)
    requires id in run[g + 1].clients && run[g + 1].clients[id].rev < |run[g + 1].server.history|
    requires At(run[g + 1].View(run[g + 1].clients[id].rev), c) == view
    ensures var s := run[g + 1].clients[id];
            At(run[n].View(r), c) != At(run[n].View(r - 1), c)
            <==> if RefusedIn(run, steps, g, j, id)
                 then Outlasts(run, steps, g, j, id, c, At(s.base, c), At(s.value, c))
                 else At(s.value, c) != view
  {
    ValueAfterRefusals(run, steps, g, j, id, c);
    SavedVersion(run, steps, j, n, r, id);
    HistoryGrows(run, steps, g + 1, j);
    ViewStable(run[g + 1].server, run[j].server, run[g + 1].clients[id].rev);
    Decides(run, steps, g, j, id, c, At(run[j].View(r - 1), c));
  }

  lemma Decides(run: seq<System>, steps: seq<Step>, g: nat, j: nat, id: int, c: Cell, previous: Option<Content>)
    requires Followed(run, steps, g, j, id, c)
    requires RefusedIn(run, steps, g, j, id) ==> previous == At(run[j].clients[id].base, c)
    ensures var s := run[g + 1].clients[id];
            At(run[j].clients[id].value, c) != previous
            <==> if RefusedIn(run, steps, g, j, id)
                 then Outlasts(run, steps, g, j, id, c, At(s.base, c), At(s.value, c))
                 else At(s.value, c) != previous
  {
  }

  // ---------------------------------------------------------------- exact conditions

  lemma StepViews(run: seq<System>, steps: seq<Step>, g: nat, r: nat)
    requires IsRun(run, steps) && g < |steps| && r < |run[g].server.history|
    ensures r < |run[g + 1].server.history| && run[g + 1].View(r) == run[g].View(r)
  {
    HistoryGrows(run, steps, g, g + 1);
    ViewStable(run[g].server, run[g + 1].server, r);
  }

  lemma PassingOver(run: seq<System>, steps: seq<Step>, g: nat, id: int, c: Cell)
    requires IsRun(run, steps) && g < |steps| && PassesOver(run, steps, g, id, c)
    ensures id in run[g + 1].clients && run[g + 1].clients[id].rev < |run[g + 1].server.history|
    ensures var before, after := run[g].clients[id], run[g + 1].clients[id];
            && At(after.value, c) == At(before.value, c)
            && At(after.base, c) == Served(run[g], id, c) == At(run[g + 1].View(after.rev), c)
  {
    RunKeepsInv(run, steps, g);
    PassingOverLeaves(run, steps, g, id, c);
    RefusalStep(run[g], steps[g], id, c);
    StepViews(run, steps, g, run[g].clients[id].phase.current);
  }

  /** A cell the client does not answer for holds what the version its base stands for holds. */
  lemma UnansweredCell(run: seq<System>, steps: seq<Step>, n: nat, id: int, c: Cell)
    requires IsRun(run, steps) && n <= |steps| && id in run[n].clients && c !in run[n].clients[id].Blame()
    ensures run[n].clients[id].baseRev < |run[n].server.history|
    ensures At(run[n].clients[id].value, c) == At(run[n].View(run[n].clients[id].baseRev), c)
  {
    RunKeepsInv(run, steps, n);
    assert ClientInv(run[n].server, run[n].clients[id]);
  }

  /**
   A refusal leaves the cell as it is, because it is the sixth in a row or its version lacks the row. The next
   version this client stores changes the cell exactly when the content left differs from the refusing
   version's and, should further refusals follow, it can win a merge and none of their versions holds it. A
   cell the client does not answer for is left with the content of the version its base stood for.
   */
  lemma GiveUpOverwritesIff(run: seq<System>, steps: seq<Step>, g: nat, j: nat, n: nat, r: nat, id: int, c: Cell)
    requires IsRun(run, steps) && SavedAs(run, steps, j, n, r, id) && g < j
    requires PassesOver(run, steps, g, id, c) && Undisturbed(run, steps, g, j, id, c)
    ensures var w, view := At(run[g].clients[id].value, c), Served(run[g], id, c);
            At(run[n].View(r), c) != At(run[n].View(r - 1), c)
            <==> w != view && (RefusedIn(run, steps, g, j, id) ==> Outlasts(run, steps, g, j, id, c, view, w))
    ensures c !in run[g].clients[id].Blame() ==>
              && run[g].clients[id].baseRev < |run[g].server.history|
              && At(run[g].clients[id].value, c) == At(run[g].View(run[g].clients[id].baseRev), c)
  {
    PassingOver(run, steps, g, id, c);
    StoredAfterRefusals(run, steps, g, j, n, r, id, c, Served(run[g], id, c));
    if c !in run[g].clients[id].Blame() {
      UnansweredCell(run, steps, g, id, c);
    }
  }

  /** What a quiet poll leaves of a value that differs from its base. */
  lemma PollMerges(run: seq<System>, steps: seq<Step>, g: nat, id: int, c: Cell)
    requires IsRun(run, steps) && g < |steps| && Polls(run[g], steps[g], id)
    requires run[g].clients[id].value != run[g].clients[id].base
    ensures steps[g].r < |run[g].server.history|
    ensures id in run[g + 1].clients && run[g + 1].clients[id].rev < |run[g + 1].server.history|
    ensures var cl, after, view := run[g].clients[id], run[g + 1].clients[id], run[g].View(steps[g].r);
            && after.value == after.base && run[g + 1].View(after.rev) == view
            && At(after.value, c) == SettleCell(c, At(cl.base, c), At(view, c), At(cl.value, c))
  {
    var cl := run[g].clients[id];
    RunKeepsInv(run, steps, g);
    assert ClientInv(run[g].server, cl);
    MergeAtCell(run[g].server.arrays, cl.base, run[g].View(steps[g].r), cl.value, c);
    StepViews(run, steps, g, steps[g].r);
  }

  /** The merge takes a side other than the polled one. */
  predicate LocalSideStays(c: Cell, base: Option<Content>, view: Option<Content>, local: Option<Content>) {
    local != view && if c.RowCell? then local.Some? && (local != base || view.None?) else local != base
  }

  /**
   A quiet poll finds a clean client whose value differs from its base and merges; the merged document counts
   as the base. The next version this client stores changes a cell its user leaves alone exactly when no
   refusal comes first and the merge took the local side there.
   */
  lemma PollOverwritesIff(run: seq<System>, steps: seq<Step>, g: nat, j: nat, n: nat, r: nat, id: int, c: Cell)
    requires IsRun(run, steps) && SavedAs(run, steps, j, n, r, id) && g < j
    requires Polls(run[g], steps[g], id) && run[g].clients[id].value != run[g].clients[id].base
    requires Undisturbed(run, steps, g, j, id, c)
    ensures steps[g].r < |run[g].server.history|
    ensures var cl, view := run[g].clients[id], run[g].View(steps[g].r);
            At(run[n].View(r), c) != At(run[n].View(r - 1), c)
            <==> !RefusedIn(run, steps, g, j, id) && LocalSideStays(c, At(cl.base, c), At(view, c), At(cl.value, c))
  {
    PollMerges(run, steps, g, id, c);
    StoredAfterRefusals(run, steps, g, j, n, r, id, c, At(run[g].View(steps[g].r), c));
  }

  /** A clean client comes to a value that differs from its base only by a reviewed commit since its alignment. */
  lemma OnlyCommitsMakePollsMerge(run: seq<System>, steps: seq<Step>, a: nat, n: nat, id: int)
    requires IsRun(run, steps) && n <= |steps| && LastAligned(run, steps, a, n, id)
    requires id in run[n].clients && !run[n].clients[id].dirty && run[n].clients[id].value != run[n].clients[id].base
    ensures CommittedIn(run, steps, a, n, id)
  {
    if !CommittedIn(run, steps, a, n, id) {
      CleanClientShowsItsBase(run, steps, a, n, id);
    }
  }

  lemma Committing(run: seq<System>, steps: seq<Step>, g: nat, id: int)
    requires IsRun(run, steps) && g < |steps| && Commits(run[g], steps[g], id)
    ensures id in run[g + 1].clients && run[g + 1].clients[id].rev < |run[g + 1].server.history|
    ensures var before, after := run[g].clients[id], run[g + 1].clients[id];
            && after.value == steps[g].doc && after.base == before.base
            && run[g + 1].View(after.rev) == steps[g].doc
  {
    assert run[g + 1].server.defaults + steps[g].doc == steps[g].doc;
  }

  /**
   A reviewed document is stored, the base stays behind. The next version this client stores changes a cell
   its user then leaves alone exactly when a refusal comes first, the committed content can win a merge and
   differs from the old base's, and none of the versions met on the way holds it.
   */
  lemma ReviewOverwritesIff(run: seq<System>, steps: seq<Step>, g: nat, j: nat, n: nat, r: nat, id: int, c: Cell)
    requires IsRun(run, steps) && SavedAs(run, steps, j, n, r, id) && g < j
    requires Commits(run[g], steps[g], id) && Undisturbed(run, steps, g, j, id, c)
    ensures At(run[n].View(r), c) != At(run[n].View(r - 1), c)
       <==> RefusedIn(run, steps, g, j, id)
            && Outlasts(run, steps, g, j, id, c, At(run[g].clients[id].base, c), At(steps[g].doc, c))
  {
    Committing(run, steps, g, id);
    StoredAfterRefusals(run, steps, g, j, n, r, id, c, At(steps[g].doc, c));
  }
}
