/**
 What every run of the workspace system guarantees (financial/web/src/App.jsx:772-1084): whose edit,
 whose deletion, whose giving up or whose reviewed commit stands behind each change of the stored document,
 and what a client at rest shows.
 */
module WorkspaceRuns {
  import opened Common
  import Traces
  import opened WorkspaceMerge
  import opened WorkspaceSync

  // ---------------------------------------------------------------- windows of a run

  /** A step that makes a server version or an accepted value the client's base: its history starts afresh. */
  ghost predicate Aligns(s: System, step: Step, id: int) {
    match step
    case Load(i, _) => i == id
    case Accepted(i, same) => i == id && id in s.clients && !(s.clients[id].dirty && !same)
    case Poll(i, r) =>
      i == id && id in s.clients && TakesPoll(s.clients[id], r) && s.clients[id].value == s.clients[id].base
    case _ => false
  }

  /** Step a aligned the client and no step between a and n did so again. */
  ghost predicate LastAligned(run: seq<System>, steps: seq<Step>, a: nat, n: nat, id: int)
    requires n <= |steps| <= |run|
  {
    a < n && Aligns(run[a], steps[a], id) && forall k | a < k < n :: !Aligns(run[k], steps[k], id)
  }

  /** The user of this client edits the cell. */
  ghost predicate Edits(s: System, step: Step, id: int, c: Cell) {
    step.Edit? && step.id == id && id in s.clients && At(s.clients[id].value, c) != At(step.next, c)
  }

  ghost predicate EditedIn(run: seq<System>, steps: seq<Step>, a: nat, n: nat, id: int, c: Cell)
    requires n <= |steps| <= |run|
  {
    exists i | a < i < n :: Edits(run[i], steps[i], id, c)
  }

  /** A step after which a refusal is the first one again: a load, a taken poll, a clean save, the end of a pause. */
  ghost predicate EndsRefusals(s: System, step: Step, id: int) {
    match step
    case Load(i, _) => i == id
    case Poll(i, r) => i == id && id in s.clients && TakesPoll(s.clients[id], r)
    case Accepted(i, same) => i == id && id in s.clients && !(s.clients[id].dirty && !same)
    case Resume(i) => i == id
    case _ => false
  }

  /** How many refusals the client has met before step n since such a step. */
  ghost function RefusalsInARow(run: seq<System>, steps: seq<Step>, n: nat, id: int): nat
    requires n <= |steps| <= |run|
  {
    if n == 0 || EndsRefusals(run[n - 1], steps[n - 1], id) then 0
    else
      RefusalsInARow(run, steps, n - 1, id) + if steps[n - 1].Conflict? && steps[n - 1].id == id then 1 else 0
  }

  /** The counter of the client is the number of refusals in a row. */
  lemma {:induction false} AttemptsCountRefusals(run: seq<System>, steps: seq<Step>, n: nat, id: int)
    requires IsRun(run, steps) && n <= |steps| && id in run[n].clients
    ensures run[n].clients[id].attempts == RefusalsInARow(run, steps, n, id)
  {
    if n > 0 {
      OneStepCounts(run[n - 1], steps[n - 1], id);
      if !EndsRefusals(run[n - 1], steps[n - 1], id) {
        AttemptsCountRefusals(run, steps, n - 1, id);
      }
    }
  }

  lemma OneStepCounts(s: System, step: Step, id: int)
    requires Enabled(s, step) && id in Apply(s, step).clients
    ensures if EndsRefusals(s, step, id) then Apply(s, step).clients[id].attempts == 0
            else id in s.clients && Apply(s, step).clients[id].attempts
                 == s.clients[id].attempts + if step.Conflict? && step.id == id then 1 else 0
  {
  }

  /** The server has changed the cell since the base of the client it refuses. */
  ghost predicate RefusesNewer(s: System, step: Step, id: int, c: Cell) {
    && step.Conflict? && step.id == id && id in s.clients && s.clients[id].phase.Refused?
    && s.clients[id].baseRev < |s.server.history| && s.clients[id].phase.current < |s.server.history|
    && At(s.View(s.clients[id].phase.current), c) != At(s.View(s.clients[id].baseRev), c)
  }

  /** Step k is the client giving up: a sixth refusal in a row, and the server has changed the cell since the base. */
  ghost predicate GivesUpOn(run: seq<System>, steps: seq<Step>, k: nat, id: int, c: Cell)
    requires k < |steps| <= |run|
  {
    RefusesNewer(run[k], steps[k], id, c) && RefusalsInARow(run, steps, k, id) >= 5
  }

  ghost predicate GaveUpIn(run: seq<System>, steps: seq<Step>, a: nat, n: nat, id: int, c: Cell)
    requires n <= |steps| <= |run|
  {
    exists i: nat | a < i < n :: GivesUpOn(run, steps, i, id, c)
  }

  /** The user of this client has a reviewed document committed that changes the cell. */
  ghost predicate Reviews(s: System, step: Step, id: int, c: Cell) {
    step.Review? && step.id == id && id in s.clients && At(s.clients[id].value, c) != At(step.doc, c)
  }

  ghost predicate ReviewedIn(run: seq<System>, steps: seq<Step>, a: nat, n: nat, id: int, c: Cell)
    requires n <= |steps| <= |run|
  {
    exists i | a < i < n :: Reviews(run[i], steps[i], id, c)
  }

  /** A reviewed commit of this client is stored and answered. */
  ghost predicate Commits(s: System, step: Step, id: int) {
    step.Review? && step.id == id && id in s.clients && step.answered && s.clients[id].rev + 1 == |s.server.history|
  }

  ghost predicate CommittedIn(run: seq<System>, steps: seq<Step>, a: nat, n: nat, id: int)
    requires n <= |steps| <= |run|
  {
    exists i | a < i < n :: Commits(run[i], steps[i], id)
  }

  lemma AlignedStep(run: seq<System>, steps: seq<Step>, n: nat, id: int)
    requires IsRun(run, steps) && n < |steps| && id in run[n + 1].clients
    ensures if Aligns(run[n], steps[n], id) then run[n + 1].clients[id].rev == run[n + 1].clients[id].since
            else id in run[n].clients && run[n + 1].clients[id].since == run[n].clients[id].since
  {
    RunKeepsInv(run, steps, n);
    if Aligns(run[n], steps[n], id) {
      AlignmentIsSince(run[n], steps[n], id);
    } else {
      SinceStays(run[n], steps[n], id);
    }
  }

  /** Every client was aligned at some step, and `since` is the revision it had then. */
  lemma {:induction false} ClientWasAligned(run: seq<System>, steps: seq<Step>, n: nat, id: int) returns (a: nat)
    requires IsRun(run, steps) && n <= |steps| && id in run[n].clients
    ensures LastAligned(run, steps, a, n, id)
    ensures id in run[a + 1].clients && run[a + 1].clients[id].rev == run[n].clients[id].since
  {
    AlignedStep(run, steps, n - 1, id);
    a := n - 1;
    if !Aligns(run[n - 1], steps[n - 1], id) {
      a := ClientWasAligned(run, steps, n - 1, id);
    }
  }

  lemma AlignmentIsSince(s: System, step: Step, id: int)
    requires Inv(s) && Enabled(s, step) && Aligns(s, step, id)
    ensures var cl := Apply(s, step).clients[id];
            cl.rev == cl.since && cl.Blame() == iset{} && !cl.behind
  {
  }

  lemma SinceStays(s: System, step: Step, id: int)
    requires Inv(s) && Enabled(s, step) && !Aligns(s, step, id) && id in Apply(s, step).clients
    ensures id in s.clients && Apply(s, step).clients[id].since == s.clients[id].since
  {
  }

  lemma OnlyEditsExtendEdited(s: System, step: Step, id: int, c: Cell)
    requires Inv(s) && Enabled(s, step) && id in Apply(s, step).clients && c in Apply(s, step).clients[id].edited
    ensures !Aligns(s, step, id) && id in s.clients
    ensures c in s.clients[id].edited || Edits(s, step, id, c)
  {
  }

  lemma OnlyGivingUpOverrules(s: System, step: Step, id: int, c: Cell)
    requires Inv(s) && Enabled(s, step) && id in Apply(s, step).clients && c in Apply(s, step).clients[id].overruled
    ensures !Aligns(s, step, id) && id in s.clients
    ensures c in s.clients[id].overruled || (RefusesNewer(s, step, id, c) && s.clients[id].attempts >= 5)
  {
  }

  lemma OnlyReviewsExtendReviewed(s: System, step: Step, id: int, c: Cell)
    requires Inv(s) && Enabled(s, step) && id in Apply(s, step).clients && c in Apply(s, step).clients[id].reviewed
    ensures !Aligns(s, step, id) && id in s.clients
    ensures c in s.clients[id].reviewed || Reviews(s, step, id, c)
  {
  }

  lemma OnlyCommitsLeaveTheBaseBehind(s: System, step: Step, id: int)
    requires Inv(s) && Enabled(s, step) && id in Apply(s, step).clients && Apply(s, step).clients[id].behind
    ensures !Aligns(s, step, id) && id in s.clients
    ensures s.clients[id].behind || Commits(s, step, id)
  {
  }

  lemma EditedBefore(run: seq<System>, steps: seq<Step>, n: nat, id: int, c: Cell)
    requires IsRun(run, steps) && n < |steps| && id in run[n + 1].clients && c in run[n + 1].clients[id].edited
    ensures !Aligns(run[n], steps[n], id) && id in run[n].clients
    ensures c in run[n].clients[id].edited || Edits(run[n], steps[n], id, c)
  {
    RunKeepsInv(run, steps, n);
    OnlyEditsExtendEdited(run[n], steps[n], id, c);
  }

  lemma OverruledBefore(run: seq<System>, steps: seq<Step>, n: nat, id: int, c: Cell)
    requires IsRun(run, steps) && n < |steps| && id in run[n + 1].clients && c in run[n + 1].clients[id].overruled
    ensures !Aligns(run[n], steps[n], id) && id in run[n].clients
    ensures c in run[n].clients[id].overruled || GivesUpOn(run, steps, n, id, c)
  {
    RunKeepsInv(run, steps, n);
    OnlyGivingUpOverrules(run[n], steps[n], id, c);
    AttemptsCountRefusals(run, steps, n, id);
  }

  lemma ReviewedBefore(run: seq<System>, steps: seq<Step>, n: nat, id: int, c: Cell)
    requires IsRun(run, steps) && n < |steps| && id in run[n + 1].clients && c in run[n + 1].clients[id].reviewed
    ensures !Aligns(run[n], steps[n], id) && id in run[n].clients
    ensures c in run[n].clients[id].reviewed || Reviews(run[n], steps[n], id, c)
  {
    RunKeepsInv(run, steps, n);
    OnlyReviewsExtendReviewed(run[n], steps[n], id, c);
  }

  lemma BehindBefore(run: seq<System>, steps: seq<Step>, n: nat, id: int)
    requires IsRun(run, steps) && n < |steps| && id in run[n + 1].clients && run[n + 1].clients[id].behind
    ensures !Aligns(run[n], steps[n], id) && id in run[n].clients
    ensures run[n].clients[id].behind || Commits(run[n], steps[n], id)
  {
    RunKeepsInv(run, steps, n);
    OnlyCommitsLeaveTheBaseBehind(run[n], steps[n], id);
  }

  /** A cell counts as edited only because that user changed it after the client was last aligned. */
  lemma EditedCellsWereEdited(run: seq<System>, steps: seq<Step>, a: nat, n: nat, id: int, c: Cell)
    requires IsRun(run, steps) && n <= |steps| && LastAligned(run, steps, a, n, id)
    requires id in run[n].clients && c in run[n].clients[id].edited
    ensures EditedIn(run, steps, a, n, id, c)
  {
    ghost var holds := (k: nat) => k < |run| && id in run[k].clients && c in run[k].clients[id].edited;
    ghost var cause := (k: nat) => k < |steps| && k < |run| && Edits(run[k], steps[k], id, c);
    ghost var resets := (k: nat) => k < |steps| && k < |run| && Aligns(run[k], steps[k], id);
    forall k: nat | a <= k < n && holds(k + 1) ensures !resets(k) && (holds(k) || cause(k)) {
      EditedBefore(run, steps, k, id, c);
    }
    var i := Traces.BroughtAboutIn(holds, cause, resets, a, n);
    assert Edits(run[i], steps[i], id, c);
  }

  /** And it counts as overruled only because the client gave up on it after it was last aligned. */
  lemma OverruledCellsWereGivenUp(run: seq<System>, steps: seq<Step>, a: nat, n: nat, id: int, c: Cell)
    requires IsRun(run, steps) && n <= |steps| && LastAligned(run, steps, a, n, id)
    requires id in run[n].clients && c in run[n].clients[id].overruled
    ensures GaveUpIn(run, steps, a, n, id, c)
  {
    ghost var holds := (k: nat) => k < |run| && id in run[k].clients && c in run[k].clients[id].overruled;
    ghost var cause := (k: nat) => k < |steps| && |steps| <= |run| && GivesUpOn(run, steps, k, id, c);
    ghost var resets := (k: nat) => k < |steps| && k < |run| && Aligns(run[k], steps[k], id);
    forall k: nat | a <= k < n && holds(k + 1) ensures !resets(k) && (holds(k) || cause(k)) {
      OverruledBefore(run, steps, k, id, c);
    }
    var i := Traces.BroughtAboutIn(holds, cause, resets, a, n);
    assert GivesUpOn(run, steps, i, id, c);
  }

  /** And it counts as reviewed only because that user had it changed by a reviewed commit after the alignment. */
  lemma ReviewedCellsWereCommitted(run: seq<System>, steps: seq<Step>, a: nat, n: nat, id: int, c: Cell)
    requires IsRun(run, steps) && n <= |steps| && LastAligned(run, steps, a, n, id)
    requires id in run[n].clients && c in run[n].clients[id].reviewed
    ensures ReviewedIn(run, steps, a, n, id, c)
  {
    ghost var holds := (k: nat) => k < |run| && id in run[k].clients && c in run[k].clients[id].reviewed;
    ghost var cause := (k: nat) => k < |steps| && k < |run| && Reviews(run[k], steps[k], id, c);
    ghost var resets := (k: nat) => k < |steps| && k < |run| && Aligns(run[k], steps[k], id);
    forall k: nat | a <= k < n && holds(k + 1) ensures !resets(k) && (holds(k) || cause(k)) {
      ReviewedBefore(run, steps, k, id, c);
    }
    var i := Traces.BroughtAboutIn(holds, cause, resets, a, n);
    assert Reviews(run[i], steps[i], id, c);
  }

  /** The base stands for no server version only after a reviewed commit since the alignment. */
  lemma BehindMeansCommitted(run: seq<System>, steps: seq<Step>, a: nat, n: nat, id: int)
    requires IsRun(run, steps) && n <= |steps| && LastAligned(run, steps, a, n, id)
    requires id in run[n].clients && run[n].clients[id].behind
    ensures CommittedIn(run, steps, a, n, id)
  {
    ghost var holds := (k: nat) => k < |run| && id in run[k].clients && run[k].clients[id].behind;
    ghost var cause := (k: nat) => k < |steps| && k < |run| && Commits(run[k], steps[k], id);
    ghost var resets := (k: nat) => k < |steps| && k < |run| && Aligns(run[k], steps[k], id);
    forall k: nat | a <= k < n && holds(k + 1) ensures !resets(k) && (holds(k) || cause(k)) {
      BehindBefore(run, steps, k, id);
    }
    var i := Traces.BroughtAboutIn(holds, cause, resets, a, n);
    assert Commits(run[i], steps[i], id);
  }

  // ---------------------------------------------------------------- where a PUT comes from

  /** The step sends this PUT: it begins a save, continues one, or has a reviewed document committed. */
  ghost predicate Sends(s: System, step: Step, req: Request) {
    && (step.Save? || step.Accepted? || step.Review?) && step.id == req.author && req.author in s.clients
    && var cl := s.clients[req.author];
       match step
       case Save(id) => cl.value != cl.base && req == Request(id, cl.value, cl.rev, cl.Blame(), cl.since)
       case Accepted(id, same) =>
         cl.phase.Acked? && cl.dirty && !same
         && req == Request(id, cl.value, cl.phase.newRev, cl.Blame(), cl.since)
       case Review(id, doc, _) => req == ReviewedBy(id, cl, doc)
       case _ => false
  }

  ghost predicate SentAt(run: seq<System>, steps: seq<Step>, j: nat, req: Request)
    requires j < |steps| && |run| == |steps| + 1
  {
    Sends(run[j], steps[j], req)
  }

  ghost predicate WasSent(run: seq<System>, steps: seq<Step>, n: nat, req: Request)
    requires n <= |steps| && |run| == |steps| + 1
  {
    exists j | 0 <= j < n :: SentAt(run, steps, j, req)
  }

  /** A PUT known to the system: on its way, given up by its sender, or stored. */
  ghost predicate Known(s: System, req: Request) {
    || InFlightAt(s, req)
    || req in s.stray
    || (exists i | 0 <= i < |s.server.history| :: s.server.history[i].put == Some(req))
  }

  ghost predicate InFlightAt(s: System, req: Request) {
    && req.author in s.clients && s.clients[req.author].phase.InFlight?
    && SentBy(req.author, s.clients[req.author]) == req
  }

  lemma InitiallyUnknown(s: System, req: Request)
    requires Initial(s)
    ensures !Known(s, req)
  {
  }

  lemma InFlightBefore(s: System, step: Step, req: Request)
    requires Inv(s) && Enabled(s, step) && InFlightAt(Apply(s, step), req)
    ensures InFlightAt(s, req) || Sends(s, step, req)
  {
  }

  lemma StrayBefore(s: System, step: Step, req: Request)
    requires Inv(s) && Enabled(s, step) && req in Apply(s, step).stray
    ensures req in s.stray || InFlightAt(s, req) || Sends(s, step, req)
  {
  }

  lemma StoredBefore(s: System, step: Step, req: Request, i: nat)
    requires Inv(s) && Enabled(s, step)
    requires i < |Apply(s, step).server.history| && Apply(s, step).server.history[i].put == Some(req)
    ensures Known(s, req) || Sends(s, step, req)
  {
    if i < |s.server.history| { assert s.server.history[i].put == Some(req); }
  }

  /** A step makes no PUT known but the one it sends. */
  lemma KnownBefore(s: System, step: Step, req: Request)
    requires Inv(s) && Enabled(s, step) && Known(Apply(s, step), req)
    ensures Known(s, req) || Sends(s, step, req)
  {
    var t := Apply(s, step);
    if InFlightAt(t, req) {
      InFlightBefore(s, step, req);
    } else if req in t.stray {
      StrayBefore(s, step, req);
    } else {
      var i :| 0 <= i < |t.server.history| && t.server.history[i].put == Some(req);
      StoredBefore(s, step, req, i);
    }
  }

  /** Every PUT the system knows, also one delivered long after its sender stopped waiting, was sent at some step. */
  lemma {:induction false} KnownWasSent(run: seq<System>, steps: seq<Step>, n: nat, req: Request)
    requires IsRun(run, steps) && n <= |steps| && Known(run[n], req)
    ensures WasSent(run, steps, n, req)
  {
    if n == 0 {
      InitiallyUnknown(run[0], req);
    } else {
      RunKeepsInv(run, steps, n - 1);
      KnownBefore(run[n - 1], steps[n - 1], req);
      if Known(run[n - 1], req) {
        KnownWasSent(run, steps, n - 1, req);
        var j :| 0 <= j < n - 1 && SentAt(run, steps, j, req);
      } else {
        assert SentAt(run, steps, n - 1, req);
      }
    }
  }

  // ---------------------------------------------------------------- who changes what

  lemma {:induction false} HistoryGrows(run: seq<System>, steps: seq<Step>, m: nat, n: nat)
    requires IsRun(run, steps) && m <= n <= |steps|
    ensures Extends(run[m].server, run[n].server)
  {
    if m < n {
      HistoryGrows(run, steps, m, n - 1);
      RunKeepsInv(run, steps, n - 1);
      StepKeepsInv(run[n - 1], steps[n - 1]);
    }
  }

  /** Version r was sent at step j by a client whose last alignment was step a, on the version before. */
  ghost predicate Authored(run: seq<System>, steps: seq<Step>, a: nat, j: nat, v: Server, r: nat)
    requires |run| == |steps| + 1 && j < |steps|
  {
    && 0 < r < |v.history| && v.history[r].put.Some?
    && var req := v.history[r].put.value;
       && req.doc == v.history[r].doc && req.rev == r - 1
       && LastAligned(run, steps, a, j, req.author) && SentAt(run, steps, j, req)
       && req.author in run[a + 1].clients && run[a + 1].clients[req.author].rev == req.since
  }

  /** Every stored version but the first has an author, a sending step and an alignment before it. */
  lemma StoredVersionHasAuthor(run: seq<System>, steps: seq<Step>, n: nat, r: nat) returns (a: nat, j: nat)
    requires IsRun(run, steps) && n <= |steps| && 0 < r < |run[n].server.history|
    ensures j < n && Authored(run, steps, a, j, run[n].server, r)
  {
    RunKeepsInv(run, steps, n);
    assert VersionInv(run[n].server, r);
    var req := run[n].server.history[r].put.value;
    assert Known(run[n], req);
    KnownWasSent(run, steps, n, req);
    j :| 0 <= j < n && SentAt(run, steps, j, req);
    a := ClientWasAligned(run, steps, j, req.author);
  }

  /**
   What a sent PUT answers for was edited, dropped by the server, given up on or committed after a review
   since the alignment; the commit may be the sending itself.
   */
  lemma BlameIsExplained(run: seq<System>, steps: seq<Step>, a: nat, j: nat, req: Request, c: Cell)
    requires IsRun(run, steps) && j < |steps| && SentAt(run, steps, j, req)
    requires LastAligned(run, steps, a, j, req.author)
    requires c in req.blame
    ensures || EditedIn(run, steps, a, j, req.author, c)
            || DroppedIn(run[j].server, req.since, req.rev, c)
            || GaveUpIn(run, steps, a, j, req.author, c)
            || ReviewedIn(run, steps, a, j + 1, req.author, c)
  {
    var cl := run[j].clients[req.author];
    SentBlame(run[j], steps[j], req, c);
    if c in cl.edited {
      EditedCellsWereEdited(run, steps, a, j, req.author, c);
    } else if c in cl.overruled {
      OverruledCellsWereGivenUp(run, steps, a, j, req.author, c);
    } else if c in cl.reviewed {
      ReviewedCellsWereCommitted(run, steps, a, j, req.author, c);
      var i :| a < i < j && Reviews(run[i], steps[i], req.author, c);
    } else if c in cl.revived {
      DroppedBeforeSending(run, steps, j, req, c);
    } else {
      assert Reviews(run[j], steps[j], req.author, c);
    }
  }

  lemma SentBlame(s: System, step: Step, req: Request, c: Cell)
    requires Sends(s, step, req) && c in req.blame
    ensures c in s.clients[req.author].Blame() || Reviews(s, step, req.author, c)
  {
  }

  lemma DroppedBeforeSending(run: seq<System>, steps: seq<Step>, j: nat, req: Request, c: Cell)
    requires IsRun(run, steps) && j < |steps| && SentAt(run, steps, j, req)
    requires c in run[j].clients[req.author].revived
    ensures DroppedIn(run[j].server, req.since, req.rev, c)
  {
    RunKeepsInv(run, steps, j);
    var v, cl := run[j].server, run[j].clients[req.author];
    assert ClientInv(v, cl);
    DroppedStable(v, v, cl.since, cl.rev, req.rev, c);
  }

  /** Why version r, sent at step j by a client aligned at step a, may change a cell. */
  ghost predicate OwnCell(run: seq<System>, steps: seq<Step>, a: nat, j: nat, v: Server, r: nat, c: Cell)
    requires |run| == |steps| + 1 && a < j < |steps| && Authored(run, steps, a, j, v, r)
  {
    var id := v.history[r].put.value.author;
    EditedIn(run, steps, a, j, id, c) || DroppedIn(v, run[a + 1].clients[id].rev, r - 1, c)
  }

  ghost predicate GivenUpOrReviewed(run: seq<System>, steps: seq<Step>, a: nat, j: nat, v: Server, r: nat, c: Cell)
    requires |run| == |steps| + 1 && a < j < |steps| && Authored(run, steps, a, j, v, r)
  {
    var id := v.history[r].put.value.author;
    GaveUpIn(run, steps, a, j, id, c) || ReviewedIn(run, steps, a, j + 1, id, c)
  }

  /**
   In every run, whatever the interleaving and however late a PUT is delivered: where a stored version
   differs from the one before, its author had edited the cell since the author's client was last aligned
   and before the PUT was sent, or the server had held the row at or after that alignment and dropped it by
   the version the PUT was made on, or the client had meanwhile given up on a newer content of the cell, or
   the author had it changed by a reviewed commit, this version's own included.
   */
  lemma StoredVersionsChangeOnlyOwnCells(run: seq<System>, steps: seq<Step>, n: nat, r: nat, c: Cell)
    requires IsRun(run, steps) && n <= |steps| && 0 < r < |run[n].server.history|
    requires At(run[n].View(r), c) != At(run[n].View(r - 1), c)
    ensures exists a: nat, j: nat | a < j < n && Authored(run, steps, a, j, run[n].server, r) ::
              OwnCell(run, steps, a, j, run[n].server, r, c) || GivenUpOrReviewed(run, steps, a, j, run[n].server, r, c)
  {
    var a, j := StoredVersionHasAuthor(run, steps, n, r);
    var req := run[n].server.history[r].put.value;
    RunKeepsInv(run, steps, n);
    assert VersionInv(run[n].server, r);
    assert c in req.blame;
    BlameIsExplained(run, steps, a, j, req, c);
    HistoryGrows(run, steps, j, n);
    if DroppedIn(run[j].server, req.since, req.rev, c) {
      DroppedStable(run[j].server, run[n].server, req.since, req.rev, r - 1, c);
    }
    assert OwnCell(run, steps, a, j, run[n].server, r, c) || GivenUpOrReviewed(run, steps, a, j, run[n].server, r, c);
  }

  /** No client is refused a sixth time in a row, and none commits a reviewed document. */
  ghost predicate NobodyGivesUpOrReviews(run: seq<System>, steps: seq<Step>)
    requires |run| == |steps| + 1
  {
    && (forall k: nat | k < |steps| && steps[k].Conflict? :: RefusalsInARow(run, steps, k, steps[k].id) < 5)
    && (forall k | 0 <= k < |steps| :: !steps[k].Review?)
  }

  lemma NeitherGivenUpNorReviewed(run: seq<System>, steps: seq<Step>, a: nat, j: nat, id: int, c: Cell)
    requires |run| == |steps| + 1 && NobodyGivesUpOrReviews(run, steps) && j < |steps|
    ensures !GaveUpIn(run, steps, a, j, id, c) && !ReviewedIn(run, steps, a, j + 1, id, c)
  {
  }

  /** Then nobody overwrites anything but their own edits since the alignment and rows the server dropped since. */
  lemma UsuallyOnlyOwnCellsChange(run: seq<System>, steps: seq<Step>, n: nat, r: nat, c: Cell)
    requires IsRun(run, steps) && NobodyGivesUpOrReviews(run, steps) && n <= |steps| && 0 < r < |run[n].server.history|
    requires At(run[n].View(r), c) != At(run[n].View(r - 1), c)
    ensures exists a: nat, j: nat | a < j < n && Authored(run, steps, a, j, run[n].server, r) ::
              OwnCell(run, steps, a, j, run[n].server, r, c)
  {
    StoredVersionsChangeOnlyOwnCells(run, steps, n, r, c);
    var v := run[n].server;
    var a: nat, j: nat :| a < j < n && Authored(run, steps, a, j, v, r)
      && (OwnCell(run, steps, a, j, v, r, c) || GivenUpOrReviewed(run, steps, a, j, v, r, c));
    NeitherGivenUpNorReviewed(run, steps, a, j, v.history[r].put.value.author, c);
  }

  /** Version m changed the cell, and its author answers for it. */
  ghost predicate Overwrites(v: Server, m: nat, c: Cell)
    requires 0 < m < |v.history|
  {
    At(v.View(m), c) != At(v.View(m - 1), c) && v.history[m].put.Some? && c in v.history[m].put.value.blame
  }

  lemma ChangeIsAnOverwrite(v: Server, m: nat, c: Cell)
    requires ServerInv(v) && 0 < m < |v.history| && At(v.View(m), c) != At(v.View(m - 1), c)
    ensures Overwrites(v, m, c)
  {
    assert VersionInv(v, m);
  }

  /** A cell that differs between two versions was overwritten by a version in between whose author answers for it. */
  lemma {:induction false} LostValueHasACulprit(v: Server, i: nat, j: nat, c: Cell)
    requires ServerInv(v) && i <= j < |v.history|
    requires At(v.View(i), c) != At(v.View(j), c)
    ensures exists m | i < m <= j :: Overwrites(v, m, c)
    decreases j - i
  {
    if At(v.View(j), c) == At(v.View(j - 1), c) {
      LostValueHasACulprit(v, i, j - 1, c);
      var m :| i < m <= j - 1 && Overwrites(v, m, c);
    } else {
      ChangeIsAnOverwrite(v, j, c);
    }
  }

  // ---------------------------------------------------------------- clients at rest

  /** A clean client with no reviewed commit since its alignment shows exactly the version its base stands for. */
  lemma CleanClientShowsItsBase(run: seq<System>, steps: seq<Step>, a: nat, n: nat, id: int)
    requires IsRun(run, steps) && n <= |steps| && LastAligned(run, steps, a, n, id)
    requires id in run[n].clients && !run[n].clients[id].dirty && !CommittedIn(run, steps, a, n, id)
    ensures var cl := run[n].clients[id];
            && cl.baseRev < |run[n].server.history| && cl.value == cl.base == run[n].View(cl.baseRev) && cl.phase.Idle?
  {
    RunKeepsInv(run, steps, n);
    assert ClientInv(run[n].server, run[n].clients[id]);
    if run[n].clients[id].behind {
      BehindMeansCommitted(run, steps, a, n, id);
    }
  }

  /** A step that brings base and revision of the client to one version. */
  ghost predicate Resyncs(s: System, step: Step, id: int) {
    || Aligns(s, step, id)
    || (step.Conflict? && step.id == id)
    || (step.Poll? && step.id == id && id in s.clients && TakesPoll(s.clients[id], step.r))
  }

  ghost predicate LastResync(run: seq<System>, steps: seq<Step>, u: nat, n: nat, id: int)
    requires n <= |steps| <= |run|
  {
    u < n && Resyncs(run[u], steps[u], id) && forall k | u < k < n :: !Resyncs(run[k], steps[k], id)
  }

  /** The client's save ends after the server has already taken one of its PUTs. */
  ghost predicate CutsOff(s: System, step: Step, id: int) {
    step.Fail? && step.id == id && id in s.clients && s.clients[id].rev != s.clients[id].baseRev
  }

  /** The two ways in which a client comes to rest on a revision its base does not stand for. */
  ghost predicate LeavesBase(s: System, step: Step, id: int) {
    CutsOff(s, step, id) || Commits(s, step, id)
  }

  ghost predicate LeftBaseIn(run: seq<System>, steps: seq<Step>, u: nat, n: nat, id: int)
    requires n <= |steps| <= |run|
  {
    exists k | u < k < n :: LeavesBase(run[k], steps[k], id)
  }

  /** After a resync base and revision stand for one version, and stay so at rest until a step leaves the base. */
  lemma ResyncIsCurrent(s: System, step: Step, id: int)
    requires Inv(s) && Enabled(s, step) && Resyncs(s, step, id)
    ensures var cl := Apply(s, step).clients[id]; cl.rev == cl.baseRev && cl.phase.Idle?
  {
  }

  lemma BetweenResyncs(s: System, step: Step, id: int)
    requires Inv(s) && Enabled(s, step) && !Resyncs(s, step, id) && id in Apply(s, step).clients
    ensures id in s.clients
    ensures var before, after := s.clients[id], Apply(s, step).clients[id];
            && after.baseRev == before.baseRev && after.rev >= before.rev
            && (after.phase.Idle? && after.rev != after.baseRev ==>
                  (before.phase.Idle? && before.rev != before.baseRev) || LeavesBase(s, step, id))
            && (LeavesBase(s, step, id) ==> after.rev != after.baseRev)
  {
    assert ClientInv(s.server, s.clients[id]);
  }

  lemma {:induction false} ClientResynced(run: seq<System>, steps: seq<Step>, n: nat, id: int) returns (u: nat)
    requires IsRun(run, steps) && n <= |steps| && id in run[n].clients
    ensures LastResync(run, steps, u, n, id)
    ensures id in run[u + 1].clients && run[u + 1].clients[id].rev == run[n].clients[id].baseRev
  {
    RunKeepsInv(run, steps, n - 1);
    if Resyncs(run[n - 1], steps[n - 1], id) {
      u := n - 1;
      ResyncIsCurrent(run[n - 1], steps[n - 1], id);
    } else {
      BetweenResyncs(run[n - 1], steps[n - 1], id);
      u := ClientResynced(run, steps, n - 1, id);
    }
  }

  lemma StepBetween(run: seq<System>, steps: seq<Step>, k: nat, id: int)
    requires IsRun(run, steps) && k < |steps| && !Resyncs(run[k], steps[k], id) && id in run[k + 1].clients
    ensures id in run[k].clients
    ensures var before, after := run[k].clients[id], run[k + 1].clients[id];
            && after.baseRev == before.baseRev <= before.rev <= after.rev
            && (after.phase.Idle? && after.rev != after.baseRev ==>
                  (before.phase.Idle? && before.rev != before.baseRev) || LeavesBase(run[k], steps[k], id))
            && (LeavesBase(run[k], steps[k], id) ==> after.rev != after.baseRev)
  {
    RunKeepsInv(run, steps, k);
    assert ClientInv(run[k].server, run[k].clients[id]) by { BetweenResyncs(run[k], steps[k], id); }
    BetweenResyncs(run[k], steps[k], id);
  }

  /** At rest with base and revision apart, some step since the resync left the base. */
  lemma ApartMeansLeft(run: seq<System>, steps: seq<Step>, u: nat, n: nat, id: int)
    requires IsRun(run, steps) && n <= |steps| && LastResync(run, steps, u, n, id) && id in run[n].clients
    requires run[n].clients[id].phase.Idle? && run[n].clients[id].rev != run[n].clients[id].baseRev
    ensures LeftBaseIn(run, steps, u, n, id)
  {
    ghost var holds := (k: nat) =>
      k < |run| && id in run[k].clients && run[k].clients[id].phase.Idle?
      && run[k].clients[id].rev != run[k].clients[id].baseRev;
    ghost var cause := (k: nat) => k < |steps| && k < |run| && LeavesBase(run[k], steps[k], id);
    ghost var resets := (k: nat) => k < |steps| && k < |run| && Resyncs(run[k], steps[k], id);
    forall k: nat | u <= k < n && holds(k + 1) ensures !resets(k) && (holds(k) || cause(k)) {
      if k == u {
        RunKeepsInv(run, steps, u);
        ResyncIsCurrent(run[u], steps[u], id);
      } else {
        StepBetween(run, steps, k, id);
      }
    }
    var i := Traces.BroughtAboutIn(holds, cause, resets, u, n);
    assert LeavesBase(run[i], steps[i], id);
  }

  lemma ClientStays(run: seq<System>, steps: seq<Step>, k: nat, id: int)
    requires IsRun(run, steps) && k < |steps| && id in run[k].clients
    ensures id in run[k + 1].clients
  {
  }

  lemma LeavingSetsApart(run: seq<System>, steps: seq<Step>, k: nat, id: int)
    requires IsRun(run, steps) && k < |steps| && LeavesBase(run[k], steps[k], id) && !Resyncs(run[k], steps[k], id)
    ensures Apart(run, k + 1, id)
  {
    ClientStays(run, steps, k, id);
    StepBetween(run, steps, k, id);
  }

  ghost predicate Apart(run: seq<System>, k: nat, id: int) {
    k < |run| && id in run[k].clients && run[k].clients[id].rev != run[k].clients[id].baseRev
  }

  lemma StepKeepsApart(run: seq<System>, steps: seq<Step>, k: nat, id: int)
    requires IsRun(run, steps) && k < |steps| && Apart(run, k, id) && !Resyncs(run[k], steps[k], id)
    ensures Apart(run, k + 1, id)
  {
    ClientStays(run, steps, k, id);
    StepBetween(run, steps, k, id);
  }

  /** And once apart they stay so until the next resync. */
  lemma StaysApart(run: seq<System>, steps: seq<Step>, k: nat, n: nat, id: int)
    requires IsRun(run, steps) && k <= n <= |steps| && Apart(run, k, id)
    requires forall i | k <= i < n :: !Resyncs(run[i], steps[i], id)
    ensures Apart(run, n, id)
  {
    ghost var holds := (i: nat) => Apart(run, i, id);
    forall i: nat | k <= i < n && holds(i) ensures holds(i + 1) {
      StepKeepsApart(run, steps, i, id);
    }
    Traces.PersistsTo(holds, k, n);
  }

  /**
   At rest, base and revision stand for one version exactly when no save of this client was cut off and no
   reviewed document of it stored since its last resync.
   */
  lemma RestIsCurrentIff(run: seq<System>, steps: seq<Step>, n: nat, id: int)
    requires IsRun(run, steps) && n <= |steps| && id in run[n].clients && run[n].clients[id].phase.Idle?
    ensures exists u: nat | u < n && LastResync(run, steps, u, n, id) ::
              run[n].clients[id].rev == run[n].clients[id].baseRev <==> !LeftBaseIn(run, steps, u, n, id)
  {
    var u := ClientResynced(run, steps, n, id);
    if LeftBaseIn(run, steps, u, n, id) {
      var k :| u < k < n && LeavesBase(run[k], steps[k], id);
      LeavingSetsApart(run, steps, k, id);
      StaysApart(run, steps, k + 1, n, id);
    } else if run[n].clients[id].rev != run[n].clients[id].baseRev {
      ApartMeansLeft(run, steps, u, n, id);
    }
  }

  // ---------------------------------------------------------------- does a clean client show the version it holds?

  ghost predicate Accepts(step: Step, id: int) { step.Accepted? && step.id == id }

  ghost predicate AcceptedIn(steps: seq<Step>, u: nat, n: nat, id: int)
    requires n <= |steps|
  {
    exists k | u < k < n :: Accepts(steps[k], id)
  }

  /** Step k was the last before n at which the client learned that a PUT of its own was accepted. */
  ghost predicate LastAccepted(run: seq<System>, steps: seq<Step>, k: nat, n: nat, id: int)
    requires k < n <= |steps| <= |run|
  {
    && Accepts(steps[k], id) && id in run[k].clients && run[k].clients[id].phase.Acked?
    && forall i | k < i < n :: !Accepts(steps[i], id)
  }

  /** The client holds this revision over this base. */
  ghost predicate HoldsOver(run: seq<System>, k: nat, id: int, rev: nat, base: Doc) {
    k < |run| && id in run[k].clients && run[k].clients[id].rev == rev && run[k].clients[id].base == base
  }

  lemma RevisionIsKept(s: System, step: Step, id: int)
    requires Enabled(s, step) && id in s.clients
    requires !Resyncs(s, step, id) && !Commits(s, step, id) && !Accepts(step, id)
    ensures id in Apply(s, step).clients
    ensures Apply(s, step).clients[id].rev == s.clients[id].rev && Apply(s, step).clients[id].base == s.clients[id].base
  {
  }

  lemma StepLeavesRevision(run: seq<System>, steps: seq<Step>, k: nat, id: int, rev: nat, base: Doc)
    requires IsRun(run, steps) && k < |steps| && HoldsOver(run, k, id, rev, base)
    requires !Resyncs(run[k], steps[k], id) && !Commits(run[k], steps[k], id) && !Accepts(steps[k], id)
    ensures HoldsOver(run, k + 1, id, rev, base)
  {
    RevisionIsKept(run[k], steps[k], id);
  }

  lemma RevisionStays(run: seq<System>, steps: seq<Step>, k: nat, n: nat, id: int, rev: nat, base: Doc)
    requires IsRun(run, steps) && k <= n <= |steps| && HoldsOver(run, k, id, rev, base)
    requires forall i | k <= i < n ::
               !Resyncs(run[i], steps[i], id) && !Commits(run[i], steps[i], id) && !Accepts(steps[i], id)
    ensures HoldsOver(run, n, id, rev, base)
  {
    ghost var holds := (i: nat) => HoldsOver(run, i, id, rev, base);
    forall i: nat | k <= i < n && holds(i) ensures holds(i + 1) {
      StepLeavesRevision(run, steps, i, id, rev, base);
    }
    Traces.PersistsTo(holds, k, n);
  }

  /** An accepted PUT that is followed by another leaves the base and brings the revision that holds what was sent. */
  lemma AcceptedBringsRevision(run: seq<System>, steps: seq<Step>, k: nat, id: int)
    requires IsRun(run, steps) && k < |steps| && Accepts(steps[k], id) && id in run[k].clients
    requires run[k].clients[id].phase.Acked? && !Resyncs(run[k], steps[k], id)
    ensures HoldsOver(run, k + 1, id, run[k].clients[id].phase.newRev, run[k].clients[id].base)
    ensures run[k].clients[id].phase.newRev < |run[k].server.history|
    ensures run[k].View(run[k].clients[id].phase.newRev) == run[k].clients[id].phase.sent
  {
    RunKeepsInv(run, steps, k);
    assert ClientInv(run[k].server, run[k].clients[id]);
  }

  lemma {:induction false} LastAcceptedExists(run: seq<System>, steps: seq<Step>, u: nat, n: nat, id: int)
    returns (k: nat)
    requires IsRun(run, steps) && n <= |steps| && AcceptedIn(steps, u, n, id)
    ensures u < k < n && LastAccepted(run, steps, k, n, id)
  {
    if Accepts(steps[n - 1], id) {
      k := n - 1;
    } else {
      k := LastAcceptedExists(run, steps, u, n - 1, id);
    }
  }

  lemma NoCommitSinceResync(run: seq<System>, steps: seq<Step>, a: nat, u: nat, n: nat, id: int)
    requires n <= |steps| && |run| == |steps| + 1
    requires LastAligned(run, steps, a, n, id) && LastResync(run, steps, u, n, id) && !CommittedIn(run, steps, a, n, id)
    ensures forall i | u < i < n :: !Resyncs(run[i], steps[i], id) && !Commits(run[i], steps[i], id)
  {
    assert Resyncs(run[a], steps[a], id);
  }

  /**
   A clean client with no reviewed commit since its alignment shows the version whose revision it holds
   exactly when no PUT of its own was accepted since its last resync, or the last one accepted held just what
   its base held. Otherwise it takes an older version for the one it holds.
   */
  lemma CleanClientIsUpToDateIff(run: seq<System>, steps: seq<Step>, a: nat, n: nat, id: int)
    requires IsRun(run, steps) && n <= |steps| && LastAligned(run, steps, a, n, id)
    requires id in run[n].clients && !run[n].clients[id].dirty && !CommittedIn(run, steps, a, n, id)
    ensures run[n].clients[id].rev < |run[n].server.history|
    ensures exists u: nat | u < n && LastResync(run, steps, u, n, id) ::
              run[n].clients[id].value == run[n].View(run[n].clients[id].rev)
              <==> (AcceptedIn(steps, u, n, id) ==>
                      exists k: nat | u < k < n && LastAccepted(run, steps, k, n, id) ::
                        run[k].clients[id].phase.sent == run[k].clients[id].base)
  {
    var cl := run[n].clients[id];
    var u := ClientResynced(run, steps, n, id);
    CleanClientShowsItsBase(run, steps, a, n, id);
    NoCommitSinceResync(run, steps, a, u, n, id);
    if AcceptedIn(steps, u, n, id) {
      var k := LastAcceptedExists(run, steps, u, n, id);
      ShowsWhatWasAccepted(run, steps, k, n, id);
      OneLastAccepted(run, steps, k, n, id);
    } else {
      assert HoldsOver(run, u + 1, id, cl.baseRev, run[u + 1].clients[id].base);
      RevisionStays(run, steps, u + 1, n, id, cl.baseRev, run[u + 1].clients[id].base);
    }
    RunKeepsInv(run, steps, n);
  }

  lemma OneLastAccepted(run: seq<System>, steps: seq<Step>, k: nat, n: nat, id: int)
    requires k < n <= |steps| <= |run| && LastAccepted(run, steps, k, n, id)
    ensures forall i: nat | i < n && LastAccepted(run, steps, i, n, id) :: i == k
  {
  }

  lemma ShowsWhatWasAccepted(run: seq<System>, steps: seq<Step>, k: nat, n: nat, id: int)
    requires IsRun(run, steps) && k < n <= |steps| && LastAccepted(run, steps, k, n, id)
    requires forall i | k <= i < n :: !Resyncs(run[i], steps[i], id) && !Commits(run[i], steps[i], id)
    ensures id in run[n].clients && run[n].clients[id].base == run[k].clients[id].base
    ensures run[n].clients[id].rev < |run[n].server.history|
    ensures run[n].View(run[n].clients[id].rev) == run[k].clients[id].phase.sent
  {
    var at := run[k].clients[id].phase.newRev;
    AcceptedBringsRevision(run, steps, k, id);
    RevisionStays(run, steps, k + 1, n, id, at, run[k].clients[id].base);
    HistoryGrows(run, steps, k, n);
    ViewStable(run[k].server, run[n].server, at);
  }
}
