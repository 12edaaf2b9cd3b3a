/**
 The optimistic-concurrency client of the workspace document (financial/web/src/App.jsx:772-1084)
 and the system of one server and any number of such clients.

 The server accepts a PUT exactly when it carries the current revision, and answers a stale PUT
 with its current document and revision; the server program itself is not part of this model.
 Revision n is the n-th version the server ever stored.
 */
module WorkspaceSync {
  import opened Common
  import opened WorkspaceMerge

  // ---------------------------------------------------------------- one client

  /** Where a client's save stands. */
  datatype Phase =
    | Idle
    | InFlight(sent: Doc, blame: iset<Cell>)
    | Acked(sent: Doc, newRev: nat)
    | Refused(current: nat)

  /**
   The refs of one browser, and some history. Since the client was last aligned, that is since the base
   last became a server version or an accepted value: the cells its user has edited, the rows its merges
   brought back after the server had dropped them, the cells in which giving up set a newer server content
   aside, the cells its reviewed commits changed, whether there was such a commit, and the revision of the
   alignment. Besides, the server version the base stands for.
   */
  datatype Client = Client(
    value: Doc,
    base: Doc,
    rev: nat,
    dirty: bool,
    attempts: nat,
    phase: Phase,
    edited: iset<Cell>,
    revived: iset<Cell>,
    overruled: iset<Cell>,
    reviewed: iset<Cell>,
    behind: bool,
    baseRev: nat,
    since: nat)
  {
    ghost function Blame(): iset<Cell> { edited + revived + overruled + reviewed }
  }

  ghost function Changed(a: Doc, b: Doc): iset<Cell> {
    iset c: Cell | At(a, c) != At(b, c)
  }

  /** Adopting a server version: it becomes both base and value, and nothing is pending. */
  ghost function Adopt(view: Doc, at: nat): Client {
    Client(view, view, at, false, 0, Idle, iset{}, iset{}, iset{}, iset{}, false, at, at)
  }

  ghost function EditClient(cl: Client, next: Doc): Client {
    cl.(value := next, dirty := true, edited := cl.edited + Changed(cl.value, next))
  }

  ghost function BeginSave(cl: Client): Client {
    if cl.value == cl.base then cl.(dirty := false)
    else cl.(phase := InFlight(cl.value, cl.Blame()))
  }

  /**
   A PUT was accepted. `sameObject` tells whether the live value is still the object that was sent;
   then the client is clean, otherwise a dirty client sends again without moving its base.
   */
  ghost function Confirm(cl: Client, sameObject: bool): Client
    requires cl.phase.Acked?
  {
    var dirty := cl.dirty && !sameObject;
    var next := cl.(rev := cl.phase.newRev, dirty := dirty);
    if dirty then next.(phase := InFlight(cl.value, cl.Blame()))
    else next.(phase := Idle, attempts := 0, base := cl.value, baseRev := cl.phase.newRev,
               edited := iset{}, revived := iset{}, overruled := iset{}, reviewed := iset{}, behind := false,
               since := cl.phase.newRev)
  }

  /** Rows nobody touched here that the base had and the server no longer has. */
  ghost function BroughtBack(cl: Client, view: Doc): iset<Cell> {
    iset c: Cell | c.RowCell? && c !in cl.Blame() && At(cl.base, c).Some? && At(view, c).None?
  }

  /** A PUT was refused: three-way merge against the current version, which becomes the base. */
  ghost function Rebase(cl: Client, view: Doc, at: nat): Client {
    cl.(value := MergeDocs(cl.base, view, cl.value), base := view, rev := at, attempts := cl.attempts + 1,
        phase := Idle, revived := cl.revived + BroughtBack(cl, view), baseRev := at)
  }

  /** Cells nobody touched here in which the server has moved on from the base. */
  ghost function SetAside(cl: Client, view: Doc): iset<Cell> {
    iset c: Cell | c !in cl.Blame() && At(view, c) != At(cl.base, c)
  }

  /** The sixth refusal in a row: base and revision move, the unmerged value stays. */
  ghost function GiveUp(cl: Client, view: Doc, at: nat): Client {
    cl.(base := view, rev := at, attempts := cl.attempts + 1, phase := Idle,
        overruled := cl.overruled + SetAside(cl, view), baseRev := at)
  }

  ghost function AfterRefusal(cl: Client, view: Doc, at: nat): Client {
    if cl.attempts + 1 <= 5 then Rebase(cl, view, at) else GiveUp(cl, view, at)
  }

  /** A quiet poll is looked at only by a client that is clean, not saving, and older. */
  ghost predicate TakesPoll(cl: Client, at: nat) {
    !cl.dirty && cl.phase.Idle? && cl.rev < at
  }

  /**
   A quiet poll came back. A value that differs from the base is merged, and the result counts as the base
   although it is no server version.
   */
  ghost function PollClient(cl: Client, view: Doc, at: nat): Client {
    if !TakesPoll(cl, at) then cl
    else if cl.value != cl.base then
      var merged := MergeDocs(cl.base, view, cl.value);
      cl.(value := merged, base := merged, rev := at, attempts := 0,
          revived := cl.revived + BroughtBack(cl, view), baseRev := at)
    else Adopt(view, at)
  }

  /** A reviewed commit was stored: it replaces value and revision and leaves the base where it is. */
  ghost function Reviewed(cl: Client, committed: Doc, at: nat): Client {
    cl.(value := committed, rev := at, reviewed := cl.reviewed + Changed(cl.value, committed), behind := true)
  }

  /** The client as the source keeps it: an object whose methods assign its refs. `state` follows with the history. */
  class WorkspaceClient {
    var value: Doc
    var base: Doc
    var rev: nat
    var dirty: bool
    var attempts: nat
    var saving: bool
    var sent: Doc
    ghost var state: Client

    /** The refs are what the abstract state says. */
    ghost predicate Valid()
      reads this
    {
      && state.value == value && state.base == base && state.rev == rev
      && state.dirty == dirty && state.attempts == attempts
      && (saving <==> !state.phase.Idle?)
      && (state.phase.InFlight? ==> state.phase.sent == sent)
      && (state.phase.Acked? ==> state.phase.sent == sent)
    }

    constructor (view: Doc, at: nat)
      ensures Valid() && state == Adopt(view, at)
    {
      value, base, rev, dirty, attempts, saving, sent := view, view, at, false, 0, false, view;
      state := Adopt(view, at);
    }

    method UpdateValue(next: Doc)
      requires Valid()
      modifies this
      ensures Valid() && state == EditClient(old(state), next)
    {
      value := next;
      dirty := true;
      state := EditClient(state, next);
    }

    method StartSave()
      requires Valid() && state.phase.Idle?
      modifies this
      ensures Valid() && state == BeginSave(old(state))
    {
      state := BeginSave(state);
      if value == base {
        dirty := false;
        return;
      }
      saving := true;
      sent := value;
    }

    method OnAccepted(newRev: nat, sameObject: bool)
      requires Valid() && state.phase == Acked(sent, newRev)
      modifies this
      ensures Valid() && state == Confirm(old(state), sameObject)
    {
      state := Confirm(state, sameObject);
      rev := newRev;
      if sameObject {
        dirty := false;
      }
      if dirty {
        sent := value;
      } else {
        attempts := 0;
        base := value;
        saving := false;
      }
    }

    method OnRefused(view: Doc, current: nat)
      requires Valid() && state.phase.Refused?
      modifies this
      ensures Valid() && state == AfterRefusal(old(state), view, current)
    {
      var merged := MergeWorkspace3Way(base, view, value);
      state := AfterRefusal(state, view, current);
      rev := current;
      base := view;
      attempts := attempts + 1;
      if attempts <= 5 {
        value := merged;
      }
      saving := false;
    }

    method OnPoll(view: Doc, at: nat)
      requires Valid()
      modifies this
      ensures Valid() && state == PollClient(old(state), view, at)
    {
      if dirty || saving || at <= rev {
        return;
      }
      state := PollClient(state, view, at);
      var next := view;
      if value != base {
        next := MergeWorkspace3Way(base, view, value);
      }
      rev, base, value, attempts := at, next, next, 0;
    }

    /** The server took a reviewed document. */
    method OnReviewed(committed: Doc, newRev: nat)
      requires Valid() && state.phase.Idle? && !dirty
      modifies this
      ensures Valid() && state == Reviewed(old(state), committed, newRev)
    {
      state := Reviewed(state, committed, newRev);
      rev := newRev;
      value := committed;
    }

    /** Five seconds after giving up: the count starts again. */
    method OnResume()
      requires Valid()
      modifies this
      ensures Valid() && state == old(state).(attempts := 0)
    {
      attempts := 0;
      state := state.(attempts := 0);
    }
  }

  // ---------------------------------------------------------------- the system

  /** A PUT: who sends what on which revision, the cells it answers for, and the revision of the last alignment. */
  datatype Request = Request(author: int, doc: Doc, rev: nat, blame: iset<Cell>, since: nat)

  /** A stored version and the PUT that brought it; the first one was there before. */
  datatype Version = Version(doc: Doc, put: Option<Request>)

  /** `defaults` is the initial document every server state is laid over, `arrays` its array fields. */
  datatype Server = Server(defaults: Doc, arrays: set<string>, history: seq<Version>) {
    ghost function View(r: nat): Doc
      requires r < |history|
    {
      defaults + history[r].doc
    }
  }

  datatype System = System(server: Server, clients: map<int, Client>, stray: seq<Request>) {
    ghost function View(r: nat): Doc
      requires r < |server.history|
    {
      server.View(r)
    }

    ghost function Put(id: int, cl: Client): System {
      this.(clients := clients[id := cl])
    }
  }

  datatype Step =
    | Load(id: int, r: nat)
    | Edit(id: int, next: Doc)
    | Save(id: int)
    | Deliver(id: int)
    | Accepted(id: int, sameObject: bool)
    | Conflict(id: int)
    | Fail(id: int)
    | Poll(id: int, r: nat)
    | Review(id: int, doc: Doc, answered: bool)
    | Resume(id: int)
    | LateDelivery(i: nat)

  ghost predicate WellFormed(v: Server, d: Doc) {
    v.defaults.Keys <= d.Keys && WellKinded(v.arrays, d)
  }

  /**
   When a step can happen. A PUT a client has stopped waiting for may still be delivered late, and so may a
   reviewed commit that was not answered.
   */
  ghost predicate Enabled(s: System, step: Step) {
    var n := |s.server.history|;
    match step
    case Load(id, r) => id !in s.clients && r < n
    case Edit(id, next) => id in s.clients && WellFormed(s.server, next)
    case Save(id) => id in s.clients && s.clients[id].phase.Idle?
    case Deliver(id) => id in s.clients && s.clients[id].phase.InFlight? && n > 0
    case Accepted(id, same) =>
      id in s.clients && s.clients[id].phase.Acked? && (same ==> s.clients[id].value == s.clients[id].phase.sent)
    case Conflict(id) =>
      id in s.clients && s.clients[id].phase.Refused? && s.clients[id].phase.current < n
    case Fail(id) => id in s.clients && !s.clients[id].phase.Idle?
    case Poll(id, r) => id in s.clients && r < n
    case Review(id, doc, _) =>
      id in s.clients && s.clients[id].phase.Idle? && !s.clients[id].dirty && WellFormed(s.server, doc)
    case Resume(id) => id in s.clients
    case LateDelivery(i) => i < |s.stray|
  }

  /** Compare-and-set on the revision. */
  ghost function Store(v: Server, req: Request): Server {
    if req.rev + 1 == |v.history| then v.(history := v.history + [Version(req.doc, Some(req))]) else v
  }

  ghost function Answer(v: Server, cl: Client): Phase
    requires cl.phase.InFlight? && |v.history| > 0
  {
    if cl.rev + 1 == |v.history| then Acked(cl.phase.sent, |v.history|) else Refused(|v.history| - 1)
  }

  ghost function SentBy(id: int, cl: Client): Request
    requires cl.phase.InFlight?
  {
    Request(id, cl.phase.sent, cl.rev, cl.phase.blame, cl.since)
  }

  /** The commit of a reviewed document answers for all the client does and for what the review changed. */
  ghost function ReviewedBy(id: int, cl: Client, doc: Doc): Request {
    Request(id, doc, cl.rev, cl.Blame() + Changed(cl.value, doc), cl.since)
  }

  ghost function ApplyReview(s: System, id: int, doc: Doc, answered: bool): System
    requires id in s.clients
  {
    var cl := s.clients[id];
    var req := ReviewedBy(id, cl, doc);
    if !answered then s.(stray := s.stray + [req])
    else if cl.rev + 1 == |s.server.history| then
      s.(server := Store(s.server, req)).Put(id, Reviewed(cl, doc, |s.server.history|))
    else s
  }

  ghost function Apply(s: System, step: Step): System
    requires Enabled(s, step)
  {
    match step
    case Load(id, r) => s.Put(id, Adopt(s.View(r), r))
    case Edit(id, next) => s.Put(id, EditClient(s.clients[id], next))
    case Save(id) => s.Put(id, BeginSave(s.clients[id]))
    case Deliver(id) =>
      var cl := s.clients[id];
      s.(server := Store(s.server, SentBy(id, cl))).Put(id, cl.(phase := Answer(s.server, cl)))
    case Accepted(id, same) => s.Put(id, Confirm(s.clients[id], same))
    case Conflict(id) =>
      var cl := s.clients[id];
      s.Put(id, AfterRefusal(cl, s.View(cl.phase.current), cl.phase.current))
    case Fail(id) =>
      var cl := s.clients[id];
      var stray := if cl.phase.InFlight? then s.stray + [SentBy(id, cl)] else s.stray;
      s.(stray := stray).Put(id, cl.(phase := Idle))
    case Poll(id, r) => s.Put(id, PollClient(s.clients[id], s.View(r), r))
    case Review(id, doc, answered) => ApplyReview(s, id, doc, answered)
    case Resume(id) => s.Put(id, s.clients[id].(attempts := 0))
    case LateDelivery(i) => s.(server := Store(s.server, s.stray[i]))
  }

  ghost predicate Initial(s: System) {
    && |s.server.history| == 1 && s.server.history[0].put.None?
    && s.clients == map[]
    && s.stray == []
    && WellKinded(s.server.arrays, s.server.defaults)
    && WellKinded(s.server.arrays, s.server.history[0].doc)
  }

  /** A run: the states visited and the steps between them. */
  ghost predicate IsRun(run: seq<System>, steps: seq<Step>) {
    && |run| == |steps| + 1
    && Initial(run[0])
    && forall i | 0 <= i < |steps| :: Enabled(run[i], steps[i]) && run[i + 1] == Apply(run[i], steps[i])
  }

  // ---------------------------------------------------------------- the invariant

  /** Outside `blame` the two documents hold the same. */
  ghost predicate AgreeOutside(blame: iset<Cell>, a: Doc, b: Doc) {
    forall c: Cell :: c !in blame ==> At(a, c) == At(b, c)
  }

  ghost predicate RequestInv(v: Server, req: Request) {
    req.since <= req.rev < |v.history| && WellFormed(v, req.doc) && AgreeOutside(req.blame, req.doc, v.View(req.rev))
  }

  /** Version i differs from the one before only in cells its author answers for. */
  ghost predicate VersionInv(v: Server, i: nat)
    requires 0 < i < |v.history|
  {
    match v.history[i].put
    case None => false
    case Some(req) =>
      && req.doc == v.history[i].doc && req.rev == i - 1
      && AgreeOutside(req.blame, v.View(i), v.View(i - 1))
  }

  ghost predicate ServerInv(v: Server) {
    && |v.history| > 0
    && WellKinded(v.arrays, v.defaults)
    && (forall i | 0 <= i < |v.history| :: WellKinded(v.arrays, v.history[i].doc))
    && (forall i | 0 < i < |v.history| :: VersionInv(v, i))
  }

  /** Between two revisions the server held the row and then no longer did. */
  ghost predicate DroppedIn(v: Server, from: nat, to: nat, c: Cell) {
    exists i, j | from <= i < j <= to && j < |v.history| :: At(v.View(i), c).Some? && At(v.View(j), c).None?
  }

  ghost predicate PhaseInv(v: Server, cl: Client) {
    match cl.phase
    case Idle => true
    case InFlight(sent, blame) =>
      RequestInv(v, SentBy(0, cl)) && blame <= cl.Blame() && AgreeOutside(blame, sent, cl.base)
      && (!cl.dirty ==> cl.value == sent)
    case Acked(sent, newRev) =>
      cl.rev < newRev < |v.history| && v.history[newRev].doc == sent && WellFormed(v, sent)
      && AgreeOutside(cl.Blame(), sent, cl.base) && (!cl.dirty ==> cl.value == sent)
    case Refused(current) => cl.rev < current < |v.history|
  }

  ghost predicate ClientInv(v: Server, cl: Client) {
    && cl.since <= cl.baseRev <= cl.rev < |v.history|
    && WellFormed(v, cl.value) && WellFormed(v, cl.base)
    && (!cl.behind ==> cl.base == v.View(cl.baseRev))
    && (!cl.behind && !cl.dirty ==> cl.value == cl.base && cl.phase.Idle?)
    && AgreeOutside(cl.Blame(), cl.base, v.View(cl.baseRev))
    && AgreeOutside(cl.Blame(), cl.value, cl.base)
    && AgreeOutside(cl.Blame(), v.View(cl.rev), cl.base)
    && (forall c | c in cl.revived :: DroppedIn(v, cl.since, cl.rev, c))
    && PhaseInv(v, cl)
  }

  ghost predicate Inv(s: System) {
    && ServerInv(s.server)
    && (forall id | id in s.clients :: ClientInv(s.server, s.clients[id]))
    && (forall i | 0 <= i < |s.stray| :: RequestInv(s.server, s.stray[i]))
  }

  /** The same server, with at least as much history. */
  ghost predicate Extends(v: Server, w: Server) {
    v.defaults == w.defaults && v.arrays == w.arrays && v.history <= w.history
  }

  lemma ViewStable(v: Server, w: Server, r: nat)
    requires Extends(v, w) && r < |v.history|
    ensures v.View(r) == w.View(r)
  {
  }

  lemma DroppedStable(v: Server, w: Server, from: nat, to: nat, to': nat, c: Cell)
    requires Extends(v, w) && to <= to' && DroppedIn(v, from, to, c)
    ensures DroppedIn(w, from, to', c)
  {
    var i, j :| from <= i < j <= to && j < |v.history| && At(v.View(i), c).Some? && At(v.View(j), c).None?;
    ViewStable(v, w, i);
    ViewStable(v, w, j);
  }

  lemma ClientStable(v: Server, w: Server, cl: Client)
    requires Extends(v, w) && ClientInv(v, cl)
    ensures ClientInv(w, cl)
  {
    ViewStable(v, w, cl.baseRev);
    ViewStable(v, w, cl.rev);
    forall c | c in cl.revived ensures DroppedIn(w, cl.since, cl.rev, c) {
      DroppedStable(v, w, cl.since, cl.rev, cl.rev, c);
    }
  }

  /** Storing a well-behaved request keeps every version accounted for. */
  lemma StoreKeeps(v: Server, req: Request)
    requires ServerInv(v) && RequestInv(v, req)
    ensures ServerInv(Store(v, req)) && Extends(v, Store(v, req))
  {
    var w := Store(v, req);
    if w != v {
      var last := |v.history|;
      assert w.View(last) == req.doc;
      ViewStable(v, w, req.rev);
      forall i | 0 < i < |w.history| ensures VersionInv(w, i) {
        if i < last {
          assert VersionInv(v, i);
          ViewStable(v, w, i);
          ViewStable(v, w, i - 1);
          assert w.history[i] == v.history[i];
        }
      }
    }
  }

  lemma SystemStore(s: System, req: Request)
    requires Inv(s) && RequestInv(s.server, req)
    ensures Inv(s.(server := Store(s.server, req))) && Extends(s.server, Store(s.server, req))
  {
    var v, w := s.server, Store(s.server, req);
    StoreKeeps(v, req);
    forall id | id in s.clients ensures ClientInv(w, s.clients[id]) { ClientStable(v, w, s.clients[id]); }
    forall i | 0 <= i < |s.stray| ensures RequestInv(w, s.stray[i]) { ViewStable(v, w, s.stray[i].rev); }
  }

  lemma AdoptKeeps(v: Server, r: nat)
    requires ServerInv(v) && r < |v.history|
    ensures ClientInv(v, Adopt(v.View(r), r))
  {
  }

  lemma ConfirmKeeps(v: Server, cl: Client, same: bool)
    requires ServerInv(v) && ClientInv(v, cl) && cl.phase.Acked? && (same ==> cl.value == cl.phase.sent)
    ensures ClientInv(v, Confirm(cl, same))
  {
    assert v.View(cl.phase.newRev) == cl.phase.sent;
    forall c | c in cl.revived ensures DroppedIn(v, cl.since, cl.phase.newRev, c) {
      DroppedStable(v, v, cl.since, cl.rev, cl.phase.newRev, c);
    }
  }

  lemma MergeWellFormed(v: Server, base: Doc, server: Doc, local: Doc)
    requires WellFormed(v, base) && WellFormed(v, server) && WellFormed(v, local)
    ensures WellFormed(v, MergeDocs(base, server, local))
  {
    MergeAtCell(v.arrays, base, server, local, ScalarCell(""));
    forall f | f in v.defaults ensures f in MergeDocs(base, server, local) {
      assert MergedField(base, server, local, f).Some?;
    }
  }

  /** After a rebase the merged value departs from the new base only where this client answers for it. */
  lemma RebaseAgrees(arrays: set<string>, cl: Client, view: Doc, at: nat)
    requires WellKinded(arrays, cl.base) && WellKinded(arrays, view) && WellKinded(arrays, cl.value)
    requires AgreeOutside(cl.Blame(), cl.value, cl.base)
    ensures var next := Rebase(cl, view, at); AgreeOutside(next.Blame(), next.value, next.base)
  {
    var next := Rebase(cl, view, at);
    forall c: Cell | c !in next.Blame() ensures At(next.value, c) == At(next.base, c) {
      MergeAtCell(arrays, cl.base, view, cl.value, c);
    }
  }

  lemma RebaseKeeps(v: Server, cl: Client)
    requires ServerInv(v) && ClientInv(v, cl) && cl.phase.Refused?
    ensures ClientInv(v, Rebase(cl, v.View(cl.phase.current), cl.phase.current))
  {
    var at := cl.phase.current;
    var next := Rebase(cl, v.View(at), at);
    RebaseAgrees(v.arrays, cl, v.View(at), at);
    MergeWellFormed(v, cl.base, v.View(at), cl.value);
    forall c | c in next.revived ensures DroppedIn(v, next.since, at, c) {
      if c in cl.revived {
        DroppedStable(v, v, cl.since, cl.rev, at, c);
      } else {
        assert At(v.View(cl.baseRev), c).Some? && At(v.View(at), c).None?;
      }
    }
  }

  lemma GiveUpKeeps(v: Server, cl: Client)
    requires ServerInv(v) && ClientInv(v, cl) && cl.phase.Refused?
    ensures ClientInv(v, GiveUp(cl, v.View(cl.phase.current), cl.phase.current))
  {
    var at := cl.phase.current;
    forall c | c in cl.revived ensures DroppedIn(v, cl.since, at, c) {
      DroppedStable(v, v, cl.since, cl.rev, at, c);
    }
  }

  lemma AnswerKeeps(v: Server, id: int, cl: Client)
    requires ServerInv(v) && ClientInv(v, cl) && cl.phase.InFlight?
    ensures ClientInv(Store(v, SentBy(id, cl)), cl.(phase := Answer(v, cl)))
  {
    StoreKeeps(v, SentBy(id, cl));
    ClientStable(v, Store(v, SentBy(id, cl)), cl);
  }

  lemma PutKeeps(s: System, id: int, cl: Client)
    requires Inv(s) && ClientInv(s.server, cl)
    ensures Inv(s.Put(id, cl)) && Extends(s.server, s.Put(id, cl).server)
  {
  }

  /** What a client makes of an edit, the start of a save, or the end of a pause. */
  lemma LocalKeeps(v: Server, cl: Client, next: Doc)
    requires ServerInv(v) && ClientInv(v, cl)
    ensures WellFormed(v, next) ==> ClientInv(v, EditClient(cl, next))
    ensures cl.phase.Idle? ==> ClientInv(v, BeginSave(cl))
    ensures ClientInv(v, cl.(attempts := 0)) && ClientInv(v, cl.(phase := Idle))
  {
  }

  lemma RefusalKeeps(v: Server, cl: Client)
    requires ServerInv(v) && ClientInv(v, cl) && cl.phase.Refused?
    ensures ClientInv(v, AfterRefusal(cl, v.View(cl.phase.current), cl.phase.current))
  {
    if cl.attempts + 1 <= 5 { RebaseKeeps(v, cl); } else { GiveUpKeeps(v, cl); }
  }

  lemma PollMergeKeeps(v: Server, cl: Client, r: nat)
    requires ServerInv(v) && ClientInv(v, cl) && r < |v.history| && TakesPoll(cl, r) && cl.value != cl.base
    ensures ClientInv(v, PollClient(cl, v.View(r), r))
  {
    var next := PollClient(cl, v.View(r), r);
    RebaseAgrees(v.arrays, cl, v.View(r), r);
    MergeWellFormed(v, cl.base, v.View(r), cl.value);
    assert next.Blame() == Rebase(cl, v.View(r), r).Blame();
    forall c | c in next.revived ensures DroppedIn(v, next.since, r, c) {
      if c in cl.revived {
        DroppedStable(v, v, cl.since, cl.rev, r, c);
      } else {
        assert At(v.View(cl.baseRev), c).Some? && At(v.View(r), c).None?;
      }
    }
  }

  lemma PollKeeps(v: Server, cl: Client, r: nat)
    requires ServerInv(v) && ClientInv(v, cl) && r < |v.history|
    ensures ClientInv(v, PollClient(cl, v.View(r), r))
  {
    if TakesPoll(cl, r) && cl.value != cl.base {
      PollMergeKeeps(v, cl, r);
    } else {
      AdoptKeeps(v, r);
    }
  }

  lemma ReviewedKeeps(v: Server, id: int, cl: Client, doc: Doc)
    requires ServerInv(v) && ClientInv(v, cl) && cl.phase.Idle? && WellFormed(v, doc)
    ensures RequestInv(v, ReviewedBy(id, cl, doc))
    ensures cl.rev + 1 == |v.history| ==>
              ClientInv(Store(v, ReviewedBy(id, cl, doc)), Reviewed(cl, doc, |v.history|))
  {
    var req, next := ReviewedBy(id, cl, doc), Reviewed(cl, doc, |v.history|);
    var w := Store(v, req);
    assert next.Blame() == req.blame;
    if cl.rev + 1 == |v.history| {
      assert w.View(|v.history|) == doc;
      ViewStable(v, w, cl.baseRev);
      forall c | c in next.revived ensures DroppedIn(w, next.since, next.rev, c) {
        DroppedStable(v, w, cl.since, cl.rev, next.rev, c);
      }
    }
  }

  lemma ReviewKeeps(s: System, id: int, doc: Doc, answered: bool)
    requires Inv(s) && Enabled(s, Review(id, doc, answered))
    ensures Inv(ApplyReview(s, id, doc, answered)) && Extends(s.server, ApplyReview(s, id, doc, answered).server)
  {
    var cl := s.clients[id];
    var req := ReviewedBy(id, cl, doc);
    ReviewedKeeps(s.server, id, cl, doc);
    if answered && cl.rev + 1 == |s.server.history| {
      SystemStore(s, req);
      PutKeeps(s.(server := Store(s.server, req)), id, Reviewed(cl, doc, |s.server.history|));
    }
  }

  lemma DeliverKeeps(s: System, id: int)
    requires Inv(s) && Enabled(s, Deliver(id))
    ensures Inv(Apply(s, Deliver(id))) && Extends(s.server, Apply(s, Deliver(id)).server)
  {
    var cl := s.clients[id];
    SystemStore(s, SentBy(id, cl));
    AnswerKeeps(s.server, id, cl);
    PutKeeps(s.(server := Store(s.server, SentBy(id, cl))), id, cl.(phase := Answer(s.server, cl)));
  }

  lemma FailKeeps(s: System, id: int)
    requires Inv(s) && Enabled(s, Fail(id))
    ensures Inv(Apply(s, Fail(id)))
  {
    var cl := s.clients[id];
    LocalKeeps(s.server, cl, cl.value);
    var stray := if cl.phase.InFlight? then s.stray + [SentBy(id, cl)] else s.stray;
    PutKeeps(s.(stray := stray), id, cl.(phase := Idle));
  }

  /** Every step of the system keeps the invariant and only ever appends versions. */
  lemma StepKeepsInv(s: System, step: Step)
    requires Inv(s) && Enabled(s, step)
    ensures Inv(Apply(s, step)) && Extends(s.server, Apply(s, step).server)
  {
    match step
    case Load(id, r) =>
      AdoptKeeps(s.server, r);
      PutKeeps(s, id, Adopt(s.View(r), r));
    case Edit(id, next) =>
      LocalKeeps(s.server, s.clients[id], next);
      PutKeeps(s, id, EditClient(s.clients[id], next));
    case Save(id) =>
      LocalKeeps(s.server, s.clients[id], s.clients[id].value);
      PutKeeps(s, id, BeginSave(s.clients[id]));
    case Deliver(id) => DeliverKeeps(s, id);
    case Accepted(id, same) =>
      ConfirmKeeps(s.server, s.clients[id], same);
      PutKeeps(s, id, Confirm(s.clients[id], same));
    case Conflict(id) =>
      var cl := s.clients[id];
      RefusalKeeps(s.server, cl);
      PutKeeps(s, id, AfterRefusal(cl, s.View(cl.phase.current), cl.phase.current));
    case Fail(id) => FailKeeps(s, id);
    case Poll(id, r) =>
      PollKeeps(s.server, s.clients[id], r);
      PutKeeps(s, id, PollClient(s.clients[id], s.View(r), r));
    case Review(id, doc, answered) => ReviewKeeps(s, id, doc, answered);
    case Resume(id) =>
      LocalKeeps(s.server, s.clients[id], s.clients[id].value);
      PutKeeps(s, id, s.clients[id].(attempts := 0));
    case LateDelivery(i) => SystemStore(s, s.stray[i]);
  }

  lemma {:induction false} RunKeepsInv(run: seq<System>, steps: seq<Step>, n: nat)
    requires IsRun(run, steps) && n < |run|
    ensures Inv(run[n])
  {
    if n > 0 {
      RunKeepsInv(run, steps, n - 1);
      StepKeepsInv(run[n - 1], steps[n - 1]);
    }
  }
}
