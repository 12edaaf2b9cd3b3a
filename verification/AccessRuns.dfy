/**
 Every interleaving of the sections that hold the access store's mutex (portal_server/main.go:3533-4015,
 4126-4202), with any number of trial grants half done.
 */
module AccessRuns {
  import opened Common
  import opened AccessStore
  import Traces

  // ---------------------------------------------------------------- what the table promises

  predicate IdsDistinct(items: seq<Access>) {
    forall i, j | 0 <= i < j < |items| :: items[i].id != items[j].id
  }

  predicate LoginsDiffer(x: Access, y: Access) {
    x.username != "" && y.username != "" && x.project == y.project ==> Fold(x.username) != Fold(y.username)
  }

  predicate LoginsDistinct(items: seq<Access>) {
    forall i, j | 0 <= i < j < |items| :: LoginsDiffer(items[i], items[j])
  }

  predicate Sound(x: Access) {
    x.id > 0 && (x.project.Textile? ==> x.companyId > 0)
  }

  /** Ids are positive and distinct, logins are distinct within a project, textile records have a company. */
  predicate Inv(items: seq<Access>) {
    IdsDistinct(items) && LoginsDistinct(items) && forall i | 0 <= i < |items| :: Sound(items[i])
  }

  // ---------------------------------------------------------------- single changes

  lemma ReplaceKeepsInv(items: seq<Access>, k: nat, record: Access)
    requires Inv(items) && k < |items| && record.id == items[k].id && Sound(record)
    requires !Taken(items, record.project, record.username, record.id)
    ensures Inv(items[k := record])
  {
    var after := items[k := record];
    forall i, j | 0 <= i < j < |after| ensures LoginsDiffer(after[i], after[j]) {
      if i != k && j != k {
        assert LoginsDiffer(items[i], items[j]);
      } else {
        var other := if i == k then j else i;
        assert items[other].id != record.id;
        assert record.username != "" ==> !Clashes(items[other], record.project, record.username);
      }
    }
  }

  /** A record's own login is taken by nobody else. */
  lemma OwnLoginIsFree(items: seq<Access>, k: nat)
    requires Inv(items) && k < |items|
    ensures !Taken(items, items[k].project, items[k].username, items[k].id)
  {
    forall i | 0 <= i < |items| && items[i].id != items[k].id && items[k].username != ""
      ensures !Clashes(items[i], items[k].project, items[k].username)
    {
      assert if i < k then LoginsDiffer(items[i], items[k]) else LoginsDiffer(items[k], items[i]);
      assert |Fold(items[i].username)| == |items[i].username|;
    }
  }

  lemma AppendKeepsInv(items: seq<Access>, record: Access)
    requires Inv(items) && record.id == MaxId(items) + 1 && Sound(record)
    requires !Taken(items, record.project, record.username, 0)
    ensures Inv(items + [record])
  {
    forall i | 0 <= i < |items| ensures LoginsDiffer(items[i], record) {
      assert Sound(items[i]);
      assert record.username != "" ==> !Clashes(items[i], record.project, record.username);
    }
  }

  /** The role a textile record gets: managers and accountants stay, owners and customers own, all others look on. */
  function RoleKept(role: Role): Role {
    if role.Manager? || role.Accountant? then role
    else if role.Owner? || role.Customer? || role.Unset? then Owner
    else Viewer
  }

  /** Some weaving record of the company already has this tenant. */
  predicate HasTenant(items: seq<Access>, companyId: int, tenant: string) {
    exists x | x in items :: x.project.Textile? && x.companyId == companyId && x.tenant == tenant != ""
  }

  lemma {:induction false} TenantIsOfCompany(items: seq<Access>, companyId: int)
    ensures ExistingTenant(items, companyId) != "" ==> HasTenant(items, companyId, ExistingTenant(items, companyId))
  {
    if items != [] {
      assert items == [items[0]] + items[1..];
      TenantIsOfCompany(items[1..], companyId);
    }
  }

  lemma {:induction false} FreeNameIsOffered(
      items: seq<Access>, project: Project, names: seq<string>, last: string, id: int)
    ensures var name := FreeName(items, project, names, last, id); name in names || name == last
  {
    if names != [] {
      FreeNameIsOffered(items, project, names[1..], last, id);
    }
  }

  /**
   A successful create appends one active record with the next id and what was asked for. Unless its
   setup is still open it has a password of eight characters; a textile record whose setup is done has
   the company the provisioning service answered with.
   */
  lemma CreateAppends(items: seq<Access>, form: Form, now: int, out: Outcome)
    requires Create(items, form, now, out).Ok?
    ensures var change := Create(items, form, now, out).value;
            var r := change.record;
            && change.items == items + [r] && r.id == MaxId(items) + 1
            && r.active && r.created == now && r.token == out.token
            && r.project == form.project && r.company == form.company && r.contact == form.contact
            && r.expires == form.expires && r.trialEnds == form.trialEnds && r.notes == form.notes
            && r.requiresSetup == (form.project.Textile? && form.requiresSetup)
            && (if r.requiresSetup then r.username == "" && r.password == "" else |r.password| >= 8)
            && (!r.requiresSetup && form.username != "" ==> r.username == form.username)
            && (!r.requiresSetup && form.password != "" ==> r.password == form.password)
            && (form.project.Textile? && !r.requiresSetup ==> out.company == Ok(r.companyId))
            && r.orgRef == form.orgRef && !r.mustChange
            && (if form.project.Textile? then r.modules == form.modules && r.role == RoleKept(form.role)
                else r.modules == Modules(false, false, false) && r.role == Customer)
            && (!r.requiresSetup && form.username == "" ==>
                  r.username in out.names || r.username == out.lastName)
            && (!r.requiresSetup && form.password == "" ==> r.password == out.newPassword)
            && (r.modules.weaving && form.project.Textile? ==>
                  out.tenant == Ok(r.tenant) || HasTenant(items, r.companyId, r.tenant))
  {
    FreeNameIsOffered(items, form.project, out.names, out.lastName, 0);
    TenantIsOfCompany(items, Create(items, form, now, out).value.record.companyId);
  }

  /**
   A successful update changes one record, keeps its id, token, creation and active flag, keeps its
   password unless a new one is given or its setup is reopened, and leaves it a usable login otherwise.
   */
  lemma UpdateReplaces(items: seq<Access>, id: int, form: Form, now: int, out: Outcome)
    requires Update(items, id, form, now, out).Ok?
    ensures var change, k := Update(items, id, form, now, out).value, At(items, id);
            k < |items| &&
            var before, r := items[k], change.record;
            && change.items == items[k := r]
            && r.id == id && r.token == before.token && r.created == before.created && r.active == before.active
            && r.orgRef == before.orgRef && r.project == form.project && r.company == form.company
            && r.contact == form.contact && r.companyId == form.companyId
            && r.expires == form.expires && r.notes == form.notes
            && r.requiresSetup == (form.project.Textile? && form.requiresSetup)
            && (if r.requiresSetup then r.username == "" && r.password == ""
                else r.password == if form.password != "" then form.password else before.password)
            && (!r.requiresSetup && form.username != "" ==> r.username == form.username)
            && (before.tenant != "" ==> r.tenant == before.tenant)
            && !r.mustChange
            && r.trialEnds == (if !form.project.Textile? then 0
                               else if form.trialEnds == 0 then before.trialEnds else form.trialEnds)
            && (if form.project.Textile? then r.modules == form.modules && r.role == RoleKept(form.role)
                else r.modules == Modules(false, false, false) && r.role == Customer)
            && (!r.requiresSetup && form.username == "" ==>
                  r.username in out.names || r.username == out.lastName)
  {
    FreeNameIsOffered(items, form.project, out.names, out.lastName, id);
  }

  lemma CreateKeepsInv(items: seq<Access>, form: Form, now: int, out: Outcome)
    requires Inv(items) && Create(items, form, now, out).Ok?
    ensures Inv(Create(items, form, now, out).value.items)
  {
    AppendKeepsInv(items, Create(items, form, now, out).value.record);
  }

  lemma UpdateKeepsInv(items: seq<Access>, id: int, form: Form, now: int, out: Outcome)
    requires Inv(items) && Update(items, id, form, now, out).Ok?
    ensures Inv(Update(items, id, form, now, out).value.items)
  {
    assert Sound(items[At(items, id)]);
    ReplaceKeepsInv(items, At(items, id), Update(items, id, form, now, out).value.record);
  }

  /** Any change of one record that keeps its id, project, login and company. */
  lemma EditKeepsInv(items: seq<Access>, k: nat, record: Access)
    requires Inv(items) && k < |items|
    requires record.id == items[k].id && record.project == items[k].project
    requires record.username == items[k].username && record.companyId == items[k].companyId
    ensures Inv(items[k := record])
  {
    assert Sound(items[k]);
    OwnLoginIsFree(items, k);
    ReplaceKeepsInv(items, k, record);
  }

  lemma FinalizeKeepsInv(items: seq<Access>, token: string, contact: string, username: string, password: string)
    requires Inv(items) && FinalizeSetup(items, token, contact, username, password).Ok?
    ensures Inv(FinalizeSetup(items, token, contact, username, password).value.items)
  {
    var k := WithToken(items, token);
    assert Sound(items[k]);
    ReplaceKeepsInv(items, k, FinalizeSetup(items, token, contact, username, password).value.record);
  }

  lemma {:induction false} WithoutMeans(items: seq<Access>, id: int, x: Access)
    ensures x in Without(items, id) <==> x in items && x.id != id
  {
    if items != [] {
      var n := |items| - 1;
      assert items == items[..n] + [items[n]];
      WithoutMeans(items[..n], id, x);
    }
  }

  lemma {:induction false} WithoutKeepsInv(items: seq<Access>, id: int)
    requires Inv(items)
    ensures Inv(Without(items, id))
  {
    if items != [] {
      var n := |items| - 1;
      var kept, last := Without(items[..n], id), items[n];
      WithoutKeepsInv(items[..n], id);
      if last.id != id {
        forall i | 0 <= i < |kept| ensures kept[i].id != last.id && LoginsDiffer(kept[i], last) {
          WithoutMeans(items[..n], id, kept[i]);
          var j :| 0 <= j < n && items[..n][j] == kept[i];
          assert items[j] == kept[i];
        }
        assert Sound(last);
      }
    }
  }

  // ---------------------------------------------------------------- the system

  datatype World = World(items: seq<Access>, grants: seq<Grant>)

  /** One mutex-held section. */
  datatype Step =
    | DoCreate(form: Form, now: int, out: Outcome)
    | DoUpdate(id: int, form: Form, now: int, out: Outcome)
    | DoMustChange(id: int, must: bool)
    | DoFinalize(token: string, contact: string, username: string, password: string)
    | DoDelete(id: int, synced: bool)
    | DoRotate(id: int, token: string)
    | DoToggle(id: int, synced: bool)
    | DoRead(id: int, days: int, line: string, now: int)
    | DoEntitle(grant: nat)
    | DoRenew(grant: nat, now: int, out: Outcome)

  function Commit(w: World, r: Result<Change>): World {
    if r.Ok? then w.(items := r.value.items) else w
  }

  predicate Enabled(w: World, step: Step) {
    match step
    case DoEntitle(g) => g < |w.grants| && w.grants[g].Read?
    case DoRenew(g, _, _) => g < |w.grants| && w.grants[g].Entitled?
    case _ => true
  }

  /** The second section hands the record it has just written on to the third. */
  function AfterEntitle(g: Grant, r: Result<Change>): Grant
    requires g.Read?
  {
    if r.Ok? then Entitled(r.value.record, g.trialEnds, g.expires, g.notes) else Finished
  }

  function Next(w: World, step: Step): World
    requires Enabled(w, step)
  {
    match step
    case DoCreate(form, now, out) => Commit(w, Create(w.items, form, now, out))
    case DoUpdate(id, form, now, out) => Commit(w, Update(w.items, id, form, now, out))
    case DoMustChange(id, must) => Commit(w, SetMustChange(w.items, id, must))
    case DoFinalize(token, contact, username, password) =>
      Commit(w, FinalizeSetup(w.items, token, contact, username, password))
    case DoDelete(id, synced) =>
      var r := Delete(w.items, id, synced);
      if r.Ok? then w.(items := r.value) else w
    case DoRotate(id, token) => Commit(w, RotateToken(w.items, id, token))
    case DoToggle(id, synced) => Commit(w, Toggle(w.items, id, synced))
    case DoRead(id, days, line, now) =>
      var r := ReadForGrant(w.items, id, days, line, now);
      if r.Ok? then w.(grants := w.grants + [r.value]) else w
    case DoEntitle(k) =>
      var g := w.grants[k];
      var r := Entitle(w.items, g);
      Commit(w, r).(grants := w.grants[k := AfterEntitle(g, r)])
    case DoRenew(k, now, out) =>
      var g := w.grants[k];
      Commit(w, Update(w.items, g.target.id, RenewForm(g), now, out)).(grants := w.grants[k := Finished])
  }

  lemma StepKeepsInv(w: World, step: Step)
    requires Inv(w.items) && Enabled(w, step)
    ensures Inv(Next(w, step).items)
  {
    match step
    case DoCreate(form, now, out) =>
      if Create(w.items, form, now, out).Ok? { CreateKeepsInv(w.items, form, now, out); }
    case DoUpdate(id, form, now, out) =>
      if Update(w.items, id, form, now, out).Ok? { UpdateKeepsInv(w.items, id, form, now, out); }
    case DoMustChange(id, must) =>
      if SetMustChange(w.items, id, must).Ok? {
        EditKeepsInv(w.items, At(w.items, id), SetMustChange(w.items, id, must).value.record);
      }
    case DoFinalize(token, contact, username, password) =>
      if FinalizeSetup(w.items, token, contact, username, password).Ok? {
        FinalizeKeepsInv(w.items, token, contact, username, password);
      }
    case DoDelete(id, synced) => WithoutKeepsInv(w.items, id);
    case DoRotate(id, token) =>
      if RotateToken(w.items, id, token).Ok? {
        EditKeepsInv(w.items, At(w.items, id), RotateToken(w.items, id, token).value.record);
      }
    case DoToggle(id, synced) =>
      if Toggle(w.items, id, synced).Ok? {
        EditKeepsInv(w.items, At(w.items, id), Toggle(w.items, id, synced).value.record);
      }
    case DoRead(_, _, _, _) =>
    case DoEntitle(k) =>
      var r := Entitle(w.items, w.grants[k]);
      if r.Ok? { EditKeepsInv(w.items, At(w.items, w.grants[k].target.id), r.value.record); }
    case DoRenew(k, now, out) =>
      var g := w.grants[k];
      if Update(w.items, g.target.id, RenewForm(g), now, out).Ok? {
        UpdateKeepsInv(w.items, g.target.id, RenewForm(g), now, out);
      }
  }

  predicate IsRun(worlds: seq<World>, steps: seq<Step>) {
    |worlds| == |steps| + 1
    && forall i | 0 <= i < |steps| :: Enabled(worlds[i], steps[i]) && worlds[i + 1] == Next(worlds[i], steps[i])
  }

  /** In every interleaving of the sections, the table keeps its promises after each of them. */
  lemma {:induction false} RunKeepsInv(worlds: seq<World>, steps: seq<Step>, n: nat)
    requires IsRun(worlds, steps) && n <= |steps| && Inv(worlds[0].items)
    ensures Inv(worlds[n].items)
  {
    if n > 0 {
      RunKeepsInv(worlds, steps, n - 1);
      StepKeepsInv(worlds[n - 1], steps[n - 1]);
    }
  }

  // ---------------------------------------------------------------- nobody else's record moves

  /** The id of the record a section works on, or 0. */
  function Target(w: World, step: Step): int
    requires Enabled(w, step)
  {
    match step
    case DoUpdate(id, _, _, _) => id
    case DoMustChange(id, _) => id
    case DoFinalize(token, _, _, _) => var k := WithToken(w.items, token); if k < |w.items| then w.items[k].id else 0
    case DoDelete(id, _) => id
    case DoRotate(id, _) => id
    case DoToggle(id, _) => id
    case DoEntitle(k) => w.grants[k].target.id
    case DoRenew(k, _, _) => w.grants[k].target.id
    case _ => 0
  }

  lemma ReplacedOthersStay(items: seq<Access>, k: nat, record: Access, x: Access)
    requires IdsDistinct(items) && k < |items| && record.id == items[k].id && x.id != items[k].id
    ensures x in items[k := record] <==> x in items
  {
    var after := items[k := record];
    if x in items {
      var i :| 0 <= i < |items| && items[i] == x;
      assert after[i] == x;
    }
    if x in after {
      var i :| 0 <= i < |after| && after[i] == x;
      assert items[i] == x;
    }
  }

  lemma ChangeOthersStay(items: seq<Access>, k: nat, r: Result<Change>, x: Access)
    requires IdsDistinct(items)
    requires r.Ok? ==> k < |items| && r.value.items == items[k := r.value.record]
                       && r.value.record.id == items[k].id && x.id != items[k].id
    ensures r.Ok? ==> (x in r.value.items <==> x in items)
  {
    if r.Ok? { ReplacedOthersStay(items, k, r.value.record, x); }
  }

  lemma UpdateOthersStay(items: seq<Access>, id: int, form: Form, now: int, out: Outcome, x: Access)
    requires IdsDistinct(items) && x.id != id
    ensures var r := Update(items, id, form, now, out);
            r.Ok? ==> (x in r.value.items <==> x in items)
  {
    ChangeOthersStay(items, At(items, id), Update(items, id, form, now, out), x);
  }

  lemma CreateOthersStay(items: seq<Access>, form: Form, now: int, out: Outcome, x: Access)
    requires x.id != MaxId(items) + 1
    ensures var r := Create(items, form, now, out);
            r.Ok? ==> (x in r.value.items <==> x in items)
  {
    var r := Create(items, form, now, out);
    if r.Ok? { assert r.value.items == items + [r.value.record]; }
  }

  /** A section changes, adds or removes no record but its target and, for a create, the new one. */
  lemma OthersStay(w: World, step: Step, x: Access)
    requires Inv(w.items) && Enabled(w, step) && x.id != Target(w, step)
    requires step.DoCreate? ==> x.id != MaxId(w.items) + 1
    ensures x in Next(w, step).items <==> x in w.items
  {
    var items := w.items;
    match step
    case DoCreate(form, now, out) =>
      CreateOthersStay(items, form, now, out, x);
    case DoDelete(id, synced) => WithoutMeans(items, id, x);
    case DoRead(_, _, _, _) =>
    case DoFinalize(token, contact, username, password) =>
      ChangeOthersStay(items, WithToken(items, token), FinalizeSetup(items, token, contact, username, password), x);
    case DoUpdate(id, form, now, out) => UpdateOthersStay(items, id, form, now, out, x);
    case DoRenew(k, now, out) => UpdateOthersStay(items, w.grants[k].target.id, RenewForm(w.grants[k]), now, out, x);
    case DoMustChange(id, must) => ChangeOthersStay(items, At(items, id), SetMustChange(items, id, must), x);
    case DoRotate(id, token) => ChangeOthersStay(items, At(items, id), RotateToken(items, id, token), x);
    case DoToggle(id, synced) => ChangeOthersStay(items, At(items, id), Toggle(items, id, synced), x);
    case DoEntitle(k) => ChangeOthersStay(items, At(items, w.grants[k].target.id), Entitle(items, w.grants[k]), x);
  }

  // ---------------------------------------------------------------- what a stale grant undoes

  function Rank(g: Grant): nat { if g.Read? then 0 else if g.Entitled? then 1 else 2 }

  /** From one world to the next the grant moves on to a later section or stays what it is. */
  predicate Onward(w: World, next: World, k: nat) {
    k < |w.grants| ==>
      && k < |next.grants| && Rank(w.grants[k]) <= Rank(next.grants[k])
      && (Rank(w.grants[k]) == Rank(next.grants[k]) ==> w.grants[k] == next.grants[k])
  }

  lemma GrantMoves(w: World, step: Step, k: nat)
    requires Enabled(w, step)
    ensures Onward(w, Next(w, step), k)
  {
  }

  lemma {:induction false} OnwardChain(worlds: seq<World>, m: nat, n: nat, k: nat)
    requires m <= n < |worlds| && forall j | m <= j < n :: Onward(worlds[j], worlds[j + 1], k)
    ensures Onward(worlds[m], worlds[n], k)
  {
    if m < n {
      OnwardChain(worlds, m, n - 1, k);
      assert Onward(worlds[n - 1], worlds[n - 1 + 1], k);
    }
  }

  /** A grant is what it was for as long as it is in the same section. */
  lemma GrantStays(worlds: seq<World>, steps: seq<Step>, m: nat, n: nat, k: nat)
    requires IsRun(worlds, steps) && m <= n <= |steps|
    ensures Onward(worlds[m], worlds[n], k)
  {
    forall j | m <= j < n ensures Onward(worlds[j], worlds[j + 1], k) {
      GrantMoves(worlds[j], steps[j], k);
    }
    OnwardChain(worlds, m, n, k);
  }

  /** The order markers on the record with this id; none when there is no such record. */
  function Markers(w: World, id: int): set<string> {
    var i := At(w.items, id);
    if i < |w.items| then w.items[i].notes.orders else {}
  }

  predicate Marked(w: World, id: int, o: string) { o in Markers(w, id) }

  /** Some section from i on and before n put the marker on the record. */
  predicate AddedIn(worlds: seq<World>, i: nat, n: nat, id: int, o: string)
    requires i <= n < |worlds|
  {
    exists m | i <= m < n :: !Marked(worlds[m], id, o) && Marked(worlds[m + 1], id, o)
  }

  /** Step i started the grant with number k. */
  predicate Starts(worlds: seq<World>, steps: seq<Step>, i: nat, k: nat)
    requires |worlds| == |steps| + 1 && i < |steps|
  {
    steps[i].DoRead? && k == |worlds[i].grants| < |worlds[i + 1].grants|
  }

  lemma ReadGrant(w: World, step: Step)
    requires step.DoRead? && |Next(w, step).grants| > |w.grants|
    ensures var g := Next(w, step).grants[|w.grants|];
            g.Read? && g.target.id == step.id && g.notes.orders == Markers(w, step.id) && Next(w, step).items == w.items
  {
  }

  lemma EntitledRecord(w: World, k: nat)
    requires Enabled(w, DoEntitle(k)) && At(w.items, w.grants[k].target.id) < |w.items|
    ensures Markers(Next(w, DoEntitle(k)), w.grants[k].target.id) == w.grants[k].notes.orders
  {
    var items, id := w.items, w.grants[k].target.id;
    var after := Next(w, DoEntitle(k)).items;
    var i := At(items, id);
    assert after[i].id == id && forall j | 0 <= j < i :: after[j].id != id;
  }

  /**
   From the section that reads a record for a grant to the one that writes it: the record leaves with the
   markers it had at the read. So all markers it then has survive exactly when every one that a section in
   between added had been there at the read; and if no section in between took a marker off, exactly when
   none added one.
   */
  lemma EntitleKeepsMarkersIff(worlds: seq<World>, steps: seq<Step>, i: nat, n: nat, k: nat)
    requires IsRun(worlds, steps) && i < n < |steps| && Starts(worlds, steps, i, k) && steps[n] == DoEntitle(k)
    requires At(worlds[n].items, steps[i].id) < |worlds[n].items|
    ensures Markers(worlds[n + 1], steps[i].id) == Markers(worlds[i], steps[i].id)
    ensures Markers(worlds[n], steps[i].id) <= Markers(worlds[n + 1], steps[i].id)
       <==> forall o | o in Markers(worlds[n], steps[i].id) && AddedIn(worlds, i, n, steps[i].id, o) ::
              o in Markers(worlds[i], steps[i].id)
    ensures (forall m | i <= m < n :: Markers(worlds[m], steps[i].id) <= Markers(worlds[m + 1], steps[i].id)) ==>
              (Markers(worlds[n], steps[i].id) <= Markers(worlds[n + 1], steps[i].id)
               <==> forall m | i <= m < n :: Markers(worlds[m + 1], steps[i].id) <= Markers(worlds[m], steps[i].id))
  {
    var id := steps[i].id;
    ReadGrant(worlds[i], steps[i]);
    GrantStays(worlds, steps, i + 1, n, k);
    EntitledRecord(worlds[n], k);
    forall o | o in Markers(worlds[n], id) && o !in Markers(worlds[i], id) ensures AddedIn(worlds, i, n, id, o) {
      MarkerWasAdded(worlds, i, n, id, o);
    }
    if forall m | i <= m < n :: Markers(worlds[m], id) <= Markers(worlds[m + 1], id) {
      MarkersGrow(worlds, i, n, id);
      if forall m | i <= m < n :: Markers(worlds[m + 1], id) <= Markers(worlds[m], id) {
        MarkersShrink(worlds, i, n, id);
      }
    }
  }

  lemma MarkerWasAdded(worlds: seq<World>, i: nat, n: nat, id: int, o: string)
    requires i <= n < |worlds| && Marked(worlds[n], id, o) && !Marked(worlds[i], id, o)
    ensures AddedIn(worlds, i, n, id, o)
  {
    ghost var holds := (m: nat) => m < |worlds| && Marked(worlds[m], id, o);
    var m := Traces.BeganIn(holds, i, n);
    assert !Marked(worlds[m], id, o) && Marked(worlds[m + 1], id, o);
  }

  /** Where markers only come, each world has those of all before it, and those of the last if it has no more. */
  lemma {:induction false} MarkersGrow(worlds: seq<World>, i: nat, n: nat, id: int)
    requires i <= n < |worlds| && forall m | i <= m < n :: Markers(worlds[m], id) <= Markers(worlds[m + 1], id)
    ensures forall m | i <= m <= n :: Markers(worlds[i], id) <= Markers(worlds[m], id) <= Markers(worlds[n], id)
  {
    if i < n {
      MarkersGrow(worlds, i, n - 1, id);
    }
  }

  lemma {:induction false} MarkersShrink(worlds: seq<World>, i: nat, n: nat, id: int)
    requires i <= n < |worlds| && forall m | i <= m < n :: Markers(worlds[m + 1], id) <= Markers(worlds[m], id)
    ensures Markers(worlds[n], id) <= Markers(worlds[i], id)
  {
    if i < n {
      MarkersShrink(worlds, i, n - 1, id);
    }
  }

  /** The third section succeeds. */
  predicate Renews(w: World, step: Step) {
    && step.DoRenew? && Enabled(w, step)
    && var g := w.grants[step.grant];
       Update(w.items, g.target.id, RenewForm(g), step.now, step.out).Ok?
  }

  function LoginOf(w: World, id: int): string {
    var i := At(w.items, id);
    if i < |w.items| then w.items[i].username else ""
  }

  lemma RenewedLogin(w: World, step: Step)
    requires Renews(w, step)
    ensures var g := w.grants[step.grant];
            LoginOf(Next(w, step), g.target.id)
              == if g.target.username != "" then g.target.username
                 else FreeName(w.items, g.target.project, step.out.names, step.out.lastName, g.target.id)
  {
    var g := w.grants[step.grant];
    var items, id := w.items, g.target.id;
    var after := Next(w, step).items;
    var i := At(items, id);
    UpdateReplaces(items, id, RenewForm(g), step.now, step.out);
    assert after[i].id == id && forall j | 0 <= j < i :: after[j].id != id;
    assert At(after, id) == i;
  }

  lemma EntitledTarget(w: World, k: nat)
    requires Enabled(w, DoEntitle(k)) && Next(w, DoEntitle(k)).grants[k].Entitled?
    ensures var g, after := Next(w, DoEntitle(k)).grants[k], Next(w, DoEntitle(k));
            g.target.id == w.grants[k].target.id && g.target.username == LoginOf(after, g.target.id)
  {
    var items, id := w.items, w.grants[k].target.id;
    var after := Next(w, DoEntitle(k)).items;
    var i := At(items, id);
    assert after[i].id == id && forall j | 0 <= j < i :: after[j].id != id;
    assert At(after, id) == i;
  }

  /**
   From the second section of a grant to a successful third one: the record keeps the login it has exactly
   when that is the login it had after the second section, or it had none then and the one generated now is it.
   */
  lemma GrantKeepsLoginIff(worlds: seq<World>, steps: seq<Step>, e: nat, n: nat, k: nat)
    requires IsRun(worlds, steps) && e < n < |steps| && steps[e] == DoEntitle(k)
    requires steps[n].DoRenew? && steps[n].grant == k && Renews(worlds[n], steps[n])
    requires k < |worlds[e + 1].grants| && worlds[e + 1].grants[k].Entitled?
    ensures var id, out := worlds[e + 1].grants[k].target.id, steps[n].out;
            var granted, current := LoginOf(worlds[e + 1], id), LoginOf(worlds[n], id);
            LoginOf(worlds[n + 1], id) == current
            <==> current == if granted != "" then granted
                            else FreeName(worlds[n].items, worlds[e + 1].grants[k].target.project,
                                          out.names, out.lastName, id)
  {
    EntitledTarget(worlds[e], k);
    GrantStays(worlds, steps, e + 1, n, k);
    RenewedLogin(worlds[n], steps[n]);
  }

  // An owner whose setup is open, and what a grant makes of the record when the setup ends in between.
  const NOW := 1000
  const ENDS := NOW + 30 * DAY
  const SERVED := Outcome(Ok(7), Ok("t1"), true, ["mill-a1"], "mill-9", "Portal@x", "k2")

  function NewOwner(): Access {
    Access(1, Textile, "mill", "", "", 7, "", Owner, true, false, Modules(true, false, false), "", 0, 5000,
           "k1", "", Notes("", {}), true, 10)
  }

  function TrialOwner(): Access {
    NewOwner().(trialEnds := ENDS, expires := ENDS, notes := Notes("" + "\n" + "trial", {}))
  }

  function Open(): World { World([NewOwner()], []) }

  function Started(): World { World([NewOwner()], [Read(NewOwner(), ENDS, ENDS, TrialOwner().notes)]) }

  function Halfway(): World { World([TrialOwner()], [Entitled(TrialOwner(), ENDS, ENDS, TrialOwner().notes)]) }

  function SetUp(): World {
    var owner := TrialOwner().(contact := "Ali", username := "ali", password := "password", requiresSetup := false);
    Halfway().(items := [owner])
  }

  lemma GrantStarts()
    ensures Next(Open(), DoRead(1, 30, "trial", NOW)) == Started()
    ensures Enabled(Started(), DoEntitle(0)) && Next(Started(), DoEntitle(0)) == Halfway()
  {
    assert At([NewOwner()], 1) == 0;
    assert [NewOwner()][0 := TrialOwner()] == [TrialOwner()];
  }

  lemma SetupEnds()
    ensures Next(Halfway(), DoFinalize("k1", "Ali", "ali", "password")) == SetUp()
  {
    var items, done := Halfway().items, SetUp().items[0];
    assert WithToken(items, "k1") == 0 && |"password"| == 8 && |"ali"| == 3 && |"Ali"| == 3;
    assert !Taken(items, Textile, "ali", 1);
    assert items[0 := done] == [done];
  }

  lemma RenewGeneratesLogin()
    ensures Enabled(SetUp(), DoRenew(0, NOW, SERVED))
    ensures var after := Next(SetUp(), DoRenew(0, NOW, SERVED)).items;
            |after| == 1 && after[0].username == "mill-a1" && after[0].contact == ""
  {
    var items := SetUp().items;
    var form := RenewForm(SetUp().grants[0]);
    assert At(items, 1) == 0;
    assert SERVED.names[0] == "mill-a1" && !Taken(items, Textile, "mill-a1", 1);
    assert Login(items, Normalized(form), SERVED, 1) == "mill-a1";
  }

  /** An owner who finishes the setup between two sections of a grant loses the login just chosen. */
  lemma StaleGrantLosesLogin()
    ensures var steps := [DoRead(1, 30, "trial", NOW), DoEntitle(0), DoFinalize("k1", "Ali", "ali", "password"),
                          DoRenew(0, NOW, SERVED)];
            exists last: World :: IsRun([Open(), Started(), Halfway(), SetUp(), last], steps)
              && SetUp().items[0].username == "ali" && |last.items| == 1 && last.items[0].username == "mill-a1"
  {
    GrantStarts();
    SetupEnds();
    RenewGeneratesLogin();
    var last := Next(SetUp(), DoRenew(0, NOW, SERVED));
    var steps := [DoRead(1, 30, "trial", NOW), DoEntitle(0), DoFinalize("k1", "Ali", "ali", "password"),
                  DoRenew(0, NOW, SERVED)];
    assert IsRun([Open(), Started(), Halfway(), SetUp(), last], steps);
  }
}
