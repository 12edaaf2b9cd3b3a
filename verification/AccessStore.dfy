/**
 The portal's table of accesses (portal_server/main.go:385-406, 3262-3340, 3533-4015, 4126-4202,
 4773-4791). Every operation reads the file, changes the list and writes it back while it holds the
 mutex, so each is one atomic change of `items`; granting a trial takes the mutex three times.

 Texts are taken as already trimmed, times are whole numbers with 0 for an unset one, and the outcomes
 of calls to other services, generated names and tokens are given.
 */
module AccessStore {
  import opened Common

  datatype Project = Textile | Cooler | UnknownProject(key: string)

  datatype Role = Unset | Owner | Customer | Manager | Accountant | Viewer | UnknownRole(name: string)

  datatype Modules = Modules(financial: bool, operational: bool, weaving: bool)

  /** A note with the orders whose marker it contains. */
  datatype Notes = Notes(text: string, orders: set<string>)

  datatype Access = Access(
    id: int, project: Project, company: string, contact: string, username: string, companyId: int,
    orgRef: string, role: Role, requiresSetup: bool, mustChange: bool, modules: Modules, tenant: string,
    trialEnds: int, expires: int, token: string, password: string, notes: Notes, active: bool, created: int)

  /** What the caller of a create or an update asks for. */
  datatype Form = Form(
    project: Project, company: string, contact: string, username: string, password: string, companyId: int,
    orgRef: string, role: Role, requiresSetup: bool, modules: Modules, trialEnds: int, expires: int, notes: Notes)

  /** What the world outside answers during one operation. */
  datatype Outcome = Outcome(
    company: Result<nat>, tenant: Result<string>, synced: bool,
    names: seq<string>, lastName: string, newPassword: string, token: string)

  datatype Change = Change(items: seq<Access>, record: Access)

  // ---------------------------------------------------------------- looking things up

  function Lower(c: char): char {
    if 'A' <= c <= 'Z' then (c as int + 32) as char else c
  }

  function Fold(text: string): (r: string)
    ensures |r| == |text|
  {
    seq(|text|, i requires 0 <= i < |text| => Lower(text[i]))
  }

  predicate Clashes(item: Access, project: Project, username: string) {
    item.project == project && Fold(item.username) == Fold(username)
  }

  predicate Taken(items: seq<Access>, project: Project, username: string, exclude: int) {
    username != "" && exists i | 0 <= i < |items| :: items[i].id != exclude && Clashes(items[i], project, username)
  }

  method UsernameTaken(items: seq<Access>, project: Project, username: string, exclude: int) returns (taken: bool)
    ensures taken == Taken(items, project, username, exclude)
  {
    if username == "" { return false; }
    for i := 0 to |items|
      invariant forall j | 0 <= j < i :: items[j].id == exclude || !Clashes(items[j], project, username)
    {
      if items[i].id == exclude { continue; }
      if project.Textile? {
        if !items[i].project.Textile? { continue; }
      } else if items[i].project != project {
        continue;
      }
      if Fold(items[i].username) == Fold(username) { return true; }
    }
    return false;
  }

  function MaxId(items: seq<Access>): (m: int)
    ensures m >= 0
    ensures forall i | 0 <= i < |items| :: items[i].id <= m
    ensures m == 0 || exists i | 0 <= i < |items| :: items[i].id == m
  {
    if items == [] then 0
    else
      var n := |items| - 1;
      var m := MaxId(items[..n]);
      assert forall i | 0 <= i < n :: items[..n][i] == items[i];
      if items[n].id > m then items[n].id else m
  }

  method NextAccessId(items: seq<Access>) returns (id: int)
    ensures id == MaxId(items) + 1
  {
    var maxId := 0;
    for i := 0 to |items|
      invariant maxId == MaxId(items[..i])
    {
      assert items[..i + 1][..i] == items[..i];
      if items[i].id > maxId { maxId := items[i].id; }
    }
    assert items[..|items|] == items;
    return maxId + 1;
  }

  /** The first position of an id, or the length of the list. */
  function At(items: seq<Access>, id: int): (k: nat)
    ensures k <= |items| && (k < |items| ==> items[k].id == id)
    ensures forall j | 0 <= j < k :: items[j].id != id
  {
    if items == [] then 0 else if items[0].id == id then 0 else
      var k := At(items[1..], id);
      assert forall j | 0 < j < |items| :: items[j] == items[1..][j - 1];
      k + 1
  }

  method IndexOf(items: seq<Access>, id: int) returns (index: int)
    ensures At(items, id) == if index == -1 then |items| else index
    ensures -1 <= index < |items|
  {
    for i := 0 to |items|
      invariant forall j | 0 <= j < i :: items[j].id != id
    {
      if items[i].id == id { return i; }
    }
    return -1;
  }

  /** Records of the organisation: by its external reference if there is one, by company name otherwise. */
  predicate SameOrganisation(item: Access, company: string, orgRef: string) {
    item.project.Textile? && item.companyId > 0
    && if orgRef != "" then item.orgRef == orgRef else Fold(item.company) == Fold(company)
  }

  function ExistingCompany(items: seq<Access>, company: string, orgRef: string): (c: int)
    ensures c >= 0
    ensures forall i | 0 <= i < |items| && SameOrganisation(items[i], company, orgRef) :: items[i].companyId <= c
    ensures c > 0 ==>
              exists i | 0 <= i < |items| :: SameOrganisation(items[i], company, orgRef) && items[i].companyId == c
  {
    if items == [] then 0
    else
      var n := |items| - 1;
      var c := ExistingCompany(items[..n], company, orgRef);
      assert forall i | 0 <= i < n :: items[..n][i] == items[i];
      if SameOrganisation(items[n], company, orgRef) && items[n].companyId > c then items[n].companyId else c
  }

  method ExistingFinancialCompanyId(items: seq<Access>, company: string, orgRef: string) returns (c: int)
    ensures c == ExistingCompany(items, company, orgRef)
  {
    c := 0;
    for i := 0 to |items|
      invariant c == ExistingCompany(items[..i], company, orgRef)
    {
      assert items[..i + 1][..i] == items[..i];
      var item := items[i];
      if !item.project.Textile? || item.companyId <= 0 { continue; }
      if orgRef != "" {
        if item.orgRef == orgRef && item.companyId > c { c := item.companyId; }
        continue;
      }
      if Fold(item.company) == Fold(company) && item.companyId > c { c := item.companyId; }
    }
    assert items[..|items|] == items;
  }

  function ExistingTenant(items: seq<Access>, companyId: int): string {
    if items == [] then ""
    else if items[0].project.Textile? && items[0].companyId == companyId && items[0].tenant != "" then items[0].tenant
    else ExistingTenant(items[1..], companyId)
  }

  /** The first generated name that is free, or the last resort. */
  function FreeName(items: seq<Access>, project: Project, names: seq<string>, lastName: string, exclude: int): string {
    if names == [] then lastName
    else if !Taken(items, project, names[0], exclude) then names[0]
    else FreeName(items, project, names[1..], lastName, exclude)
  }

  // ---------------------------------------------------------------- creating and updating

  function NormalRole(role: Role): Role {
    match role
    case Unset | Owner | Customer => Owner
    case Manager => Manager
    case Accountant => Accountant
    case _ => Viewer
  }

  predicate SomeModule(m: Modules) { m.financial || m.operational || m.weaving }

  /** Only the textile product has roles, a setup step and modules. */
  function Normalized(form: Form): Form {
    if form.project.Textile? then form.(role := NormalRole(form.role))
    else form.(role := Customer, requiresSetup := false, modules := Modules(false, false, false))
  }

  predicate TrialActive(project: Project, trialEnds: int, now: int) {
    project.Textile? && trialEnds != 0 && trialEnds > now
  }

  function CreateRefusal(form: Form, now: int): Option<string> {
    var trial := TrialActive(form.project, form.trialEnds, now);
    if form.project.UnknownProject? then Some("invalid project key")
    else if form.project.Textile? && form.companyId <= 0 && form.requiresSetup then
      Some("financial company id is required")
    else if form.expires < now then Some("expiry must be in the future")
    else if form.project.Textile? && !SomeModule(form.modules) && !trial then Some("no module")
    else if form.project.Textile? && form.requiresSetup && (form.modules.weaving || trial) then
      Some("weaving needs a login")
    else None
  }

  /** The login of a record: none before its setup, a generated name where none is given. */
  function Login(items: seq<Access>, form: Form, out: Outcome, exclude: int): string {
    if form.requiresSetup then ""
    else if form.username == "" then FreeName(items, form.project, out.names, out.lastName, exclude)
    else form.username
  }

  function WithLogin(items: seq<Access>, form: Form, out: Outcome): Form {
    var company :=
      if form.project.Textile? && form.companyId <= 0 then ExistingCompany(items, form.company, form.orgRef)
      else form.companyId;
    var password := if form.requiresSetup then "" else if form.password == "" then out.newPassword else form.password;
    form.(companyId := company, username := Login(items, form, out, 0), password := password)
  }

  function TenantFor(known: string, needed: bool, mayCreate: bool, out: Outcome): Result<string> {
    if !(needed && known == "") then Ok(known)
    else if mayCreate then out.tenant
    else Err("enable weaving for the owner first")
  }

  function NewRecord(id: int, f: Form, companyId: int, tenant: string, token: string, now: int): Access {
    Access(id, f.project, f.company, f.contact, f.username, companyId, f.orgRef, f.role, f.requiresSetup, false,
           f.modules, tenant, f.trialEnds, f.expires, token, f.password, f.notes, true, now)
  }

  /** The rest of a create: a company and a weaving tenant for the record, which then joins the list. */
  function CreateProvisioned(items: seq<Access>, f: Form, now: int, out: Outcome): Result<Change> {
    match if f.project.Textile? && !f.requiresSetup then out.company else Ok(f.companyId)
    case Err(e) => Err(e)
    case Ok(company) =>
      if f.project.Textile? && company <= 0 then Err("financial company id is required")
      else
        var weaving := f.modules.weaving || TrialActive(f.project, f.trialEnds, now);
        match TenantFor(ExistingTenant(items, company), f.project.Textile? && weaving, true, out)
        case Err(e) => Err(e)
        case Ok(tenant) =>
          if weaving && tenant != "" && !out.synced then Err("weaving sync failed")
          else
            var record := NewRecord(MaxId(items) + 1, f, company, tenant, out.token, now);
            Ok(Change(items + [record], record))
  }

  function Create(items: seq<Access>, form: Form, now: int, out: Outcome): Result<Change> {
    var refusal := CreateRefusal(form, now);
    if refusal.Some? then Err(refusal.value)
    else
      var f := WithLogin(items, Normalized(form), out);
      if !f.requiresSetup && |f.password| < 8 then Err("password too short")
      else if Taken(items, f.project, f.username, 0) then Err("username taken")
      else CreateProvisioned(items, f, now, out)
  }

  function UpdateRefusal(form: Form, now: int): Option<string> {
    if form.project.UnknownProject? then Some("invalid project key")
    else if form.project.Textile? && form.companyId <= 0 then Some("financial company id is required")
    else if form.expires < now then Some("expiry must be in the future")
    else None
  }

  /** An unset trial end keeps the stored one, and only textile records have one. */
  function TrialAfter(record: Access, form: Form): int {
    if !form.project.Textile? then 0 else if form.trialEnds == 0 then record.trialEnds else form.trialEnds
  }

  function UpdatedRecord(record: Access, f: Form, trialEnds: int, tenant: string): Access {
    record.(project := f.project, company := f.company, contact := f.contact, username := f.username,
            companyId := f.companyId, role := f.role, requiresSetup := f.requiresSetup, modules := f.modules,
            trialEnds := trialEnds, expires := f.expires, notes := f.notes, mustChange := false, tenant := tenant,
            password := if f.requiresSetup then "" else if f.password != "" then f.password else record.password)
  }

  /** The rest of an update of record k: other services are told, then the record is replaced. */
  function UpdateProvisioned(items: seq<Access>, k: nat, f: Form, trialEnds: int, now: int, out: Outcome)
    : Result<Change>
    requires k < |items|
  {
    var record, trial := items[k], trialEnds != 0 && trialEnds > now;
    if (f.modules.operational || trial) && out.company.Err? then Err(out.company.error)
    else
      var known := if record.tenant != "" then record.tenant else ExistingTenant(items, f.companyId);
      match TenantFor(known, f.modules.weaving || trial, f.role.Owner?, out)
      case Err(e) => Err(e)
      case Ok(tenant) =>
        var before :=
          record.project.Textile? && (record.modules.weaving || TrialActive(Textile, record.trialEnds, now));
        if tenant != "" && (f.modules.weaving || trial || before) && !out.synced then Err("weaving sync failed")
        else
          var updated := UpdatedRecord(record, f, trialEnds, tenant);
          Ok(Change(items[k := updated], updated))
  }

  function UpdateLogin(items: seq<Access>, n: Form, id: int, out: Outcome): Form {
    n.(username := Login(items, n, out, id), password := if n.requiresSetup then "" else n.password)
  }

  function Update(items: seq<Access>, id: int, form: Form, now: int, out: Outcome): Result<Change> {
    var refusal, k := UpdateRefusal(form, now), At(items, id);
    if refusal.Some? then Err(refusal.value)
    else if k == |items| then Err("access not found")
    else
      var trialEnds, n := TrialAfter(items[k], form), Normalized(form);
      var trial := trialEnds != 0 && trialEnds > now;
      if n.project.Textile? && !SomeModule(n.modules) && !trial then Err("no module")
      else if n.project.Textile? && n.requiresSetup && (n.modules.weaving || trial) then Err("weaving needs a login")
      else
        var f := UpdateLogin(items, n, id, out);
        if f.password != "" && |f.password| < 8 then Err("password too short")
        else if Taken(items, f.project, f.username, id) then Err("username taken")
        else UpdateProvisioned(items, k, f, trialEnds, now, out)
  }

  // ---------------------------------------------------------------- small operations

  /** A change of the one record an operation finds. */
  function Edit(items: seq<Access>, k: nat, record: Access): Result<Change>
    requires k < |items|
  {
    Ok(Change(items[k := record], record))
  }

  function SetMustChange(items: seq<Access>, id: int, must: bool): Result<Change> {
    var k := At(items, id);
    if k == |items| then Err("not found") else Edit(items, k, items[k].(mustChange := must && !items[k].requiresSetup))
  }

  function RotateToken(items: seq<Access>, id: int, token: string): Result<Change> {
    var k := At(items, id);
    if k == |items| then Err("not found") else Edit(items, k, items[k].(token := token))
  }

  function Toggle(items: seq<Access>, id: int, synced: bool): Result<Change> {
    var k := At(items, id);
    if k == |items| then Err("not found")
    else if items[k].tenant != "" && !synced then Err("weaving sync failed")
    else Edit(items, k, items[k].(active := !items[k].active))
  }

  function WithToken(items: seq<Access>, token: string): (k: nat)
    ensures k <= |items| && (k < |items| ==> items[k].token == token)
  {
    if items == [] then 0 else if items[0].token == token then 0 else WithToken(items[1..], token) + 1
  }

  function FinalizeSetup(items: seq<Access>, token: string, contact: string, username: string, password: string)
    : Result<Change>
  {
    var k := WithToken(items, token);
    if username == "" || |password| < 8 then Err("username and password are required")
    else if k == |items| then Err("not found")
    else if Taken(items, items[k].project, username, items[k].id) then Err("username taken")
    else
      var r := items[k];
      Edit(items, k, r.(
        contact := if contact != "" then contact else r.contact, username := username, password := password,
        requiresSetup := false, mustChange := false,
        role := if r.project.Textile? && r.role.Unset? then Owner else r.role,
        modules := if r.project.Textile? then r.modules else Modules(false, false, false)))
  }

  function Without(items: seq<Access>, id: int): seq<Access> {
    if items == [] then []
    else
      var n := |items| - 1;
      Without(items[..n], id) + if items[n].id == id then [] else [items[n]]
  }

  predicate Blocked(items: seq<Access>, id: int, synced: bool) {
    !synced && exists i | 0 <= i < |items| :: items[i].id == id && items[i].tenant != ""
  }

  function Delete(items: seq<Access>, id: int, synced: bool): Result<seq<Access>> {
    if Blocked(items, id, synced) then Err("weaving sync failed")
    else if At(items, id) == |items| then Err("not found")
    else Ok(Without(items, id))
  }

  // ---------------------------------------------------------------- granting a trial

  /** A trial being granted: what its first section read, and what its second one wrote. */
  datatype Grant =
    | Read(target: Access, trialEnds: int, expires: int, notes: Notes)
    | Entitled(target: Access, trialEnds: int, expires: int, notes: Notes)
    | Finished

  const DAY := 24 * 60 * 60

  function ReadForGrant(items: seq<Access>, id: int, days: int, line: string, now: int): Result<Grant> {
    var k := At(items, id);
    if days < 1 || days > 90 then Err("days out of range")
    else if k == |items| || items[k].id == 0 || !items[k].project.Textile? then Err("textile access not found")
    else if !NormalRole(items[k].role).Owner? then Err("trial is for the owner")
    else
      var target, ends := items[k], now + days * DAY;
      Ok(Read(target, ends, if target.expires < ends then ends else target.expires,
              target.notes.(text := target.notes.text + "\n" + line)))
  }

  function Entitle(items: seq<Access>, g: Grant): Result<Change>
    requires g.Read?
  {
    var k := At(items, g.target.id);
    if k == |items| then Err("access not found")
    else Edit(items, k, items[k].(trialEnds := g.trialEnds, expires := g.expires, notes := g.notes))
  }

  function RenewForm(g: Grant): Form
    requires g.Entitled?
  {
    var t := g.target;
    Form(t.project, t.company, t.contact, t.username, "", t.companyId, t.orgRef,
         if t.project.Textile? then NormalRole(t.role) else Customer, false, t.modules, g.trialEnds, g.expires, g.notes)
  }

  // ---------------------------------------------------------------- the operations on the file

  /** What an operation answers and leaves behind, given what it computes. */
  predicate Does(before: seq<Access>, after: seq<Access>, r: Result<Access>, c: Result<Change>) {
    match c
    case Err(e) => r == Err(e) && after == before
    case Ok(change) => r == Ok(change.record) && after == change.items
  }

  method FindTenant(items: seq<Access>, companyId: int) returns (tenant: string)
    ensures tenant == ExistingTenant(items, companyId)
  {
    for i := 0 to |items|
      invariant ExistingTenant(items, companyId) == ExistingTenant(items[i..], companyId)
    {
      var item := items[i];
      if item.project.Textile? && item.companyId == companyId && item.tenant != "" { return item.tenant; }
    }
    return "";
  }

  method UniqueGeneratedUsername(items: seq<Access>, project: Project, names: seq<string>, lastName: string,
      exclude: int)
    returns (name: string)
    ensures name == FreeName(items, project, names, lastName, exclude)
  {
    for i := 0 to |names|
      invariant FreeName(items, project, names, lastName, exclude)
          == FreeName(items, project, names[i..], lastName, exclude)
    {
      var taken := UsernameTaken(items, project, names[i], exclude);
      if !taken { return names[i]; }
    }
    return lastName;
  }

  method FillIn(items: seq<Access>, form: Form, out: Outcome) returns (f: Form)
    ensures f == WithLogin(items, form, out)
  {
    f := form;
    if f.project.Textile? && f.companyId <= 0 {
      var company := ExistingFinancialCompanyId(items, f.company, f.orgRef);
      f := f.(companyId := company);
    }
    if f.requiresSetup {
      f := f.(username := "", password := "");
    } else {
      if f.username == "" {
        var name := UniqueGeneratedUsername(items, f.project, out.names, out.lastName, 0);
        f := f.(username := name);
      }
      if f.password == "" { f := f.(password := out.newPassword); }
    }
  }

  method ProvisionForCreate(items: seq<Access>, form: Form, now: int, out: Outcome) returns (r: Result<Change>)
    ensures r == CreateProvisioned(items, form, now, out)
  {
    var f := form;
    var id := NextAccessId(items);
    if f.project.Textile? && !f.requiresSetup {
      if out.company.Err? { return Err(out.company.error); }
      f := f.(companyId := out.company.value);
    }
    if f.project.Textile? && f.companyId <= 0 { return Err("financial company id is required"); }
    var tenant := FindTenant(items, f.companyId);
    var weaving := f.modules.weaving || TrialActive(f.project, f.trialEnds, now);
    if f.project.Textile? && weaving && tenant == "" {
      if out.tenant.Err? { return Err(out.tenant.error); }
      tenant := out.tenant.value;
    }
    if weaving && tenant != "" && !out.synced { return Err("weaving sync failed"); }
    var record := NewRecord(id, f, f.companyId, tenant, out.token, now);
    return Ok(Change(items + [record], record));
  }

  method ProvisionForUpdate(items: seq<Access>, index: nat, f: Form, trialEnds: int, now: int, out: Outcome)
    returns (r: Result<Change>)
    requires index < |items|
    ensures r == UpdateProvisioned(items, index, f, trialEnds, now, out)
  {
    var record, trial := items[index], trialEnds != 0 && trialEnds > now;
    var before := record.project.Textile? && (record.modules.weaving || TrialActive(Textile, record.trialEnds, now));
    if f.modules.operational || trial {
      if out.company.Err? { return Err(out.company.error); }
    }
    var tenant := record.tenant;
    if tenant == "" { tenant := FindTenant(items, f.companyId); }
    if (f.modules.weaving || trial) && tenant == "" {
      if !f.role.Owner? { return Err("enable weaving for the owner first"); }
      if out.tenant.Err? { return Err(out.tenant.error); }
      tenant := out.tenant.value;
    }
    if tenant != "" && (f.modules.weaving || trial || before) && !out.synced { return Err("weaving sync failed"); }
    record := UpdatedRecord(record, f, trialEnds, tenant);
    return Ok(Change(items[index := record], record));
  }

  class Store {
    var items: seq<Access>

    constructor (items: seq<Access>)
      ensures this.items == items
    {
      this.items := items;
    }

    method CreateManaged(form: Form, now: int, out: Outcome) returns (r: Result<Access>)
      modifies this
      ensures Does(old(items), items, r, Create(old(items), form, now, out))
    {
      var refusal := CreateRefusal(form, now);
      if refusal.Some? { return Err(refusal.value); }
      var f := FillIn(items, Normalized(form), out);
      if !f.requiresSetup && |f.password| < 8 { return Err("password too short"); }
      var taken := UsernameTaken(items, f.project, f.username, 0);
      if taken { return Err("username taken"); }
      var provisioned := ProvisionForCreate(items, f, now, out);
      if provisioned.Err? { return Err(provisioned.error); }
      items := provisioned.value.items;
      return Ok(provisioned.value.record);
    }

    method UpdateManaged(id: int, form: Form, now: int, out: Outcome) returns (r: Result<Access>)
      modifies this
      ensures Does(old(items), items, r, Update(old(items), id, form, now, out))
    {
      var refusal := UpdateRefusal(form, now);
      if refusal.Some? { return Err(refusal.value); }
      var f := Normalized(form);
      var index := IndexOf(items, id);
      if index == -1 { return Err("access not found"); }
      var trialEnds := TrialAfter(items[index], form);
      var trial := trialEnds != 0 && trialEnds > now;
      if f.project.Textile? && !SomeModule(f.modules) && !trial { return Err("no module"); }
      if f.project.Textile? && f.requiresSetup && (f.modules.weaving || trial) { return Err("weaving needs a login"); }
      if f.requiresSetup {
        f := f.(username := "", password := "");
      } else if f.username == "" {
        var name := UniqueGeneratedUsername(items, f.project, out.names, out.lastName, id);
        f := f.(username := name);
      }
      if f.password != "" && |f.password| < 8 { return Err("password too short"); }
      var taken := UsernameTaken(items, f.project, f.username, id);
      if taken { return Err("username taken"); }
      var provisioned := ProvisionForUpdate(items, index, f, trialEnds, now, out);
      if provisioned.Err? { return Err(provisioned.error); }
      items := provisioned.value.items;
      return Ok(provisioned.value.record);
    }

    method FinalizeAccessSetup(token: string, contact: string, username: string, password: string)
      returns (r: Result<Access>)
      modifies this
      ensures Does(old(items), items, r, FinalizeSetup(old(items), token, contact, username, password))
    {
      if username == "" || |password| < 8 { return Err("username and password are required"); }
      var index := |items|;
      for i := 0 to |items|
        invariant index == |items| && items == old(items)
        invariant WithToken(items, token) == i + WithToken(items[i..], token)
      {
        if items[i].token == token {
          index := i;
          break;
        }
      }
      if index == |items| { return Err("not found"); }
      var record := items[index];
      var taken := UsernameTaken(items, record.project, username, record.id);
      if taken { return Err("username taken"); }
      if contact != "" { record := record.(contact := contact); }
      record := record.(username := username, password := password, requiresSetup := false, mustChange := false);
      if record.project.Textile? && record.role.Unset? { record := record.(role := Owner); }
      if !record.project.Textile? { record := record.(modules := Modules(false, false, false)); }
      items := items[index := record];
      return Ok(record);
    }

    method DeleteAccess(id: int, synced: bool) returns (r: Result<()>)
      modifies this
      ensures match Delete(old(items), id, synced)
              case Err(e) => r == Err(e) && items == old(items)
              case Ok(kept) => r == Ok(()) && items == kept
    {
      var next, removed := [], false;
      for i := 0 to |items|
        invariant items == old(items)
        invariant next == Without(items[..i], id)
        invariant removed <==> exists j | 0 <= j < i :: items[j].id == id
        invariant !synced ==> forall j | 0 <= j < i && items[j].id == id :: items[j].tenant == ""
      {
        assert items[..i + 1][..i] == items[..i];
        if items[i].id == id {
          if items[i].tenant != "" && !synced { return Err("weaving sync failed"); }
          removed := true;
          continue;
        }
        next := next + [items[i]];
      }
      assert items[..|items|] == items;
      assert removed <==> At(items, id) < |items|;
      if !removed { return Err("not found"); }
      items := next;
      return Ok(());
    }

    method ToggleAccess(id: int, synced: bool) returns (r: Result<Access>)
      modifies this
      ensures Does(old(items), items, r, Toggle(old(items), id, synced))
    {
      var index := IndexOf(items, id);
      if index == -1 { return Err("not found"); }
      if items[index].tenant != "" && !synced { return Err("weaving sync failed"); }
      items := items[index := items[index].(active := !items[index].active)];
      return Ok(items[index]);
    }

    /** The second section of granting a trial. */
    method EntitleTrial(g: Grant) returns (r: Result<Access>)
      requires g.Read?
      modifies this
      ensures Does(old(items), items, r, Entitle(old(items), g))
    {
      var index := IndexOf(items, g.target.id);
      if index == -1 { return Err("access not found"); }
      items := items[index := items[index].(trialEnds := g.trialEnds, expires := g.expires, notes := g.notes)];
      return Ok(items[index]);
    }
  }

  // ---------------------------------------------------------------- listing, newest first

  predicate Newer(x: Access, y: Access) {
    x.created > y.created || (x.created == y.created && x.id > y.id)
  }

  /** The first n records are in order and nothing behind any of them is newer. */
  predicate NewestFirst(s: seq<Access>, n: nat) {
    forall p, q | 0 <= p < q < |s| && p < n :: !Newer(s[q], s[p])
  }

  /** The inner loop: the newest of the records from i on comes to stand at i. */
  method BringNewest(a: array<Access>, i: nat)
    requires i < a.Length && NewestFirst(a[..], i)
    modifies a
    ensures NewestFirst(a[..], i + 1) && multiset(a[..]) == multiset(old(a[..]))
  {
    for j := i + 1 to a.Length
      invariant NewestFirst(a[..], i)
      invariant forall q | i < q < j :: !Newer(a[q], a[i])
      invariant multiset(a[..]) == multiset(old(a[..]))
    {
      if a[j].created > a[i].created || (a[j].created == a[i].created && a[j].id > a[i].id) {
        a[i], a[j] := a[j], a[i];
      }
    }
  }

  /** The exchange sort of the list: nothing stands behind something newer, and nothing is lost. */
  method SortAccesses(a: array<Access>)
    modifies a
    ensures NewestFirst(a[..], a.Length) && multiset(a[..]) == multiset(old(a[..]))
  {
    for i := 0 to a.Length
      invariant NewestFirst(a[..], i) && multiset(a[..]) == multiset(old(a[..]))
    {
      BringNewest(a, i);
    }
  }
}
