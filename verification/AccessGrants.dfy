/**
 What the operations on the access table change, when they go through, and what a granted trial gives
 (portal_server/main.go:3533-4015, 4126-4202).
 */
module AccessGrants {
  import opened Common
  import opened AccessStore
  import opened AccessRuns
  import Sorting

  /** The record of the id stands at k. */
  predicate Stands(items: seq<Access>, id: int, k: nat) {
    k < |items| && items[k].id == id && forall j | 0 <= j < |items| && j != k :: items[j].id != id
  }

  lemma {:induction false} AtIs(items: seq<Access>, id: int)
    ensures At(items, id) == |items| <==> forall j | 0 <= j < |items| :: items[j].id != id
    ensures forall k: nat | Stands(items, id, k) :: At(items, id) == k
  {
    if items != [] {
      AtIs(items[1..], id);
      forall k: nat | Stands(items, id, k) ensures At(items, id) == k {
        if k > 0 {
          assert Stands(items[1..], id, k - 1);
        }
      }
    }
  }

  // ---------------------------------------------------------------- small operations

  /**
   Switching an access on or off flips its flag and nothing else, and doing it again restores the table; only a
   record with a weaving tenant needs the weaving service.
   */
  lemma ToggleMeans(items: seq<Access>, id: int, k: nat, synced: bool)
    requires Stands(items, id, k)
    ensures var r := Toggle(items, id, synced);
            && (r.Ok? <==> items[k].tenant == "" || synced)
            && (r.Ok? ==>
                  && r.value.items == items[k := items[k].(active := !items[k].active)]
                  && Toggle(r.value.items, id, synced).Ok? && Toggle(r.value.items, id, synced).value.items == items)
  {
    AtIs(items, id);
    var r := Toggle(items, id, synced);
    if r.Ok? {
      var after := r.value.items;
      assert Stands(after, id, k);
      AtIs(after, id);
      assert after[k := items[k]] == items;
    }
  }

  /** A password change can be asked for only of a record that has been set up. */
  lemma MustChangeMeans(items: seq<Access>, id: int, k: nat, must: bool)
    requires Stands(items, id, k)
    ensures var r := SetMustChange(items, id, must);
            r.Ok? && exists flag: bool ::
              && r.value.items == items[k := items[k].(mustChange := flag)]
              && (flag <==> must && !items[k].requiresSetup)
  {
    AtIs(items, id);
  }

  lemma RotateMeans(items: seq<Access>, id: int, k: nat, token: string)
    requires Stands(items, id, k)
    ensures var r := items[k].(token := token);
            RotateToken(items, id, token) == Ok(Change(items[k := r], r))
  {
    AtIs(items, id);
  }

  /** An unknown id is refused by all of them. */
  lemma UnknownIdIsRefused(items: seq<Access>, id: int, synced: bool, must: bool, token: string)
    requires forall j | 0 <= j < |items| :: items[j].id != id
    ensures Toggle(items, id, synced).Err? && SetMustChange(items, id, must).Err? && RotateToken(items, id, token).Err?
    ensures Delete(items, id, synced).Err?
  {
    AtIs(items, id);
  }

  lemma {:induction false} WithoutOne(items: seq<Access>, id: int, k: nat)
    requires Stands(items, id, k)
    ensures Without(items, id) == items[..k] + items[k + 1..]
  {
    var n := |items| - 1;
    if k == n {
      WithoutNone(items[..n], id);
    } else {
      assert Stands(items[..n], id, k);
      WithoutOne(items[..n], id, k);
      assert items[..k] + items[k + 1..] == (items[..n][..k] + items[..n][k + 1..]) + [items[n]];
    }
  }

  lemma {:induction false} WithoutNone(items: seq<Access>, id: int)
    requires forall j | 0 <= j < |items| :: items[j].id != id
    ensures Without(items, id) == items
  {
    if items != [] {
      WithoutNone(items[..|items| - 1], id);
      assert items[..|items| - 1] + [items[|items| - 1]] == items;
    }
  }

  /** Deleting takes exactly the record out and keeps the order of the others. */
  lemma DeleteMeans(items: seq<Access>, id: int, k: nat, synced: bool)
    requires Stands(items, id, k)
    ensures if items[k].tenant == "" || synced then Delete(items, id, synced) == Ok(items[..k] + items[k + 1..])
            else Delete(items, id, synced).Err?
  {
    AtIs(items, id);
    WithoutOne(items, id, k);
  }

  lemma {:induction false} TokenIs(items: seq<Access>, token: string, k: nat)
    requires k < |items| && items[k].token == token && forall j | 0 <= j < k :: items[j].token != token
    ensures WithToken(items, token) == k
  {
    if k > 0 {
      TokenIs(items[1..], token, k - 1);
    }
  }

  /** The name is in use by another record of the same project, letters compared without case. */
  predicate NameInUse(items: seq<Access>, record: Access, name: string) {
    exists i | 0 <= i < |items| ::
      items[i].id != record.id && items[i].project == record.project && SameLetters(items[i].username, name)
  }

  predicate SameLetter(a: char, b: char) {
    a == b || ('A' <= a <= 'Z' && b as int == a as int + 32) || ('A' <= b <= 'Z' && a as int == b as int + 32)
  }

  /** Equal up to the case of Latin letters. */
  predicate SameLetters(a: string, b: string) {
    |a| == |b| && forall i | 0 <= i < |a| :: SameLetter(a[i], b[i])
  }

  lemma FoldMeans(a: string, b: string)
    ensures Fold(a) == Fold(b) <==> SameLetters(a, b)
  {
    if Fold(a) == Fold(b) {
      forall i | 0 <= i < |a| ensures SameLetter(a[i], b[i]) { assert Fold(a)[i] == Fold(b)[i]; }
    }
    if SameLetters(a, b) {
      assert Fold(a) == Fold(b) by {
        forall i | 0 <= i < |a| ensures Fold(a)[i] == Fold(b)[i] { assert SameLetter(a[i], b[i]); }
      }
    }
  }

  lemma TakenMeans(items: seq<Access>, record: Access, name: string)
    requires name != ""
    ensures Taken(items, record.project, name, record.id) <==> NameInUse(items, record, name)
  {
    forall i | 0 <= i < |items|
      ensures Fold(items[i].username) == Fold(name) <==> SameLetters(items[i].username, name)
    {
      FoldMeans(items[i].username, name);
    }
  }

  /**
   Ending a setup goes through exactly with a name, a password of eight characters, a known token and a name that is
   free; it gives the first record of the token its login, ends the setup, and makes a textile record without a role
   an owner.
   */
  lemma FinalizeMeans(items: seq<Access>, token: string, contact: string, username: string, password: string, k: nat)
    requires k < |items| && items[k].token == token && forall j | 0 <= j < k :: items[j].token != token
    ensures var r, x := FinalizeSetup(items, token, contact, username, password), items[k];
            && (r.Ok? <==> username != "" && |password| >= 8 && !NameInUse(items, x, username))
            && (r.Ok? ==>
                  var y := r.value.record;
                  && r.value.items == items[k := y]
                  && y.username == username && y.password == password && !y.requiresSetup && !y.mustChange
                  && y.contact == (if contact == "" then x.contact else contact)
                  && y.role == (if x.project.Textile? && x.role.Unset? then Owner else x.role)
                  && y.modules == (if x.project.Textile? then x.modules else Modules(false, false, false))
                  && x == y.(username := x.username, password := x.password, requiresSetup := x.requiresSetup,
                             mustChange := x.mustChange, contact := x.contact, role := x.role, modules := x.modules))
  {
    TokenIs(items, token, k);
    if username != "" {
      TakenMeans(items, items[k], username);
    }
  }

  // ---------------------------------------------------------------- creating and updating

  /** What a request must bring besides a free name; a trial stands in for modules. */
  predicate Asks(form: Form, now: int) {
    && !form.project.UnknownProject? && form.expires >= now
    && (form.project.Textile? ==>
          form.modules.financial || form.modules.operational || form.modules.weaving || form.trialEnds > now > 0)
  }

  /** The name a record gets: the one asked for, or else the first generated one that is free. */
  function NameGiven(items: seq<Access>, form: Form, out: Outcome, id: int): string {
    if form.username == "" then FreeName(items, form.project, out.names, out.lastName, id) else form.username
  }

  /** The weaving service knows the company, or takes it in, and takes the login where it knows it. */
  predicate Weaves(known: string, out: Outcome) {
    if known == "" then out.tenant.Ok? && (out.tenant.value == "" || out.synced) else out.synced
  }

  /**
   A record that is ready for use is created exactly when the request is complete, its password long enough, its name
   free, and for a textile one the provisioning service gives a company and, with weaving or a trial, the weaving
   service does its part. No other answer matters.
   */
  lemma CreateGoesThroughIff(items: seq<Access>, form: Form, now: int, out: Outcome)
    requires (form.project.Textile? ==> !form.requiresSetup) && now > 0
    ensures Create(items, form, now, out).Ok?
       <==> && Asks(form, now) && |if form.password == "" then out.newPassword else form.password| >= 8
            && !Taken(items, form.project, NameGiven(items, form, out, 0), 0)
            && (form.project.Textile? ==>
                  && out.company.Ok? && out.company.value > 0
                  && (form.modules.weaving || form.trialEnds > now ==>
                        Weaves(ExistingTenant(items, out.company.value), out)))
    ensures Create(items, form, now, out).Ok? && !form.project.Textile? ==>
              Create(items, form, now, out).value.record.companyId == form.companyId
  {
  }

  /** What is never created: an expired record, a textile one without modules or trial, one of an unknown project. */
  lemma CreatedWasAsked(items: seq<Access>, form: Form, now: int, out: Outcome)
    requires Inv(items) && Create(items, form, now, out).Ok? && now > 0
    ensures Asks(form, now)
    ensures var r := Create(items, form, now, out).value.record;
            && (r.username != "" ==> !NameInUse(items + [r], r, r.username))
            && (r.requiresSetup ==> !r.modules.weaving && r.companyId > 0)
            && (r.modules.weaving && r.tenant != "" ==> out.synced)
  {
    var r := Create(items, form, now, out).value.record;
    if r.username != "" {
      forall i | 0 <= i < |items| ensures !Clashes(items[i], r.project, r.username) { assert Sound(items[i]); }
      forall i | 0 <= i < |items|
        ensures Fold(items[i].username) == Fold(r.username) <==> SameLetters(items[i].username, r.username)
      {
        FoldMeans(items[i].username, r.username);
      }
    }
  }

  /** A textile record with a company, of the organisation of that reference or, without one, of that name. */
  predicate OfOrganisation(x: Access, company: string, orgRef: string) {
    && x.project.Textile? && x.companyId > 0
    && (if orgRef == "" then SameLetters(x.company, company) else x.orgRef == orgRef)
  }

  /** An organisation keeps its company: the highest one among its records; one of another reference is never taken. */
  lemma CompanyIsReused(items: seq<Access>, company: string, orgRef: string)
    ensures var c := ExistingCompany(items, company, orgRef);
            && (c == 0 <==> forall i | 0 <= i < |items| :: !OfOrganisation(items[i], company, orgRef))
            && (c != 0 ==> exists i | 0 <= i < |items| ::
                  OfOrganisation(items[i], company, orgRef) && items[i].companyId == c)
            && forall i | 0 <= i < |items| && OfOrganisation(items[i], company, orgRef) :: items[i].companyId <= c
  {
    forall i | 0 <= i < |items|
      ensures SameOrganisation(items[i], company, orgRef) <==> OfOrganisation(items[i], company, orgRef)
    {
      FoldMeans(items[i].company, company);
    }
  }

  predicate WeavesFor(x: Access, companyId: int) { x.project.Textile? && x.companyId == companyId && x.tenant != "" }

  /** A company keeps its weaving tenant: the one of its first record that has one, and none only when none has. */
  lemma {:induction false} TenantIsReused(items: seq<Access>, companyId: int)
    ensures ExistingTenant(items, companyId) == "" <==> forall i | 0 <= i < |items| :: !WeavesFor(items[i], companyId)
    ensures forall k: nat | k < |items| && WeavesFor(items[k], companyId)
                            && forall j | 0 <= j < k :: !WeavesFor(items[j], companyId) ::
              ExistingTenant(items, companyId) == items[k].tenant
  {
    if items != [] {
      TenantIsReused(items[1..], companyId);
      if WeavesFor(items[0], companyId) {
        assert ExistingTenant(items, companyId) == items[0].tenant;
      } else {
        assert forall i | 0 <= i < |items| - 1 :: items[1..][i] == items[i + 1];
        forall k: nat | k < |items| && WeavesFor(items[k], companyId)
                        && forall j | 0 <= j < k :: !WeavesFor(items[j], companyId)
          ensures ExistingTenant(items, companyId) == items[k].tenant
        {
          assert items[1..][k - 1] == items[k];
        }
      }
    }
  }

  /** The company the services are asked to provision: the one requested, or the one the organisation has already. */
  lemma AskedCompany(items: seq<Access>, form: Form, out: Outcome)
    ensures var asked := WithLogin(items, form, out).companyId;
            if form.project.Textile? && form.companyId <= 0
            then asked == ExistingCompany(items, form.company, form.orgRef)
            else asked == form.companyId
  {
  }

  /** A textile record whose login is left to its owner is begun exactly when company and modules are known. */
  lemma SetupIsBegunIff(items: seq<Access>, form: Form, now: int, out: Outcome)
    requires form.project.Textile? && form.requiresSetup && now > 0
    ensures Create(items, form, now, out).Ok?
       <==> && Asks(form, now) && form.companyId > 0 && !form.modules.weaving && form.trialEnds <= now
    ensures Create(items, form, now, out).Ok? ==> Create(items, form, now, out).value.record.companyId == form.companyId
  {
  }

  /** The trial end a record has after an update: the one asked for, or else the one it had. */
  function TrialLeft(x: Access, form: Form): int {
    if !form.project.Textile? then 0 else if form.trialEnds == 0 then x.trialEnds else form.trialEnds
  }

  /** The tenant a record keeps or finds in the table. */
  function TenantLeft(items: seq<Access>, x: Access, form: Form): string {
    if x.tenant == "" then ExistingTenant(items, form.companyId) else x.tenant
  }

  /** What an update asks of the other services: operations on or off, a tenant for weaving, its logins kept in step. */
  predicate ServicesAgree(items: seq<Access>, x: Access, form: Form, now: int, out: Outcome) {
    var textile, trial, known := form.project.Textile?, TrialLeft(x, form) > now, TenantLeft(items, x, form);
    var weaves := trial || (textile && form.modules.weaving);
    var wove := x.project.Textile? && (x.modules.weaving || x.trialEnds > now);
    && (trial || (textile && form.modules.operational) ==> out.company.Ok?)
    && (weaves && known == "" ==> NormalRole(form.role).Owner? && Weaves("", out))
    && (known != "" && (weaves || wove) ==> out.synced)
  }

  /**
   A known record is updated exactly when the request is complete, a new password is long enough, the name is free for
   it, a setup is not asked for together with weaving or a trial, and the services agree.
   */
  lemma UpdateGoesThroughIff(items: seq<Access>, id: int, k: nat, form: Form, now: int, out: Outcome)
    requires Stands(items, id, k) && now > 0
    ensures Update(items, id, form, now, out).Ok? <==>
            var setup, trial := form.project.Textile? && form.requiresSetup, TrialLeft(items[k], form) > now;
            && !form.project.UnknownProject? && form.expires >= now
            && (form.project.Textile? ==> form.companyId > 0 && (SomeModule(form.modules) || trial))
            && (if setup then !form.modules.weaving && !trial
                else (form.password == "" || |form.password| >= 8)
                     && !Taken(items, form.project, NameGiven(items, form, out, id), id))
            && ServicesAgree(items, items[k], form, now, out)
  {
    AtIs(items, id);
  }

  /** And never leaves an expired record, a textile one without company, or without modules or trial. */
  lemma UpdatedWasAsked(items: seq<Access>, id: int, form: Form, now: int, out: Outcome)
    requires Update(items, id, form, now, out).Ok? && now > 0
    ensures var r := Update(items, id, form, now, out).value.record;
            && r.expires >= now && !r.project.UnknownProject?
            && (r.project.Textile? ==>
                  && r.companyId > 0
                  && (r.modules.financial || r.modules.operational || r.modules.weaving || r.trialEnds > now))
            && (r.modules.weaving && r.tenant != "" ==> out.synced)
            && (r.modules.operational ==> out.company.Ok?)
  {
  }

  /** The weaving tenant of an updated record: the one it had or its company has, or else one made for an owner. */
  lemma UpdatedTenant(items: seq<Access>, id: int, k: nat, form: Form, now: int, out: Outcome)
    requires Stands(items, id, k) && Update(items, id, form, now, out).Ok? && now > 0
    ensures var r, known := Update(items, id, form, now, out).value.record, TenantLeft(items, items[k], form);
            var weaves := TrialLeft(items[k], form) > now || (form.project.Textile? && form.modules.weaving);
            if known == "" && weaves then out.tenant == Ok(r.tenant) && NormalRole(form.role).Owner?
            else r.tenant == known
  {
    AtIs(items, id);
  }

  // ---------------------------------------------------------------- a granted trial

  /** A record that may be granted a trial: an owner of the textile product. */
  predicate MayTry(x: Access) {
    x.project.Textile? && x.id != 0 && (x.role.Owner? || x.role.Customer? || x.role.Unset?)
  }

  /**
   Granting is begun exactly for an owner and for one to ninety days. The trial ends so many days from now, the paid
   time is kept where it is longer and otherwise lasts as long, and no marker is dropped.
   */
  lemma GrantRead(items: seq<Access>, id: int, k: nat, days: int, line: string, now: int)
    requires Stands(items, id, k)
    ensures var r, x := ReadForGrant(items, id, days, line, now), items[k];
            && (r.Ok? <==> 1 <= days <= 90 && MayTry(x))
            && (r.Ok? ==>
                  && r.value.Read? && r.value.target == x && r.value.trialEnds == now + days * 86400
                  && r.value.expires == (if x.expires > now + days * 86400 then x.expires else now + days * 86400)
                  && r.value.notes.orders == x.notes.orders)
  {
    AtIs(items, id);
    assert DAY == 86400;
  }

  /** Read and written without anything in between, the record has the trial and nothing else of it changes. */
  lemma GrantGives(items: seq<Access>, id: int, k: nat, days: int, line: string, now: int)
    requires Stands(items, id, k) && 1 <= days <= 90 && MayTry(items[k])
    ensures var w := Next(World(items, []), DoRead(id, days, line, now));
            Enabled(w, DoEntitle(0)) &&
            var after, x := Next(w, DoEntitle(0)).items, items[k];
            && |after| == |items|
            && after == items[k := after[k]]
            && after[k] == x.(trialEnds := now + days * 86400, notes := after[k].notes,
                              expires := if x.expires > now + days * 86400 then x.expires else now + days * 86400)
            && after[k].notes.orders == x.notes.orders
  {
    AtIs(items, id);
    GrantRead(items, id, k, days, line, now);
  }

  /** The third section, where it goes through: the trial and the record as the second section left it, with a login. */
  lemma GrantRenews(items: seq<Access>, g: Grant, k: nat, now: int, out: Outcome)
    requires g.Entitled? && Stands(items, g.target.id, k) && Update(items, g.target.id, RenewForm(g), now, out).Ok?
    requires g.target.project.Textile?
    ensures var r, t := Update(items, g.target.id, RenewForm(g), now, out).value.record, g.target;
            && r.expires == g.expires && r.notes == g.notes
            && r.trialEnds == (if g.trialEnds == 0 then items[k].trialEnds else g.trialEnds)
            && r.modules == t.modules && r.company == t.company && r.contact == t.contact && r.companyId == t.companyId
            && (t.username != "" ==> r.username == t.username) && r.password == items[k].password && !r.requiresSetup
            && r.active == items[k].active && r.token == items[k].token && r.created == items[k].created
            && (if t.role.Manager? || t.role.Accountant? then r.role == t.role else MayTry(t) ==> r.role.Owner?)
  {
    AtIs(items, g.target.id);
    UpdateReplaces(items, g.target.id, RenewForm(g), now, out);
  }

  // ---------------------------------------------------------------- the list

  /** Listed accounts are the stored ones, later creations first and higher ids first among equals. */
  lemma ListedNewestFirst(items: seq<Access>)
    ensures var listed := Sorting.Sort(items, Newer);
            && multiset(listed) == multiset(items)
            && forall i, j | 0 <= i < j < |listed| ::
                 listed[i].created > listed[j].created
                 || (listed[i].created == listed[j].created && listed[i].id >= listed[j].id)
  {
    var listed := Sorting.Sort(items, Newer);
    Sorting.SortSorted(items, Newer);
    forall i, j | 0 <= i < j < |listed|
      ensures listed[i].created > listed[j].created
              || (listed[i].created == listed[j].created && listed[i].id >= listed[j].id)
    {
      assert !Newer(listed[j], listed[i]);
    }
  }
}
