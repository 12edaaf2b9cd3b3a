/** Restoring the owner role of tenants that lost it (portal_server/owner_integrity.go:16-98). */
module OwnerRepair {
  import opened Common
  import opened Sorting

  /**
   Texts are taken as already trimmed, company name and role also as lower-cased. `created` counts
   from the zero time, which is 0; `rest` stands for all other fields.
   */
  datatype Access = Access(
    id: int,
    project: string,
    companyId: int,
    companyName: string,
    username: string,
    passwordHash: string,
    role: string,
    permissions: seq<string>,
    canManageTeam: bool,
    requiresSetup: bool,
    isActive: bool,
    created: nat,
    rest: string)

  datatype Tenant = CompanyId(id: int) | CompanyName(name: string)

  const OWNER := "owner"

  function TenantOf(r: Access): Option<Tenant> {
    if r.project != "textile-erp" then None
    else if r.companyId > 0 then Some(CompanyId(r.companyId))
    else if r.companyName == "" then None else Some(CompanyName(r.companyName))
  }

  function NormalizedRole(role: string): string {
    if role == "" || role == OWNER || role == "customer" then OWNER
    else if role == "manager" || role == "accountant" then role
    else "viewer"
  }

  predicate IsOwner(r: Access) { NormalizedRole(r.role) == OWNER }

  predicate Usable(r: Access) {
    r.isActive && !(r.requiresSetup || r.username == "" || r.passwordHash == "")
  }

  /** All the repair looks at in a record. */
  datatype Tag = Tag(tenant: Option<Tenant>, owner: bool, usable: bool, created: nat, id: int)

  function TagOf(r: Access): Tag {
    Tag(TenantOf(r), IsOwner(r), Usable(r), r.created, r.id)
  }

  function Tags(items: seq<Access>): (tags: seq<Tag>)
    ensures |tags| == |items|
  {
    seq(|items|, i requires 0 <= i < |items| => TagOf(items[i]))
  }

  /** Earlier by creation time, with unset times first, then by id. */
  predicate Earlier(a: Tag, b: Tag) {
    if a.created == b.created then a.id < b.id
    else if a.created == 0 then true
    else if b.created == 0 then false
    else a.created < b.created
  }

  function Promoted(r: Access, catalog: seq<string>): Access {
    r.(role := OWNER, canManageTeam := true, permissions := catalog)
  }

  // ---------------------------------------------------------------- the repaired table

  predicate InTenant(tags: seq<Tag>, t: Tenant, i: int) {
    0 <= i < |tags| && tags[i].tenant == Some(t)
  }

  predicate HasOwner(tags: seq<Tag>, t: Tenant) {
    exists i | 0 <= i < |tags| :: InTenant(tags, t, i) && tags[i].owner
  }

  /** Group members below n, ascending. */
  function Members(tags: seq<Tag>, t: Tenant, n: nat): seq<int>
    requires n <= |tags|
  {
    if n == 0 then [] else Members(tags, t, n - 1) + if InTenant(tags, t, n - 1) then [n - 1] else []
  }

  /** The usable ones of the given indexes, in order. */
  function UsableOnly(tags: seq<Tag>, indexes: seq<int>): seq<int> {
    if indexes == [] then []
    else
      var last := indexes[|indexes| - 1];
      UsableOnly(tags, indexes[..|indexes| - 1]) + if 0 <= last < |tags| && tags[last].usable then [last] else []
  }

  function Candidates(tags: seq<Tag>, t: Tenant): seq<int> {
    UsableOnly(tags, Members(tags, t, |tags|))
  }

  function EarlierIn(tags: seq<Tag>): (int, int) -> bool {
    (i: int, j: int) => 0 <= i < |tags| && 0 <= j < |tags| && Earlier(tags[i], tags[j])
  }

  /** The record that becomes owner, if the tenant has none and has a usable record. */
  function Chosen(tags: seq<Tag>, t: Tenant): Option<int> {
    var candidates := Sort(Candidates(tags, t), EarlierIn(tags));
    if HasOwner(tags, t) || candidates == [] then None else Some(candidates[0])
  }

  predicate IsChosen(tags: seq<Tag>, i: int) {
    0 <= i < |tags| && tags[i].tenant.Some? && Chosen(tags, tags[i].tenant.value) == Some(i)
  }

  function Repaired(items: seq<Access>, catalog: seq<string>): (r: seq<Access>)
    ensures |r| == |items|
  {
    var tags := Tags(items);
    seq(|items|, i requires 0 <= i < |items| => if IsChosen(tags, i) then Promoted(items[i], catalog) else items[i])
  }

  lemma {:induction false} MembersAre(tags: seq<Tag>, t: Tenant, n: nat, i: int)
    requires n <= |tags|
    ensures i in Members(tags, t, n) <==> i < n && InTenant(tags, t, i)
  {
    if n > 0 {
      MembersAre(tags, t, n - 1, i);
    }
  }

  lemma {:induction false} UsableOnlyAre(tags: seq<Tag>, indexes: seq<int>, i: int)
    ensures i in UsableOnly(tags, indexes) <==> i in indexes && 0 <= i < |tags| && tags[i].usable
  {
    if indexes != [] {
      UsableOnlyAre(tags, indexes[..|indexes| - 1], i);
    }
  }

  lemma CandidatesAre(tags: seq<Tag>, t: Tenant, i: int)
    ensures i in Candidates(tags, t) <==> InTenant(tags, t, i) && tags[i].usable
  {
    MembersAre(tags, t, |tags|, i);
    UsableOnlyAre(tags, Members(tags, t, |tags|), i);
  }

  // ---------------------------------------------------------------- the repair in place

  /** Whether one of the indexed records is an owner. */
  method FindOwner(a: array<Access>, indexes: seq<int>) returns (hasOwner: bool)
    requires forall k | 0 <= k < |indexes| :: 0 <= indexes[k] < a.Length
    ensures hasOwner <==> exists k | 0 <= k < |indexes| :: Tags(a[..])[indexes[k]].owner
  {
    for k := 0 to |indexes|
      invariant forall j | 0 <= j < k :: !Tags(a[..])[indexes[j]].owner
    {
      if NormalizedRole(a[indexes[k]].role) == OWNER {
        return true;
      }
    }
    return false;
  }

  method FindUsable(a: array<Access>, indexes: seq<int>) returns (candidates: seq<int>)
    requires forall k | 0 <= k < |indexes| :: 0 <= indexes[k] < a.Length
    ensures candidates == UsableOnly(Tags(a[..]), indexes)
  {
    candidates := [];
    for k := 0 to |indexes|
      invariant candidates == UsableOnly(Tags(a[..]), indexes[..k])
    {
      assert indexes[..k + 1][..k] == indexes[..k];
      if Usable(a[indexes[k]]) {
        candidates := candidates + [indexes[k]];
      }
    }
    assert indexes[..|indexes|] == indexes;
  }

  /** The map holds each tenant's records below n. */
  ghost predicate GroupedBelow(tags: seq<Tag>, groups: map<Tenant, seq<int>>, n: nat)
    requires n <= |tags|
  {
    forall t :: if t in groups then groups[t] == Members(tags, t, n) != [] else Members(tags, t, n) == []
  }

  lemma GroupGrows(tags: seq<Tag>, groups: map<Tenant, seq<int>>, n: nat, key: Option<Tenant>)
    requires n < |tags| && tags[n].tenant == key && GroupedBelow(tags, groups, n)
    ensures key.None? ==> GroupedBelow(tags, groups, n + 1)
    ensures key.Some? ==>
              var group := if key.value in groups then groups[key.value] else [];
              GroupedBelow(tags, groups[key.value := group + [n]], n + 1)
  {
    forall t ensures Members(tags, t, n + 1) == Members(tags, t, n) + if key == Some(t) then [n] else [] {}
  }

  /** The groups in index order, as the first loop of the source builds them. */
  method BuildGroups(a: array<Access>) returns (groups: map<Tenant, seq<int>>)
    ensures forall t :: t in groups <==> Members(Tags(a[..]), t, a.Length) != []
    ensures forall t | t in groups :: groups[t] == Members(Tags(a[..]), t, a.Length)
  {
    ghost var tags := Tags(a[..]);
    groups := map[];
    for n := 0 to a.Length
      invariant GroupedBelow(tags, groups, n)
    {
      var key := TenantOf(a[n]);
      GroupGrows(tags, groups, n, key);
      if key.Some? {
        groups := groups[key.value := (if key.value in groups then groups[key.value] else []) + [n]];
      }
    }
  }

  /** The promoted tags of the tenants already visited. */
  ghost predicate Progress(tags: seq<Tag>, now: seq<Tag>, done: set<int>) {
    && |now| == |tags|
    && forall i | 0 <= i < |tags| :: now[i] == if i in done then tags[i].(owner := true) else tags[i]
  }

  /** A group whose tenant has not been visited looks as it did at the start. */
  lemma {:induction false} GroupUnchanged(tags: seq<Tag>, now: seq<Tag>, done: set<int>, t: Tenant, n: nat)
    requires Progress(tags, now, done) && n <= |tags|
    requires forall i | i in done :: !InTenant(tags, t, i)
    ensures Members(now, t, n) == Members(tags, t, n)
    ensures HasOwner(now, t) <==> HasOwner(tags, t)
  {
    if n > 0 {
      GroupUnchanged(tags, now, done, t, n - 1);
    }
    assert forall i :: InTenant(now, t, i) <==> InTenant(tags, t, i);
    assert forall i | InTenant(tags, t, i) :: now[i] == tags[i];
    if i :| 0 <= i < |tags| && InTenant(tags, t, i) && tags[i].owner {
      assert InTenant(now, t, i) && now[i].owner;
    }
  }

  lemma {:induction false} UsableUnchanged(tags: seq<Tag>, now: seq<Tag>, done: set<int>, indexes: seq<int>)
    requires Progress(tags, now, done)
    ensures UsableOnly(now, indexes) == UsableOnly(tags, indexes)
  {
    if indexes != [] {
      UsableUnchanged(tags, now, done, indexes[..|indexes| - 1]);
    }
  }

  lemma {:induction false} InsertAgrees(x: int, s: seq<int>, f: (int, int) -> bool, g: (int, int) -> bool)
    requires forall i, j :: f(i, j) == g(i, j)
    ensures Insert(x, s, f) == Insert(x, s, g)
  {
    if s != [] {
      InsertAgrees(x, s[1..], f, g);
      assert f(s[0], x) == g(s[0], x);
    }
  }

  lemma {:induction false} SortAgrees(s: seq<int>, f: (int, int) -> bool, g: (int, int) -> bool)
    requires forall i, j :: f(i, j) == g(i, j)
    ensures Sort(s, f) == Sort(s, g)
  {
    if s != [] {
      SortAgrees(s[1..], f, g);
      InsertAgrees(s[0], Sort(s[1..], f), f, g);
    }
  }

  /** Earlier does not look at the owner flag. */
  lemma OrderUnchanged(tags: seq<Tag>, now: seq<Tag>, done: set<int>, s: seq<int>)
    requires Progress(tags, now, done)
    ensures Sort(s, EarlierIn(now)) == Sort(s, EarlierIn(tags))
  {
    var f, g := EarlierIn(now), EarlierIn(tags);
    forall i, j ensures f(i, j) == g(i, j) {
      if 0 <= i < |tags| && 0 <= j < |tags| {
        assert Earlier(now[i], now[j]) == Earlier(tags[i], tags[j]);
      }
    }
    SortAgrees(s, f, g);
  }

  lemma PromotedTag(r: Access, catalog: seq<string>)
    ensures TagOf(Promoted(r, catalog)) == TagOf(r).(owner := true)
  {
  }

  lemma OwnerAmongMembers(tags: seq<Tag>, t: Tenant)
    ensures var m := Members(tags, t, |tags|);
            && (forall k | 0 <= k < |m| :: 0 <= m[k] < |tags|)
            && (HasOwner(tags, t) <==> exists k | 0 <= k < |m| :: tags[m[k]].owner)
  {
    var m := Members(tags, t, |tags|);
    forall i ensures i in m <==> InTenant(tags, t, i) { MembersAre(tags, t, |tags|, i); }
    assert forall k | 0 <= k < |m| :: m[k] in m;
    if i :| 0 <= i < |tags| && InTenant(tags, t, i) && tags[i].owner {
      assert i in m;
    }
  }

  /** The record to promote in one group. */
  method ChooseInGroup(a: array<Access>, indexes: seq<int>, ghost t: Tenant) returns (chosen: Option<int>)
    requires indexes == Members(Tags(a[..]), t, a.Length)
    ensures chosen == Chosen(Tags(a[..]), t)
  {
    OwnerAmongMembers(Tags(a[..]), t);
    var hasOwner := FindOwner(a, indexes);
    if hasOwner {
      return None;
    }
    var candidates := FindUsable(a, indexes);
    if candidates == [] {
      return None;
    }
    chosen := Some(Sort(candidates, EarlierIn(Tags(a[..])))[0]);
  }

  ghost function ChosenSet(tags: seq<Tag>): set<int> {
    set i | 0 <= i < |tags| && IsChosen(tags, i)
  }

  /** A tenant's part of the chosen records is the one chosen for it. */
  lemma ChosenSetOf(tags: seq<Tag>, t: Tenant)
    ensures forall i :: i in ChosenSet(tags) && InTenant(tags, t, i) <==> Chosen(tags, t) == Some(i)
  {
    ChosenIsFirst(tags, t);
  }

  /** The part of `chosen` that belongs to visited tenants. */
  ghost predicate VisitedPart(tags: seq<Tag>, chosen: set<int>, visited: set<Tenant>, done: set<int>) {
    && done <= chosen
    && (forall i | i in chosen :: 0 <= i < |tags| && tags[i].tenant.Some?)
    && (forall i | i in chosen :: i in done <==> tags[i].tenant.value in visited)
  }

  /** The state of the table when the records in `done` have been promoted. */
  ghost predicate PromotedAt(items: seq<Access>, now: seq<Access>, catalog: seq<string>, done: set<int>) {
    && |now| == |items|
    && forall i | 0 <= i < |items| :: now[i] == if i in done then Promoted(items[i], catalog) else items[i]
  }

  lemma PromotedProgress(items: seq<Access>, now: seq<Access>, catalog: seq<string>, done: set<int>)
    requires PromotedAt(items, now, catalog, done)
    ensures Progress(Tags(items), Tags(now), done)
  {
    forall i | 0 <= i < |items| ensures TagOf(Promoted(items[i], catalog)) == TagOf(items[i]).(owner := true) {
      PromotedTag(items[i], catalog);
    }
  }

  /** Visiting one more tenant. */
  lemma VisitOne(items: seq<Access>, now: seq<Access>, catalog: seq<string>, visited: set<Tenant>, done: set<int>,
      t: Tenant)
    requires PromotedAt(items, now, catalog, done) && t !in visited
    requires VisitedPart(Tags(items), ChosenSet(Tags(items)), visited, done)
    ensures Chosen(Tags(now), t) == Chosen(Tags(items), t)
    ensures Members(Tags(now), t, |now|) == Members(Tags(items), t, |items|)
    ensures var chosen := Chosen(Tags(items), t);
            if chosen.None? then VisitedPart(Tags(items), ChosenSet(Tags(items)), visited + {t}, done)
            else
              && 0 <= chosen.value < |now| && chosen.value !in done
              && VisitedPart(Tags(items), ChosenSet(Tags(items)), visited + {t}, done + {chosen.value})
  {
    var tags := Tags(items);
    PromotedProgress(items, now, catalog, done);
    ChosenSetOf(tags, t);
    VisitPart(tags, ChosenSet(tags), Chosen(tags, t), visited, done, t);
    ChosenUnchanged(tags, Tags(now), done, t);
  }

  lemma VisitPart(tags: seq<Tag>, all: set<int>, chosen: Option<int>, visited: set<Tenant>, done: set<int>, t: Tenant)
    requires VisitedPart(tags, all, visited, done) && t !in visited
    requires forall i :: i in all && InTenant(tags, t, i) <==> chosen == Some(i)
    ensures forall i | i in done :: !InTenant(tags, t, i)
    ensures chosen.None? ==> VisitedPart(tags, all, visited + {t}, done)
    ensures chosen.Some? ==> 0 <= chosen.value < |tags| && chosen.value !in done
                             && VisitedPart(tags, all, visited + {t}, done + {chosen.value})
  {
    if chosen.Some? {
      assert chosen.value in all && InTenant(tags, t, chosen.value);
    }
  }

  /**
   The repair in place. Groups are visited in an arbitrary order, as Go visits a map, and the outcome
   is Repaired whatever that order is.
   */
  method RepairTenantOwners(a: array<Access>, catalog: seq<string>) returns (repaired: nat)
    modifies a
    ensures a[..] == Repaired(old(a[..]), catalog)
    ensures repaired == |ChosenSet(Tags(old(a[..])))|
  {
    ghost var items := a[..];
    ghost var tags, all := Tags(items), ChosenSet(Tags(items));
    var groups := BuildGroups(a);
    var todo := groups.Keys;
    ghost var done: set<int> := {};
    repaired := 0;
    while todo != {}
      invariant todo <= groups.Keys
      invariant PromotedAt(items, a[..], catalog, done)
      invariant VisitedPart(tags, all, groups.Keys - todo, done)
      invariant repaired == |done|
      decreases todo
    {
      var t :| t in todo;
      VisitOne(items, a[..], catalog, groups.Keys - todo, done, t);
      assert groups.Keys - (todo - {t}) == groups.Keys - todo + {t};
      todo := todo - {t};
      var chosen := ChooseInGroup(a, groups[t], t);
      if chosen.Some? {
        var idx := chosen.value;
        PromoteOne(items, a[..], catalog, done, idx);
        a[idx] := a[idx].(role := OWNER, canManageTeam := true, permissions := catalog);
        done := done + {idx};
        repaired := repaired + 1;
      }
    }
    AllVisited(tags, groups.Keys, done);
    AllPromoted(items, a[..], catalog);
  }

  lemma PromoteOne(items: seq<Access>, now: seq<Access>, catalog: seq<string>, done: set<int>, idx: int)
    requires PromotedAt(items, now, catalog, done) && 0 <= idx < |now| && idx !in done
    ensures PromotedAt(items, now[idx := Promoted(now[idx], catalog)], catalog, done + {idx})
  {
  }

  lemma AllPromoted(items: seq<Access>, now: seq<Access>, catalog: seq<string>)
    requires PromotedAt(items, now, catalog, ChosenSet(Tags(items)))
    ensures now == Repaired(items, catalog)
  {
  }

  lemma AllVisited(tags: seq<Tag>, visited: set<Tenant>, done: set<int>)
    requires VisitedPart(tags, ChosenSet(tags), visited, done)
    requires forall t :: t in visited <==> Members(tags, t, |tags|) != []
    ensures done == ChosenSet(tags)
  {
    forall i | i in ChosenSet(tags) ensures i in done {
      MembersAre(tags, tags[i].tenant.value, |tags|, i);
    }
  }

  lemma ChosenUnchanged(tags: seq<Tag>, now: seq<Tag>, done: set<int>, t: Tenant)
    requires Progress(tags, now, done)
    requires forall i | i in done :: !InTenant(tags, t, i)
    ensures Chosen(now, t) == Chosen(tags, t) && Members(now, t, |now|) == Members(tags, t, |tags|)
  {
    GroupUnchanged(tags, now, done, t, |tags|);
    UsableUnchanged(tags, now, done, Members(tags, t, |tags|));
    OrderUnchanged(tags, now, done, Candidates(tags, t));
  }

  // ---------------------------------------------------------------- what the repair guarantees

  /** The chosen record is a usable record of the tenant, and none of them is earlier. */
  lemma ChosenIsFirst(tags: seq<Tag>, t: Tenant)
    ensures Chosen(tags, t).Some? ==>
              var i := Chosen(tags, t).value;
              && InTenant(tags, t, i) && tags[i].usable
              && (forall j | InTenant(tags, t, j) && tags[j].usable :: !Earlier(tags[j], tags[i]))
    ensures Chosen(tags, t).Some? <==>
              !HasOwner(tags, t) && exists j :: InTenant(tags, t, j) && tags[j].usable
  {
    var candidates := Candidates(tags, t);
    var sorted := Sort(candidates, EarlierIn(tags));
    forall i ensures i in candidates <==> InTenant(tags, t, i) && tags[i].usable { CandidatesAre(tags, t, i); }
    EarlierIsOrder(tags, candidates);
    SortSorted(candidates, EarlierIn(tags));
    SameElements(sorted, candidates);
    if sorted != [] {
      FirstIsEarliest(tags, sorted);
      assert sorted[0] in sorted;
    }
    assert sorted == [] <==> candidates == [];
  }

  /** Two textile records of one tenant: of one company id, or both without one and of one non-empty name. */
  predicate SameTenant(x: Access, y: Access) {
    && x.project == "textile-erp" && y.project == "textile-erp"
    && if x.companyId > 0 || y.companyId > 0 then x.companyId == y.companyId
       else x.companyName == y.companyName != ""
  }

  predicate OwnsTenant(x: Access) { x.role in {"", "owner", "customer"} }

  predicate CanLogIn(x: Access) {
    x.isActive && !x.requiresSetup && x.username != "" && x.passwordHash != ""
  }

  /** Its tenant has no owner, it can log in, and no other record of the tenant that can is older; ids break ties. */
  predicate IsHeir(items: seq<Access>, i: nat)
    requires i < |items|
  {
    var x := items[i];
    && SameTenant(x, x) && CanLogIn(x)
    && forall j | 0 <= j < |items| && SameTenant(x, items[j]) ::
         var y := items[j];
         && !OwnsTenant(y)
         && (CanLogIn(y) && j != i ==> x.created < y.created || (x.created == y.created && x.id <= y.id))
  }

  lemma TenantsAgree(x: Access, y: Access)
    ensures SameTenant(x, y) <==> TenantOf(x).Some? && TenantOf(x) == TenantOf(y)
    ensures OwnsTenant(x) <==> IsOwner(x)
    ensures CanLogIn(x) <==> Usable(x)
  {
  }

  lemma HeirIsChosen(items: seq<Access>, i: nat)
    requires i < |items| && forall j, k | 0 <= j < k < |items| :: items[j].id != items[k].id
    ensures IsChosen(Tags(items), i) <==> IsHeir(items, i)
  {
    var tags, x := Tags(items), items[i];
    forall j | 0 <= j < |items| ensures tags[j] == TagOf(items[j]) {
      TenantsAgree(x, items[j]);
      TenantsAgree(items[j], items[j]);
    }
    TenantsAgree(x, x);
    if SameTenant(x, x) {
      var t := TenantOf(x).value;
      ChosenIsFirst(tags, t);
      if IsHeir(items, i) {
        assert InTenant(tags, t, i) && tags[i].usable;
        assert !HasOwner(tags, t);
        var c := Chosen(tags, t).value;
        assert SameTenant(x, items[c]);
      }
      if IsChosen(tags, i) {
        forall j | 0 <= j < |items| && SameTenant(x, items[j])
          ensures !OwnsTenant(items[j])
          ensures CanLogIn(items[j]) && j != i ==>
                    x.created < items[j].created || (x.created == items[j].created && x.id <= items[j].id)
        {
          assert InTenant(tags, t, j);
        }
      }
    }
  }

  /**
   With distinct ids the repair makes owners of exactly the heirs: role owner, the whole catalog, the team flag.
   Every other record stays as it is.
   */
  lemma RepairMeans(items: seq<Access>, catalog: seq<string>, i: nat)
    requires i < |items| && forall j, k | 0 <= j < k < |items| :: items[j].id != items[k].id
    ensures var r := Repaired(items, catalog)[i];
            if IsHeir(items, i) then
              && r.role == "owner" && r.permissions == catalog && r.canManageTeam
              && r.(role := items[i].role, permissions := items[i].permissions, canManageTeam := items[i].canManageTeam)
                 == items[i]
            else r == items[i]
  {
    HeirIsChosen(items, i);
  }

  lemma EarlierIsOrder(tags: seq<Tag>, indexes: seq<int>)
    requires forall i | i in indexes :: 0 <= i < |tags|
    ensures OrderedOn(indexes, EarlierIn(tags))
  {
  }

  lemma FirstIsEarliest(tags: seq<Tag>, sorted: seq<int>)
    requires sorted != [] && Sorted(sorted, EarlierIn(tags)) && forall i | i in sorted :: 0 <= i < |tags|
    ensures 0 <= sorted[0] < |tags| && forall j | j in sorted :: !Earlier(tags[j], tags[sorted[0]])
  {
    assert sorted[0] in sorted;
    forall j | j in sorted ensures !Earlier(tags[j], tags[sorted[0]]) {
      var k :| 0 <= k < |sorted| && sorted[k] == j;
      assert k == 0 || !EarlierIn(tags)(sorted[k], sorted[0]);
    }
  }

  /** At most one record per tenant changes, and only in role, permissions and team flag. */
  lemma OnePerTenant(items: seq<Access>, catalog: seq<string>, i: int, j: int)
    requires 0 <= i < |items| && 0 <= j < |items|
    ensures var r := Repaired(items, catalog);
            && (r[i] != items[i] && r[j] != items[j] && TenantOf(items[i]) == TenantOf(items[j]) ==> i == j)
            && r[i].(role := items[i].role, permissions := items[i].permissions,
                     canManageTeam := items[i].canManageTeam) == items[i]
  {
    var tags := Tags(items);
    assert tags[i].tenant == TenantOf(items[i]) && tags[j].tenant == TenantOf(items[j]);
  }

  lemma RepairedTags(items: seq<Access>, catalog: seq<string>)
    ensures Progress(Tags(items), Tags(Repaired(items, catalog)), ChosenSet(Tags(items)))
  {
    forall i | 0 <= i < |items| ensures TagOf(Promoted(items[i], catalog)) == TagOf(items[i]).(owner := true) {
      PromotedTag(items[i], catalog);
    }
  }

  /** Afterwards every tenant with a usable record has an owner; a tenant that had one is untouched. */
  lemma EveryUsableTenantHasOwner(items: seq<Access>, catalog: seq<string>, t: Tenant)
    ensures var tags, after := Tags(items), Tags(Repaired(items, catalog));
            && ((exists j :: InTenant(tags, t, j) && tags[j].usable) ==> HasOwner(after, t))
            && (HasOwner(tags, t) ==> forall i | InTenant(tags, t, i) :: Repaired(items, catalog)[i] == items[i])
  {
    RepairedTags(items, catalog);
    TagsGainOwner(Tags(items), Tags(Repaired(items, catalog)), t);
  }

  lemma TagsGainOwner(tags: seq<Tag>, after: seq<Tag>, t: Tenant)
    requires Progress(tags, after, ChosenSet(tags))
    ensures (exists j :: InTenant(tags, t, j) && tags[j].usable) ==> HasOwner(after, t)
    ensures HasOwner(tags, t) ==> forall i | InTenant(tags, t, i) :: !IsChosen(tags, i)
  {
    ChosenIsFirst(tags, t);
    if HasOwner(tags, t) {
      var i :| 0 <= i < |tags| && InTenant(tags, t, i) && tags[i].owner;
      assert InTenant(after, t, i) && after[i].owner;
    } else if Chosen(tags, t).Some? {
      var i := Chosen(tags, t).value;
      assert i in ChosenSet(tags);
      assert InTenant(after, t, i) && after[i].owner;
    }
  }

  /** Repairing twice is repairing once. */
  lemma RepairIdempotent(items: seq<Access>, catalog: seq<string>)
    ensures Repaired(Repaired(items, catalog), catalog) == Repaired(items, catalog)
  {
    var tags, after := Tags(items), Tags(Repaired(items, catalog));
    RepairedTags(items, catalog);
    forall i | 0 <= i < |after| ensures !IsChosen(after, i) { NobodyChosenAgain(tags, after, i); }
  }

  lemma NobodyChosenAgain(tags: seq<Tag>, after: seq<Tag>, i: int)
    requires Progress(tags, after, ChosenSet(tags))
    ensures !IsChosen(after, i)
  {
    if 0 <= i < |after| && after[i].tenant.Some? {
      var t := after[i].tenant.value;
      ChosenIsFirst(after, t);
      TagsGainOwner(tags, after, t);
      forall j | InTenant(after, t, j) && after[j].usable ensures HasOwner(after, t) {
        assert InTenant(tags, t, j) && tags[j].usable;
      }
    }
  }
}
