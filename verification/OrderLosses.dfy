/**
 How an order can come to two accounts, to somebody else's, or lose its marker
 (portal_server/orders.go:296-325, 341-470; portal_server/main.go:3852-3930, 4773-4781).
 */
module OrderLosses {
  import opened Common
  import opened Lists
  import opened AccessStore
  import AccessRuns
  import opened PurchaseOrders
  import opened OrderRuns

  // ---------------------------------------------------------------- a second account

  /**
   Where the store would create an account for an unsaved order, an approval does so exactly when no account is
   marked.
   */
  lemma RetryCreatesIff(items: seq<Access>, o: Order, now: int, out: Outcome)
    requires o.status.Pending? && o.accessId == 0 && o.requester <= 0 && Create(items, NewForm(o, now), now, out).Ok?
    ensures PlanFor(items, o, now, out).Created? <==> forall x | x in items :: o.id !in x.notes.orders
  {
    FoundMeans(items, o);
  }

  predicate TwoAccounts(w: World, o: Order) {
    exists x, y | x in w.items && y in w.items ::
      x.id != y.id && x.id in w.made && y.id in w.made && w.made[x.id] == w.made[y.id] == o.id
  }

  lemma ApprovalCreates(w: World, o: Order, now: int, out: Outcome)
    requires First(w.orders, OrderWith(o.id)) == Some(o) && PlanFor(w.items, o, now, out).Created?
    ensures var r := PlanFor(w.items, o, now, out).change.record;
            var after := Next(w, DoApprove(o.id, "", now, out, false));
            r.id == MaxId(w.items) + 1 && after.items == w.items + [r] && after.made == w.made[r.id := o.id]
  {
    ApproveIs(w, o, "", now, out, false, o.id);
    AccessRuns.CreateAppends(w.items, NewForm(o, now), now, out);
  }

  /**
   Whenever an account made for an unsaved order has lost the marker, the next approval gives the order a second
   one.
   */
  lemma LostMarkerDuplicates(w: World, o: Order, now: int, out: Outcome, a: Access)
    requires AccessRuns.Inv(w.items) && First(w.orders, OrderWith(o.id)) == Some(o)
    requires o.status.Pending? && o.accessId == 0 && o.requester <= 0 && Create(w.items, NewForm(o, now), now, out).Ok?
    requires a in w.items && a.id in w.made && w.made[a.id] == o.id
    requires forall x | x in w.items :: o.id !in x.notes.orders
    ensures TwoAccounts(Next(w, DoApprove(o.id, "", now, out, false)), o)
  {
    RetryCreatesIff(w.items, o, now, out);
    ApprovalCreates(w, o, now, out);
    SecondAccount(w, Next(w, DoApprove(o.id, "", now, out, false)), PlanFor(w.items, o, now, out).change.record, o, a);
  }

  lemma SecondAccount(w: World, after: World, r: Access, o: Order, a: Access)
    requires after.items == w.items + [r] && after.made == w.made[r.id := o.id] && r.id == MaxId(w.items) + 1
    requires a in w.items && a.id in w.made && w.made[a.id] == o.id
    ensures TwoAccounts(after, o)
  {
    var i :| 0 <= i < |w.items| && w.items[i] == a;
    assert a in after.items && r in after.items && a.id != r.id;
  }

  /** The table in which the newest account's notes have been cleared by hand. */
  function NotesCleared(items: seq<Access>): seq<Access> {
    if items == [] then [] else
      var n := |items| - 1;
      items[n := items[n].(notes := Notes("", {}))]
  }

  /**
   Approve, die, clear the notes, approve: from any sound world in which both creations succeed, two accounts
   live.
   */
  lemma LostMarkerRun(w: World, o: Order, now: int, out: Outcome, later: int, out': Outcome)
    requires Inv(w) && NoReuse(w) && First(w.orders, OrderWith(o.id)) == Some(o)
    requires o.status.Pending? && o.accessId == 0 && o.requester <= 0 && PlanFor(w.items, o, now, out).Created?
    requires Create(NotesCleared(Create(w.items, NewForm(o, now), now, out).value.items), NewForm(o, later),
                    later, out').Ok?
    ensures var died := Next(w, DoApprove(o.id, "", now, out, true));
            var edited := Next(died, DoAdmin(NotesCleared(died.items)));
            TwoAccounts(Next(edited, DoApprove(o.id, "", later, out', false)), o)
  {
    DiedAfterCreating(w, o, now, out);
    LostMarkerAfter(Next(w, DoApprove(o.id, "", now, out, true)), o, w.items,
                    Create(w.items, NewForm(o, now), now, out).value.record, later, out');
  }

  lemma LostMarkerAfter(died: World, o: Order, items: seq<Access>, r: Access, later: int, out: Outcome)
    requires died.items == items + [r] && AccessRuns.Inv(died.items) && r.id in died.made && died.made[r.id] == o.id
    requires forall x | x in items :: o.id !in x.notes.orders
    requires First(died.orders, OrderWith(o.id)) == Some(o) && o.status.Pending? && o.accessId == 0 && o.requester <= 0
    requires Create(NotesCleared(died.items), NewForm(o, later), later, out).Ok?
    ensures var edited := Next(died, DoAdmin(NotesCleared(died.items)));
            TwoAccounts(Next(edited, DoApprove(o.id, "", later, out, false)), o)
  {
    var a := ClearedTable(items, r, o);
    LostMarkerDuplicates(Next(died, DoAdmin(NotesCleared(died.items))), o, later, out, a);
  }

  lemma DiedAfterCreating(w: World, o: Order, now: int, out: Outcome)
    requires Inv(w) && First(w.orders, OrderWith(o.id)) == Some(o)
    requires PlanFor(w.items, o, now, out).Created?
    ensures var r := Create(w.items, NewForm(o, now), now, out).value.record;
            var died := Next(w, DoApprove(o.id, "", now, out, true));
            && died.items == w.items + [r] == Create(w.items, NewForm(o, now), now, out).value.items
            && died.made == w.made[r.id := o.id] && died.orders == w.orders
            && AccessRuns.Inv(died.items)
            && forall x | x in w.items :: o.id !in x.notes.orders
  {
    FirstMeans(w.orders, OrderWith(o.id));
    ApproveIs(w, o, "", now, out, true, o.id);
    AccessRuns.CreateKeepsInv(w.items, NewForm(o, now), now, out);
    AccessRuns.CreateAppends(w.items, NewForm(o, now), now, out);
    FoundMeans(w.items, o);
  }

  lemma ClearedTable(items: seq<Access>, r: Access, o: Order) returns (a: Access)
    requires AccessRuns.Inv(items + [r]) && forall x | x in items :: o.id !in x.notes.orders
    ensures a.id == r.id && a in NotesCleared(items + [r]) && AccessRuns.Inv(NotesCleared(items + [r]))
    ensures forall x | x in NotesCleared(items + [r]) :: o.id !in x.notes.orders
  {
    a := r.(notes := Notes("", {}));
    assert NotesCleared(items + [r]) == items + [a];
    ClearedKeepsInv(items, r, a);
  }

  lemma ClearedKeepsInv(items: seq<Access>, r: Access, a: Access)
    requires AccessRuns.Inv(items + [r]) && a == r.(notes := a.notes)
    ensures AccessRuns.Inv(items + [a])
  {
    var before, after := items + [r], items + [a];
    assert after == before[|items| := a];
    AccessRuns.EditKeepsInv(before, |items|, a);
  }

  // One order, no account yet, and what the services answer the first and the second time.
  function FirstOrder(): Order {
    Order("TX-1", "mill", "Ali", "0912", "", Modules(true, false, false), Size(5, 0, 1), Annual, false,
          Notes("", {}), Pending, 0, 0, 0, "", 10, 10)
  }

  function Answer(name: string): Outcome {
    Outcome(Ok(7), Ok("t1"), true, [name], "mill-9", "Portal@x", "k1")
  }

  function OneOrder(): World { World([], [FirstOrder()], map[], {}) }

  lemma OneOrderIsSound()
    ensures Inv(OneOrder()) && NoReuse(OneOrder()) && First(OneOrder().orders, OrderWith("TX-1")) == Some(FirstOrder())
  {
    assert FirstOrder() in OneOrder().orders;
  }

  lemma CreateAnswered(items: seq<Access>, now: int, name: string)
    requires name != "" && !Taken(items, Textile, name, 0)
    ensures Create(items, NewForm(FirstOrder(), now), now, Answer(name)).Ok?
    ensures var r := Create(items, NewForm(FirstOrder(), now), now, Answer(name)).value.record;
            r.username == name && r.project.Textile?
  {
    assert |"Portal@x"| == 8 && Answer(name).names[0] == name;
  }

  lemma FirstIsCreated() returns (first: Change)
    ensures Create([], NewForm(FirstOrder(), 0), 0, Answer("mill-a1")) == Ok(first)
    ensures first.items == [first.record] && first.record.username == "mill-a1"
    ensures PlanFor([], FirstOrder(), 0, Answer("mill-a1")).Created?
  {
    CreateAnswered([], 0, "mill-a1");
    first := Create([], NewForm(FirstOrder(), 0), 0, Answer("mill-a1")).value;
    AccessRuns.CreateAppends([], NewForm(FirstOrder(), 0), 0, Answer("mill-a1"));
    assert first.items == [] + [first.record];
    FoundMeans([], FirstOrder());
  }

  lemma SecondIsCreated(first: Change)
    requires first.items == [first.record] && first.record.username == "mill-a1"
    ensures Create(NotesCleared(first.items), NewForm(FirstOrder(), 1), 1, Answer("mill-b22")).Ok?
  {
    var cleared := NotesCleared(first.items);
    assert |cleared| == 1 && cleared[0].username == "mill-a1" && |"mill-a1"| == 7 && |"mill-b22"| == 8;
    CreateAnswered(cleared, 1, "mill-b22");
  }

  /** Such a run: the last world has two accounts for the one order, and clearing the notes was not a safe change. */
  lemma LostMarkerRunExists()
    ensures var o, w := FirstOrder(), OneOrder();
            var died := Next(w, DoApprove(o.id, "", 0, Answer("mill-a1"), true));
            var edited := Next(died, DoAdmin(NotesCleared(died.items)));
            && Inv(w) && Inv(died) && !SafeAdmin(died, NotesCleared(died.items))
            && TwoAccounts(Next(edited, DoApprove(o.id, "", 1, Answer("mill-b22"), false)), o)
  {
    var first := FirstIsCreated();
    SecondIsCreated(first);
    OneOrderIsSound();
    LostMarkerRun(OneOrder(), FirstOrder(), 0, Answer("mill-a1"), 1, Answer("mill-b22"));
    DeathIsSoundButClearingIsNot(first);
  }

  lemma DeathIsSoundButClearingIsNot(first: Change)
    requires Create([], NewForm(FirstOrder(), 0), 0, Answer("mill-a1")) == Ok(first)
    ensures var died := Next(OneOrder(), DoApprove("TX-1", "", 0, Answer("mill-a1"), true));
            Inv(died) && !SafeAdmin(died, NotesCleared(died.items))
  {
    var o, w := FirstOrder(), OneOrder();
    var died := Next(w, DoApprove(o.id, "", 0, Answer("mill-a1"), true));
    OneOrderIsSound();
    FoundMeans([], o);
    ApproveKeepsInv(w, o.id, "", 0, Answer("mill-a1"), true);
    ApproveIs(w, o, "", 0, Answer("mill-a1"), true, o.id);
    AccessRuns.CreateAppends([], NewForm(o, 0), 0, Answer("mill-a1"));
    var items := NotesCleared(died.items);
    assert died.items == [first.record] && items == [first.record.(notes := Notes("", {}))];
    var x, y := died.items[0], items[0];
    assert x in died.items && y in items && o.id in x.notes.orders - y.notes.orders;
    assert !OrderRuns.NamesAccount(died.orders, o.id, x.id);
  }

  /**
   If the order's account was the newest and is deleted, the next account created takes its id and is taken for
   it.
   */
  lemma ReusedIdIsTakenForTheOrders(items: seq<Access>, o: Order, form: Form, now: int, out: Outcome)
    requires AccessRuns.Inv(items) && o.accessId > 0 && form.notes.orders == {}
    requires var rest := Without(items, o.accessId);
             && (forall x | x in rest :: o.id !in x.notes.orders)
             && Create(rest, form, now, out).Ok?
    ensures var rest := Without(items, o.accessId);
            var change := Create(rest, form, now, out).value;
            FindAccess(change.items, o) == Some(change.record) <==> MaxId(rest) + 1 == o.accessId
  {
    var rest := Without(items, o.accessId);
    forall x | x in rest ensures !Provisioned(o, x) { AccessRuns.WithoutMeans(items, o.accessId, x); }
    FoundNewestIff(rest, Create(rest, form, now, out).value.record, o);
  }

  lemma FoundNewestIff(rest: seq<Access>, record: Access, o: Order)
    requires o.accessId > 0 && record.notes.orders == {} && forall x | x in rest :: !Provisioned(o, x)
    ensures FindAccess(rest + [record], o) == Some(record) <==> record.id == o.accessId
  {
    FoundMeans(rest + [record], o);
    assert record in rest + [record];
  }

  // ---------------------------------------------------------------- a marker lost to a grant

  /**
   An order that extends an account between the first two sections of a grant on that account: its marker is
   on the account until the second section, and stays only if it had been there at the first.
   */
  lemma ApprovalBetweenSections(
      s: AccessRuns.World, id: int, days: int, line: string, o: Order, now: int, out: Outcome)
    requires AccessRuns.Inv(s.items) && ReadForGrant(s.items, id, days, line, now).Ok?
    requires Update(s.items, id, ExtendForm(s.items[At(s.items, id)], o, now), now, out).Ok?
    ensures var update := AccessRuns.DoUpdate(id, ExtendForm(s.items[At(s.items, id)], o, now), now, out);
            var read := AccessRuns.Next(s, AccessRuns.DoRead(id, days, line, now));
            var extended := AccessRuns.Next(read, update);
            && AccessRuns.Enabled(extended, AccessRuns.DoEntitle(|s.grants|))
            && var written := AccessRuns.Next(extended, AccessRuns.DoEntitle(|s.grants|));
               && o.id in AccessRuns.Markers(extended, id)
               && (o.id in AccessRuns.Markers(written, id) <==> o.id in AccessRuns.Markers(s, id))
  {
    var form := ExtendForm(s.items[At(s.items, id)], o, now);
    var read := AccessRuns.Next(s, AccessRuns.DoRead(id, days, line, now));
    var extended := AccessRuns.Next(read, AccessRuns.DoUpdate(id, form, now, out));
    ExtendedRecord(s.items, id, form, now, out);
    AccessRuns.EntitledRecord(extended, |s.grants|);
  }

  lemma ExtendedRecord(items: seq<Access>, id: int, form: Form, now: int, out: Outcome)
    requires Update(items, id, form, now, out).Ok?
    ensures var after := Update(items, id, form, now, out).value.items;
            At(after, id) == At(items, id) < |after| && after[At(after, id)].notes == form.notes
  {
    AccessRuns.UpdateReplaces(items, id, form, now, out);
    var after, k := Update(items, id, form, now, out).value.items, At(items, id);
    assert after[k].id == id && forall j | 0 <= j < k :: after[j].id != id;
  }

  /** Such a run: the marker of order TX-1 is really lost. */
  lemma OrderMarkerIsLost()
    ensures var owner := AccessRuns.NewOwner().(username := "boss", password := "password", requiresSetup := false);
            var s := AccessRuns.World([owner], []);
            var form := ExtendForm(owner, FirstOrder(), AccessRuns.NOW);
            var update := AccessRuns.DoUpdate(1, form, AccessRuns.NOW, AccessRuns.SERVED);
            var read := AccessRuns.Next(s, AccessRuns.DoRead(1, 30, "trial", AccessRuns.NOW));
            var extended := AccessRuns.Next(read, update);
            && AccessRuns.Inv(s.items) && AccessRuns.Enabled(extended, AccessRuns.DoEntitle(0))
            && "TX-1" in AccessRuns.Markers(extended, 1)
            && "TX-1" !in AccessRuns.Markers(AccessRuns.Next(extended, AccessRuns.DoEntitle(0)), 1)
  {
    var owner := AccessRuns.NewOwner().(username := "boss", password := "password", requiresSetup := false);
    var s := AccessRuns.World([owner], []);
    assert At([owner], 1) == 0;
    OwnerIsExtended(owner, AccessRuns.NOW);
    ApprovalBetweenSections(s, 1, 30, "trial", FirstOrder(), AccessRuns.NOW, AccessRuns.SERVED);
  }

  lemma OwnerIsExtended(owner: Access, now: int)
    requires owner.id == 1 && owner.project.Textile? && owner.companyId > 0 && owner.role.Owner? && owner.tenant == ""
    requires owner.modules == Modules(true, false, false) && owner.trialEnds == 0 && owner.username != ""
    ensures Update([owner], 1, ExtendForm(owner, FirstOrder(), now), now, AccessRuns.SERVED).Ok?
  {
    var form := ExtendForm(owner, FirstOrder(), now);
    assert At([owner], 1) == 0 && !Taken([owner], Textile, owner.username, 1);
    assert form.trialEnds == 0 && form.expires >= now;
    assert ExistingTenant([owner], owner.companyId) == ExistingTenant([owner][1..], owner.companyId);
  }
}
