/** Concrete runs of the server from its initial state. */
module Scenarios {
  import opened Wrappers
  import opened Seqs
  import opened Store
  import opened Server
  import opened Lifecycle

  const Found: ItemForm := ItemForm("Blue umbrella", "Left in room 12", "Accessories", "2024-03-01", "Sam", "sam@school.edu")
  const Owner: ClaimForm := ClaimForm(Some(1), "Alex", "alex@school.edu", ClaimKind, "It is mine")

  /** The item `Found` becomes when it is submitted as item `id` without a photo. */
  function Posted(id: int): (r: Item)
    ensures r.id == id && r.photo == None && !r.approved
  {
    Item(id, Found.itemName, Found.description, Found.category, Found.date, Found.name, Found.email, None, false)
  }

  const OwnerClaim: Claim := Claim(1, Some(1), Owner.name, Owner.email, Owner.requestType, Owner.message, Pending)

  /** The claim scenario's states after each request, as explicit values. */
  lemma ClaimScenarioSteps()
    ensures Handle(Initial, PostItem(Found, None)).next == State([Posted(1)], [], false)
    ensures Handle(State([Posted(1)], [], false), PostClaim(Owner)).next == State([Posted(1)], [OwnerClaim], false)
    ensures Handle(State([Posted(1)], [OwnerClaim], false), PostAdminLogin(AdminPassword)).next == State([Posted(1)], [OwnerClaim], true)
    ensures Handle(State([Posted(1)], [OwnerClaim], true), PostApproveItem(1)).next
      == State([Posted(1).(approved := true)], [OwnerClaim], true)
  {
    assert FirstItemWith([Posted(1)], 1, 0);
  }

  /** Approving the owner's claim on the approved item removes it. */
  lemma ClaimScenarioApproval()
    ensures Handle(State([Posted(1).(approved := true)], [OwnerClaim], true), PostApproveClaim(1)).next
      == State([], [OwnerClaim.(status := Approved)], true)
  {
    var s := State([Posted(1).(approved := true)], [OwnerClaim], true);
    assert FirstClaimWith(s.claims, 1, 0);
    var items := ApproveClaim(s, 1).next.items;
    assert items == WithoutItem(s.items, Some(1));
    FilterKeepsNone(s.items, (i: Item) => Some(i.id) != Some(1));
  }

  /** Submit an item, claim it, log in, approve the item, approve the claim: the item is
      gone and the claim is approved. */
  lemma ClaimScenario()
    ensures var s := Run(Initial, [PostItem(Found, None), PostClaim(Owner), PostAdminLogin(AdminPassword),
                                   PostApproveItem(1), PostApproveClaim(1)]);
      s.items == [] && |s.claims| == 1 && s.claims[0].id == 1 && s.claims[0].status == Approved
  {
    ClaimScenarioSteps();
    ClaimScenarioApproval();
    var s1 := State([Posted(1)], [], false);
    var s2 := State([Posted(1)], [OwnerClaim], false);
    var s3 := State([Posted(1)], [OwnerClaim], true);
    var s4 := State([Posted(1).(approved := true)], [OwnerClaim], true);
    var s5 := State([], [OwnerClaim.(status := Approved)], true);
    RunFirst(s4, PostApproveClaim(1), []);
    RunFirst(s3, PostApproveItem(1), [PostApproveClaim(1)]);
    RunFirst(s2, PostAdminLogin(AdminPassword), [PostApproveItem(1), PostApproveClaim(1)]);
    RunFirst(s1, PostClaim(Owner), [PostAdminLogin(AdminPassword), PostApproveItem(1), PostApproveClaim(1)]);
    RunFirst(Initial, PostItem(Found, None), [PostClaim(Owner), PostAdminLogin(AdminPassword), PostApproveItem(1), PostApproveClaim(1)]);
    assert Run(Initial, [PostItem(Found, None), PostClaim(Owner), PostAdminLogin(AdminPassword),
                         PostApproveItem(1), PostApproveClaim(1)]) == s5;
  }

  /** Two items, only the second approved: the public listing is exactly the second. */
  lemma ListingScenario()
    ensures var s := Run(Initial, [PostItem(Found, None), PostItem(Found, Some("2.jpg")),
                                   PostAdminLogin(AdminPassword), PostApproveItem(2)]);
      |s.items| == 2 && ListApproved(s).response == Json(ItemList([s.items[1]])) && s.items[1].id == 2
  {
    var s1 := SubmitItem(Initial, Found, None).next;
    var s2 := SubmitItem(s1, Found, Some("2.jpg")).next;
    assert |s2.items| == 2 && s2.items[1].id == 2 && s2.items[0].id == 1 && !s2.items[0].approved;
    var s3 := AdminLogin(s2, AdminPassword).next;
    assert s3 == s2.(isAdmin := true);
    assert FirstItemWith(s3.items, 2, 1);
    var s4 := ApproveItem(s3, 2).next;
    assert s4.items == s3.items[1 := s3.items[1].(approved := true)];
    RunFirst(s3, PostApproveItem(2), []);
    RunFirst(s2, PostAdminLogin(AdminPassword), [PostApproveItem(2)]);
    RunFirst(s1, PostItem(Found, Some("2.jpg")), [PostAdminLogin(AdminPassword), PostApproveItem(2)]);
    RunFirst(Initial, PostItem(Found, None), [PostItem(Found, Some("2.jpg")), PostAdminLogin(AdminPassword), PostApproveItem(2)]);
    assert Run(Initial, [PostItem(Found, None), PostItem(Found, Some("2.jpg")),
                         PostAdminLogin(AdminPassword), PostApproveItem(2)]) == s4;
    assert |s4.items| == 2 && !s4.items[0].approved && s4.items[1].approved;
    ListedSecondOfTwo(s4);
  }

  /** Of two items of which only the second is approved, the listing is the second. */
  lemma ListedSecondOfTwo(s: State)
    requires |s.items| == 2 && !s.items[0].approved && s.items[1].approved
    ensures ListApproved(s).response == Json(ItemList([s.items[1]]))
  {
    var keep := (i: Item) => i.approved;
    var front, back := [s.items[0]], [s.items[1]];
    assert s.items == front + back;
    FilterConcat(front, back, keep);
    FilterKeepsNone(front, keep);
    FilterKeepsAll(back, keep);
    assert PublicItems(s.items) == back;
  }

  /** The duplicate-id run's states after each request, as explicit values. */
  lemma RepeatSteps()
    ensures Handle(Initial, PostItem(Found, None)).next == State([Posted(1)], [], false)
    ensures Handle(State([Posted(1)], [], false), PostItem(Found, None)).next == State([Posted(1), Posted(2)], [], false)
    ensures Handle(State([Posted(1), Posted(2)], [], false), PostAdminLogin(AdminPassword)).next == State([Posted(1), Posted(2)], [], true)
    ensures Handle(State([Posted(2)], [], true), PostItem(Found, None)).next == State([Posted(2), Posted(2)], [], true)
  {
  }

  /** Dropping id 1 from items 1 and 2 keeps item 2. */
  lemma DropFirstOfTwo()
    ensures WithoutItem([Posted(1), Posted(2)], Some(1)) == [Posted(2)]
  {
    var keep := (i: Item) => Some(i.id) != Some(1);
    assert [Posted(1), Posted(2)] == [Posted(1)] + [Posted(2)];
    FilterConcat([Posted(1)], [Posted(2)], keep);
    FilterKeepsNone([Posted(1)], keep);
    FilterKeepsAll([Posted(2)], keep);
  }

  /** Deleting item 1 of items 1 and 2 leaves item 2. */
  lemma RepeatDeletion()
    ensures Handle(State([Posted(1), Posted(2)], [], true), PostDeleteItem(1)).next == State([Posted(2)], [], true)
  {
    DropFirstOfTwo();
  }

  /** Item ids are not unique: after two submissions and the deletion of item 1, the next
      submission is numbered 2 again, beside the surviving item 2. */
  lemma ItemIdsCanRepeat()
    ensures var s := Run(Initial, [PostItem(Found, None), PostItem(Found, None),
                                   PostAdminLogin(AdminPassword), PostDeleteItem(1), PostItem(Found, None)]);
      |s.items| == 2 && s.items[0].id == 2 && s.items[1].id == 2
  {
    RepeatSteps();
    RepeatDeletion();
    var s1 := State([Posted(1)], [], false);
    var s2 := State([Posted(1), Posted(2)], [], false);
    var s3 := State([Posted(1), Posted(2)], [], true);
    var s4 := State([Posted(2)], [], true);
    var s5 := State([Posted(2), Posted(2)], [], true);
    RunFirst(s4, PostItem(Found, None), []);
    RunFirst(s3, PostDeleteItem(1), [PostItem(Found, None)]);
    RunFirst(s2, PostAdminLogin(AdminPassword), [PostDeleteItem(1), PostItem(Found, None)]);
    RunFirst(s1, PostItem(Found, None), [PostAdminLogin(AdminPassword), PostDeleteItem(1), PostItem(Found, None)]);
    RunFirst(Initial, PostItem(Found, None), [PostItem(Found, None), PostAdminLogin(AdminPassword), PostDeleteItem(1), PostItem(Found, None)]);
    assert Run(Initial, [PostItem(Found, None), PostItem(Found, None),
                         PostAdminLogin(AdminPassword), PostDeleteItem(1), PostItem(Found, None)]) == s5;
  }
}
