/** Requests as a single type, runs of requests from the empty server, and the properties
    of the item/claim lifecycle that relate several requests. */
module Lifecycle {
  import opened Wrappers
  import opened Seqs
  import opened Store
  import opened Server

  /** One request to one of the modelled routes. */
  datatype Request =
    | PostItem(form: ItemForm, upload: Option<string>)
    | GetItems
    | PostClaim(claimForm: ClaimForm)
    | PostApproveClaim(id: int)
    | PostRejectClaim(id: int)
    | PostAdminLogin(password: string)
    | GetAdminData
    | PostApproveItem(id: int)
    | PostDeleteItem(id: int)

  /** The routes that check the session's admin flag first. */
  predicate AdminOnly(req: Request) {
    req.PostApproveClaim? || req.PostRejectClaim? || req.GetAdminData?
    || req.PostApproveItem? || req.PostDeleteItem?
  }

  /** Routes a request to its handler. Admin-only routes refuse a session without the
      flag and change nothing; only the exact admin password raises the flag, and nothing
      lowers it. */
  function Handle(s: State, req: Request): (out: Step)
    ensures AdminOnly(req) && !s.isAdmin ==> out == Step(Forbidden, s)
    ensures out.next.isAdmin <==> s.isAdmin || req == PostAdminLogin(AdminPassword)
    ensures out.response.Code() in {200, 302, 403, 404}
    ensures out.response.Code() == 403 <==> AdminOnly(req) && !s.isAdmin
    ensures out.response.Code() == 404 ==> req.PostApproveClaim? || req.PostRejectClaim?
  {
    match req
    case PostItem(form, upload) => SubmitItem(s, form, upload)
    case GetItems => ListApproved(s)
    case PostClaim(form) => SubmitClaim(s, form)
    case PostApproveClaim(id) => ApproveClaim(s, id)
    case PostRejectClaim(id) => RejectClaim(s, id)
    case PostAdminLogin(password) => AdminLogin(s, password)
    case GetAdminData => AdminData(s)
    case PostApproveItem(id) => ApproveItem(s, id)
    case PostDeleteItem(id) => DeleteItem(s, id)
  }

  /** The state after serving `reqs` in order, starting from `s`. */
  function Run(s: State, reqs: seq<Request>): (r: State)
    decreases |reqs|
  {
    if |reqs| == 0 then s else Run(Handle(s, reqs[0]).next, reqs[1..])
  }

  /** Claim k carries id k + 1. */
  ghost predicate ClaimIdsSequential(claims: seq<Claim>) {
    forall k :: 0 <= k < |claims| ==> claims[k].id == k + 1
  }

  /** `after` holds every claim of `before`, at the same position, with only its status
      possibly changed. */
  ghost predicate ClaimsKept(before: seq<Claim>, after: seq<Claim>) {
    && |before| <= |after|
    && forall k :: 0 <= k < |before| ==> after[k] == before[k].(status := after[k].status)
  }

  /** No request removes a claim or changes anything in one but its status. */
  lemma HandleKeepsClaims(s: State, req: Request)
    ensures ClaimsKept(s.claims, Handle(s, req).next.claims)
  {
  }

  /** Serving any requests keeps every existing claim, at its position, up to status. */
  lemma {:induction false} RunKeepsClaims(s: State, reqs: seq<Request>)
    ensures ClaimsKept(s.claims, Run(s, reqs).claims)
    decreases |reqs|
  {
    if |reqs| != 0 {
      var s' := Handle(s, reqs[0]).next;
      HandleKeepsClaims(s, reqs[0]);
      RunKeepsClaims(s', reqs[1..]);
    }
  }

  /** Every request keeps claim ids sequential. */
  lemma HandleKeepsClaimIds(s: State, req: Request)
    requires ClaimIdsSequential(s.claims)
    ensures ClaimIdsSequential(Handle(s, req).next.claims)
  {
    HandleKeepsClaims(s, req);
  }

  /** Every run keeps claim ids sequential. */
  lemma {:induction false} RunKeepsClaimIds(s: State, reqs: seq<Request>)
    requires ClaimIdsSequential(s.claims)
    ensures ClaimIdsSequential(Run(s, reqs).claims)
    decreases |reqs|
  {
    if |reqs| != 0 {
      HandleKeepsClaimIds(s, reqs[0]);
      RunKeepsClaimIds(Handle(s, reqs[0]).next, reqs[1..]);
    }
  }

  /** In every state the server can reach, claim k has id k + 1: claim ids are unique, the
      claim with id n sits at position n - 1, and the next claim's id exceeds them all. */
  lemma ReachableClaimIds(reqs: seq<Request>)
    ensures ClaimIdsSequential(Run(Initial, reqs).claims)
  {
    RunKeepsClaimIds(Initial, reqs);
  }

  /** In every reachable state claim ids are unique, and a newly submitted claim gets an id
      larger than every id already issued. */
  lemma ReachableClaimIdsFresh(reqs: seq<Request>, form: ClaimForm)
    ensures var claims := Run(Initial, reqs).claims;
      forall j, k :: 0 <= j < k < |claims| ==> claims[j].id != claims[k].id
    ensures var s := Run(Initial, reqs);
      forall k :: 0 <= k < |s.claims| ==> s.claims[k].id < SubmitClaim(s, form).next.claims[|s.claims|].id
  {
    ReachableClaimIds(reqs);
  }

  /** With sequential ids, the claim that approve or reject acts on for id n is claim n - 1,
      and ids 0, negative or past the count find nothing. */
  lemma ClaimLookupBySequentialId(claims: seq<Claim>, id: int)
    requires ClaimIdsSequential(claims)
    ensures 1 <= id <= |claims| ==> ClaimIndex(claims, id) == Some(id - 1)
    ensures !(1 <= id <= |claims|) ==> ClaimIndex(claims, id) == None
  {
    if 1 <= id <= |claims| {
      assert FirstClaimWith(claims, id, id - 1);
    }
  }

  /** Approving a claim twice leaves the server exactly as approving it once, and the second
      call answers the same, even when the claimed item is already gone. */
  lemma ApproveClaimIdempotent(s: State, id: int)
    ensures ApproveClaim(ApproveClaim(s, id).next, id) == ApproveClaim(s, id)
  {
    var once := ApproveClaim(s, id);
    if s.isAdmin {
      match ClaimIndex(s.claims, id)
      case None =>
      case Some(k) =>
        var c := s.claims[k];
        assert FirstClaimWith(once.next.claims, id, k);
        if c.kind == ClaimKind {
          var keep := (i: Item) => Some(i.id) != c.itemId;
          assert once.next.items == Filter(s.items, keep);
          FilterKeepsAll(once.next.items, keep);
        }
    }
  }

  /** Rejecting a claim twice is the same as rejecting it once. */
  lemma RejectClaimIdempotent(s: State, id: int)
    ensures RejectClaim(RejectClaim(s, id).next, id) == RejectClaim(s, id)
  {
    if s.isAdmin {
      match ClaimIndex(s.claims, id)
      case None =>
      case Some(k) =>
        assert FirstClaimWith(RejectClaim(s, id).next.claims, id, k);
    }
  }

  /** Rejecting an approved claim only overwrites its status: an item removed by the
      approval stays removed. */
  lemma RejectAfterApprove(s: State, id: int, k: nat)
    requires s.isAdmin && FirstClaimWith(s.claims, id, k)
    ensures var approved := ApproveClaim(s, id).next;
      RejectClaim(approved, id).next == approved.(claims := approved.claims[k := approved.claims[k].(status := Rejected)])
  {
    assert FirstClaimWith(ApproveClaim(s, id).next.claims, id, k);
  }

  /** Approving a claim of kind "claim" leaves no item with the claimed id. */
  lemma ApprovedClaimRemovesItem(s: State, id: int, k: nat, itemId: int)
    requires s.isAdmin && FirstClaimWith(s.claims, id, k)
    requires s.claims[k].kind == ClaimKind && s.claims[k].itemId == Some(itemId)
    ensures forall j :: 0 <= j < |ApproveClaim(s, id).next.items| ==>
      ApproveClaim(s, id).next.items[j].id != itemId
  {
    var items := ApproveClaim(s, id).next.items;
    forall j | 0 <= j < |items|
      ensures items[j].id != itemId
    {
      assert items[j] in items;
    }
  }

  /** Approving an item twice is the same as approving it once. */
  lemma ApproveItemIdempotent(s: State, id: int)
    ensures ApproveItem(ApproveItem(s, id).next, id) == ApproveItem(s, id)
  {
    if s.isAdmin {
      match ItemIndex(s.items, id)
      case None =>
      case Some(k) =>
        assert FirstItemWith(ApproveItem(s, id).next.items, id, k);
    }
  }

  /** Deleting an item twice is the same as deleting it once. */
  lemma DeleteItemIdempotent(s: State, id: int)
    ensures DeleteItem(DeleteItem(s, id).next, id) == DeleteItem(s, id)
  {
    var once := DeleteItem(s, id).next;
    if s.isAdmin {
      forall k | 0 <= k < |once.items|
        ensures once.items[k].id != id
      {
        assert once.items[k] in once.items;
      }
    }
  }

  /** A newly submitted item does not show in the public listing until it is approved. */
  lemma SubmittedItemHidden(s: State, form: ItemForm, upload: Option<string>)
    ensures ListApproved(SubmitItem(s, form, upload).next).response == ListApproved(s).response
  {
    var after := SubmitItem(s, form, upload).next;
    var keep := (i: Item) => i.approved;
    assert after.items == s.items + [after.items[|s.items|]];
    FilterConcat(s.items, [after.items[|s.items|]], keep);
    assert Filter([after.items[|s.items|]], keep) == [];
  }

  /** The public listing keeps insertion order: listing a collection made of two parts lists
      the first part's approved items before the second's. */
  lemma ListingKeepsOrder(s: State, front: seq<Item>, back: seq<Item>)
    requires s.items == front + back
    ensures ListApproved(s).response.payload.items
      == PublicItems(front) + PublicItems(back)
  {
    FilterConcat(front, back, (i: Item) => i.approved);
  }

  /** An item an admin approves is listed publicly, in its approved form. */
  lemma ApprovedItemListed(s: State, id: int, k: nat)
    requires s.isAdmin && FirstItemWith(s.items, id, k)
    ensures s.items[k].(approved := true) in ListApproved(ApproveItem(s, id).next).response.payload.items
  {
    var after := ApproveItem(s, id).next;
    assert after.items[k] == s.items[k].(approved := true);
    assert after.items[k] in after.items;
  }

  /** Serving `req` and then `rest` is serving `[req] + rest`. */
  lemma RunFirst(s: State, req: Request, rest: seq<Request>)
    ensures Run(s, [req] + rest) == Run(Handle(s, req).next, rest)
  {
    assert ([req] + rest)[1..] == rest;
  }
}
