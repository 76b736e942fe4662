/** The route handlers of the lost-and-found server, each a pure transition from the
    state before a request to a response and the state after it. */
module Server {
  import opened Wrappers
  import opened Seqs
  import opened Store

  /** The fields of the found-item form. */
  datatype ItemForm = ItemForm(
    itemName: string,
    description: string,
    category: string,
    date: string,
    name: string,
    email: string)

  /** The fields of the claim/inquiry form; `itemId` is already parsed. */
  datatype ClaimForm = ClaimForm(
    itemId: Option<int>,
    name: string,
    email: string,
    requestType: string,
    message: string)

  /** JSON bodies: the public listing, and the admin's view of both collections. */
  datatype Payload = ItemList(items: seq<Item>) | Dashboard(items: seq<Item>, claims: seq<Claim>)

  /** What a handler sends back: a redirect, a status with a plain-text body, a bare
      200 acknowledgement, or a JSON body. */
  datatype Response =
    | Redirect(location: string)
    | Text(code: int, message: string)
    | Acknowledge
    | Json(payload: Payload)
  {
    function Code(): int {
      match this
      case Redirect(_) => 302
      case Text(code, _) => code
      case Acknowledge => 200
      case Json(_) => 200
    }
  }

  /** A handler's result: the response and the state the next request sees. */
  datatype Step = Step(response: Response, next: State)

  const Forbidden: Response := Text(403, "Not authorized")
  const ClaimNotFound: Response := Text(404, "Claim not found")
  const WrongPassword: Response := Text(200, "Wrong password")

  /** Position of the first item with id `id`, as `items.find` locates it. */
  function ItemIndex(items: seq<Item>, id: int): (r: Option<nat>)
    ensures r.None? <==> forall k :: 0 <= k < |items| ==> items[k].id != id
    ensures forall k :: FirstItemWith(items, id, k) <==> r == Some(k)
  {
    FindFirst(items, (i: Item) => i.id == id)
  }

  /** Position of the first claim with id `id`, as `claims.find` locates it. */
  function ClaimIndex(claims: seq<Claim>, id: int): (r: Option<nat>)
    ensures r.None? <==> forall k :: 0 <= k < |claims| ==> claims[k].id != id
    ensures forall k :: FirstClaimWith(claims, id, k) <==> r == Some(k)
  {
    FindFirst(claims, (c: Claim) => c.id == id)
  }

  /** The items whose id differs from `target`; a None target (NaN) differs from every id. */
  function WithoutItem(items: seq<Item>, target: Option<int>): (r: seq<Item>)
    ensures forall i :: i in r <==> i in items && Some(i.id) != target
    ensures forall i :: multiset(r)[i] == if Some(i.id) != target then multiset(items)[i] else 0
  {
    Filter(items, (i: Item) => Some(i.id) != target)
  }

  /** The items the public listing shows. */
  function PublicItems(items: seq<Item>): (r: seq<Item>)
    ensures forall i :: i in r <==> i in items && i.approved
    ensures forall i :: multiset(r)[i] == if i.approved then multiset(items)[i] else 0
  {
    Filter(items, (i: Item) => i.approved)
  }

  /** POST submit-item: append a new unapproved item numbered one past the current count. */
  function SubmitItem(s: State, form: ItemForm, upload: Option<string>): (out: Step)
    ensures out.response == Redirect("/search.html")
    ensures out.next.claims == s.claims && out.next.isAdmin == s.isAdmin
    ensures |out.next.items| == |s.items| + 1
    ensures out.next.items[..|s.items|] == s.items
    ensures out.next.items[|s.items|].id == |s.items| + 1
    ensures !out.next.items[|s.items|].approved
    ensures out.next.items[|s.items|].photo == upload
    ensures out.next.items[|s.items|].name == form.itemName
    ensures out.next.items[|s.items|].description == form.description
    ensures out.next.items[|s.items|].category == form.category
    ensures out.next.items[|s.items|].date == form.date
    ensures out.next.items[|s.items|].studentName == form.name
    ensures out.next.items[|s.items|].studentEmail == form.email
  {
    var item := Item(
      |s.items| + 1,
      form.itemName,
      form.description,
      form.category,
      form.date,
      form.name,
      form.email,
      upload,
      false);
    Step(Redirect("/search.html"), s.(items := s.items + [item]))
  }

  /** GET items: the approved items, in insertion order; nothing changes. */
  function ListApproved(s: State): (out: Step)
    ensures out.next == s
    ensures out.response.Json? && out.response.payload.ItemList?
    ensures forall i :: i in out.response.payload.items <==> i in s.items && i.approved
    ensures forall i: Item :: i.approved ==> multiset(out.response.payload.items)[i] == multiset(s.items)[i]
  {
    Step(Json(ItemList(PublicItems(s.items))), s)
  }

  /** POST submit-claim: append a pending claim numbered one past the current count. The
      item id is not checked against the items. */
  function SubmitClaim(s: State, form: ClaimForm): (out: Step)
    ensures out.response == Redirect("/search.html")
    ensures out.next.items == s.items && out.next.isAdmin == s.isAdmin
    ensures |out.next.claims| == |s.claims| + 1
    ensures out.next.claims[..|s.claims|] == s.claims
    ensures out.next.claims[|s.claims|].id == |s.claims| + 1
    ensures out.next.claims[|s.claims|].status == Pending
    ensures out.next.claims[|s.claims|].itemId == form.itemId
    ensures out.next.claims[|s.claims|].kind == form.requestType
    ensures out.next.claims[|s.claims|].name == form.name
    ensures out.next.claims[|s.claims|].email == form.email
    ensures out.next.claims[|s.claims|].message == form.message
  {
    var claim := Claim(
      |s.claims| + 1,
      form.itemId,
      form.name,
      form.email,
      form.requestType,
      form.message,
      Pending);
    Step(Redirect("/search.html"), s.(claims := s.claims + [claim]))
  }

  /** POST approve-claim/{id}: admin only. Marks the first claim with that id approved and,
      when it is of kind "claim", drops every item with the claimed item id. */
  function ApproveClaim(s: State, id: int): (out: Step)
    ensures !s.isAdmin ==> out == Step(Forbidden, s)
    ensures s.isAdmin && (forall k :: 0 <= k < |s.claims| ==> s.claims[k].id != id) ==>
      out == Step(ClaimNotFound, s)
    ensures forall k | FirstClaimWith(s.claims, id, k) :: s.isAdmin ==>
      && out.response == Acknowledge
      && out.next.isAdmin
      && out.next.claims == s.claims[k := s.claims[k].(status := Approved)]
      && (s.claims[k].kind != ClaimKind ==> out.next.items == s.items)
      && (s.claims[k].kind == ClaimKind ==>
            forall i :: i in out.next.items <==> i in s.items && Some(i.id) != s.claims[k].itemId)
      && (s.claims[k].kind == ClaimKind ==>
            forall i :: multiset(out.next.items)[i] ==
              if Some(i.id) != s.claims[k].itemId then multiset(s.items)[i] else 0)
  {
    if !s.isAdmin then Step(Forbidden, s)
    else
      match ClaimIndex(s.claims, id)
      case None => Step(ClaimNotFound, s)
      case Some(k) =>
        var claim := s.claims[k];
        var items := if claim.kind == ClaimKind then WithoutItem(s.items, claim.itemId) else s.items;
        Step(Acknowledge, s.(items := items, claims := s.claims[k := claim.(status := Approved)]))
  }

  /** POST reject-claim/{id}: admin only. Marks the first claim with that id rejected,
      whatever its status was, and touches nothing else. */
  function RejectClaim(s: State, id: int): (out: Step)
    ensures !s.isAdmin ==> out == Step(Forbidden, s)
    ensures s.isAdmin && (forall k :: 0 <= k < |s.claims| ==> s.claims[k].id != id) ==>
      out == Step(ClaimNotFound, s)
    ensures forall k | FirstClaimWith(s.claims, id, k) :: s.isAdmin ==>
      out == Step(Acknowledge, s.(claims := s.claims[k := s.claims[k].(status := Rejected)]))
  {
    if !s.isAdmin then Step(Forbidden, s)
    else
      match ClaimIndex(s.claims, id)
      case None => Step(ClaimNotFound, s)
      case Some(k) =>
        Step(Acknowledge, s.(claims := s.claims[k := s.claims[k].(status := Rejected)]))
  }

  /** POST admin-login: the exact admin password sets the session's admin flag; any other
      password leaves the session as it was. */
  function AdminLogin(s: State, password: string): (out: Step)
    ensures out.next.items == s.items && out.next.claims == s.claims
    ensures out.next.isAdmin <==> s.isAdmin || password == AdminPassword
    ensures password == AdminPassword ==> out.response == Redirect("/admin-dashboard")
    ensures password != AdminPassword ==> out == Step(WrongPassword, s)
  {
    if password == AdminPassword then
      Step(Redirect("/admin-dashboard"), s.(isAdmin := true))
    else
      Step(WrongPassword, s)
  }

  /** GET admin-data: admin only; both collections, unfiltered. */
  function AdminData(s: State): (out: Step)
    ensures out.next == s
    ensures !s.isAdmin ==> out.response == Forbidden
    ensures s.isAdmin ==> out.response == Json(Dashboard(s.items, s.claims))
  {
    if !s.isAdmin then Step(Forbidden, s)
    else Step(Json(Dashboard(s.items, s.claims)), s)
  }

  /** POST approve-item/{id}: admin only. Marks the first item with that id approved; answers
      200 whether or not such an item exists. */
  function ApproveItem(s: State, id: int): (out: Step)
    ensures !s.isAdmin ==> out == Step(Forbidden, s)
    ensures s.isAdmin ==> out.response == Acknowledge
    ensures s.isAdmin && (forall k :: 0 <= k < |s.items| ==> s.items[k].id != id) ==> out.next == s
    ensures forall k | FirstItemWith(s.items, id, k) :: s.isAdmin ==>
      out.next == s.(items := s.items[k := s.items[k].(approved := true)])
  {
    if !s.isAdmin then Step(Forbidden, s)
    else
      match ItemIndex(s.items, id)
      case None => Step(Acknowledge, s)
      case Some(k) => Step(Acknowledge, s.(items := s.items[k := s.items[k].(approved := true)]))
  }

  /** POST delete-item/{id}: admin only. Drops every item with that id; answers 200 even when
      there is none, and then changes nothing. */
  function DeleteItem(s: State, id: int): (out: Step)
    ensures !s.isAdmin ==> out == Step(Forbidden, s)
    ensures s.isAdmin ==> out.response == Acknowledge
    ensures out.next.claims == s.claims && out.next.isAdmin == s.isAdmin
    ensures s.isAdmin ==> forall i :: i in out.next.items <==> i in s.items && i.id != id
    ensures s.isAdmin ==> forall i :: multiset(out.next.items)[i] == if i.id != id then multiset(s.items)[i] else 0
    ensures s.isAdmin && (forall k :: 0 <= k < |s.items| ==> s.items[k].id != id) ==> out.next == s
  {
    if !s.isAdmin then Step(Forbidden, s)
    else
      var items := WithoutItem(s.items, Some(id));
      DropNothing(s.items, Some(id));
      Step(Acknowledge, s.(items := items))
  }

  /** Dropping an id that no item carries leaves the items as they were. */
  lemma DropNothing(items: seq<Item>, target: Option<int>)
    ensures (forall k :: 0 <= k < |items| ==> Some(items[k].id) != target) ==>
      WithoutItem(items, target) == items
  {
    if forall k :: 0 <= k < |items| ==> Some(items[k].id) != target {
      FilterKeepsAll(items, (i: Item) => Some(i.id) != target);
    }
  }
}
