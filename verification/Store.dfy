/** The records the lost-and-found server keeps in memory: found items, claims and
    inquiries made against them, and the admin flag of the session making the request. */
module Store {
  import opened Wrappers

  /** A found item as posted on the submission form. `photo` is the name under which the
      uploaded photo was stored, or None when no photo was attached. */
  datatype Item = Item(
    id: int,
    name: string,
    description: string,
    category: string,
    date: string,
    studentName: string,
    studentEmail: string,
    photo: Option<string>,
    approved: bool)

  /** The only three status values the server ever writes into a claim. */
  datatype Status = Pending | Approved | Rejected

  /** A claim or an inquiry against an item. `itemId` is the parsed item id (None where
      parsing gave NaN); `kind` is the request type exactly as the form sent it. */
  datatype Claim = Claim(
    id: int,
    itemId: Option<int>,
    name: string,
    email: string,
    kind: string,
    message: string,
    status: Status)

  /** The two in-memory collections and the session's admin flag. */
  datatype State = State(items: seq<Item>, claims: seq<Claim>, isAdmin: bool)

  /** Both collections empty, nobody logged in: the state the server starts in. */
  const Initial: State := State([], [], false)

  /** The one request type whose approval removes the item the claim names. */
  const ClaimKind: string := "claim"

  /** The fixed secret that admin login compares against. */
  const AdminPassword: string := "admin123"

  /** `k` is the position of the first item whose id is `id`. */
  predicate FirstItemWith(items: seq<Item>, id: int, k: int) {
    && 0 <= k < |items|
    && items[k].id == id
    && forall j :: 0 <= j < k ==> items[j].id != id
  }

  /** `k` is the position of the first claim whose id is `id`. */
  predicate FirstClaimWith(claims: seq<Claim>, id: int, k: int) {
    && 0 <= k < |claims|
    && claims[k].id == id
    && forall j :: 0 <= j < k ==> claims[j].id != id
  }
}
