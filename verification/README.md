# Lost-and-found server: item and claim lifecycle

This project models the request handlers of a small lost-and-found web server in Dafny.
Students post found items. Other students post claims ("this is mine") or inquiries against
those items. An administrator approves items for the public listing and approves or rejects
claims. Approving a claim of type `"claim"` removes the item it names.

The server keeps two in-memory arrays, `items` and `claims`, and a per-session `isAdmin`
flag. Each route handler is modelled as a pure function from a `State` (items, claims,
admin flag) to a `Step`: the response it sends and the state the next request sees.

- `Wrappers.dfy`: `Option`, used for a missing photo, a NaN item id and a failed lookup.
- `Seqs.dfy`: `Filter` models `Array.prototype.filter` and `FindFirst` models `find`.
  Both are stated with their meaning and proved.
- `Store.dfy`: the `Item`, `Claim`, `Status` and `State` records, the initial state, the
  claim type `"claim"` and the admin password `"admin123"`.
- `Server.dfy`: one function per route, with the response codes and effects in its contract.
- `Lifecycle.dfy`: a `Request` type, the dispatcher `Handle`, runs of requests from the
  initial state, the invariants of reachable states, and lemmas that relate several requests.
  These cover idempotence, reject after approve, listing order and visibility.
- `Scenarios.dfy`: concrete runs from the empty server.

The model follows the code's behaviour, including where a stricter design might be expected:

- Item ids are `items.length + 1`, so an id can be issued again after a deletion.
  `Scenarios.ItemIdsCanRepeat` exhibits such a run. Item ids are therefore not proved unique.
  Claim ids are proved unique, because claims are never removed.
- approve-item answers 200 even when no item has the id. There is no not-found answer.
- approve-item marks only the first item with the id. delete-item and claim approval
  remove every item with the id.
- The claim type is kept verbatim as a string, not as a two-value enumeration. Only the
  exact string `"claim"` removes an item.
- A wrong password leaves an existing admin flag set.

## Model

| member | source | states |
|---|---|---|
| Seqs.Filter | server.js:68 | The result holds exactly the elements that pass the test, each as often as in the input, and is no longer than the input |
| Seqs.FilterConcat | server.js:68 | Filtering a concatenation is the concatenation of the filtered parts, so kept elements keep their order |
| Seqs.FilterKeepsAll | server.js:104 | A filter that every element passes returns the array unchanged |
| Seqs.FindFirst | server.js:97 | Returns the first position whose element passes the test, or None exactly when no element passes |
| Server.ItemIndex | server.js:165 | Returns None exactly when no item has the id; otherwise returns the position of the first item with that id |
| Server.ClaimIndex | server.js:97 | Returns None exactly when no claim has the id; otherwise returns the position of the first claim with that id |
| Server.WithoutItem | server.js:104 | Keeps exactly the items whose id differs from the target, with their multiplicities; a NaN target differs from every id |
| Server.PublicItems | server.js:68 | Keeps exactly the approved items, each as often as in the collection |
| Server.DropNothing | server.js:177 | Removing an id that no item carries leaves the items unchanged |
| Server.SubmitItem | server.js:46-62 | Appends one item with id = old count + 1, approved false, the uploaded photo name and the form's fields; earlier items, claims and the admin flag are unchanged; redirects to the search page |
| Server.ListApproved | server.js:67-70 | Answers JSON holding exactly the approved items, with their multiplicities, and leaves the state unchanged |
| Server.SubmitClaim | server.js:75-89 | Appends one pending claim with id = old claim count + 1, the parsed item id and the verbatim request type; items and earlier claims are unchanged |
| Server.ApproveClaim | server.js:94-108 | 403 and no change without the admin flag; 404 and no change for an unknown id; otherwise only the first matching claim becomes approved, and when its type is exactly "claim" exactly the items with a different id remain, each with as many copies as before; for any other type the items are unchanged |
| Server.RejectClaim | server.js:113-121 | 403 and no change without the admin flag; 404 and no change for an unknown id; otherwise only the first matching claim's status becomes rejected, whatever it was, and nothing else changes |
| Server.AdminLogin | server.js:126-135 | The admin flag is afterwards set iff it was set already or the password is exactly "admin123"; a wrong password changes nothing and answers "Wrong password" |
| Server.AdminData | server.js:151-157 | 403 without the admin flag; otherwise JSON with both collections unfiltered; never changes the state |
| Server.ApproveItem | server.js:162-169 | 403 and no change without the admin flag; otherwise always 200; only the first item with the id becomes approved, and nothing changes when none has it |
| Server.DeleteItem | server.js:174-179 | 403 and no change without the admin flag; otherwise always 200, and exactly the items with a different id remain, each with as many copies as before; nothing changes when no item has the id |
| Lifecycle.Handle | server.js:94-179 | Admin-only routes (`AdminOnly`: approve-claim, reject-claim, admin-data, approve-item, delete-item) answer 403 and change nothing without the flag, and only they answer 403; the flag is set afterwards iff it was set before or the request is a login with the exact password; only approve-claim and reject-claim answer 404 |
| Lifecycle.HandleKeepsClaims | server.js:75-121 | No request removes or moves a claim or changes anything in a claim but its status |
| Lifecycle.RunKeepsClaims | server.js:75-121 | Any run of requests keeps every existing claim at its position, up to its status |
| Lifecycle.HandleKeepsClaimIds | server.js:78 | Every request keeps the invariant that claim k has id k + 1 |
| Lifecycle.RunKeepsClaimIds | server.js:78 | Every run from a state with sequential claim ids ends in such a state |
| Lifecycle.ReachableClaimIds | server.js:78 | In every state reachable from the empty server (`Run` from `Initial`: requests served one after another), claim k has id k + 1 |
| Lifecycle.ReachableClaimIdsFresh | server.js:78 | In every reachable state claim ids are unique, and a new claim's id exceeds every existing one |
| Lifecycle.ClaimLookupBySequentialId | server.js:97 | With sequential ids, looking up id n finds claim n - 1 when 1 <= n <= count, and nothing otherwise |
| Lifecycle.ApproveClaimIdempotent | server.js:94-108 | Approving the same claim twice gives the same response and state as approving it once, even when the item is already gone |
| Lifecycle.RejectClaimIdempotent | server.js:113-121 | Rejecting the same claim twice gives the same response and state as rejecting it once |
| Lifecycle.RejectAfterApprove | server.js:119 | Rejecting an approved claim only overwrites its status; an item the approval removed stays removed |
| Lifecycle.ApprovedClaimRemovesItem | server.js:103-105 | After approving a claim of type "claim" with item id n, no item with id n remains |
| Lifecycle.ApproveItemIdempotent | server.js:162-169 | Approving the same item twice gives the same response and state as approving it once |
| Lifecycle.DeleteItemIdempotent | server.js:174-179 | Deleting the same id twice gives the same response and state as deleting it once |
| Lifecycle.SubmittedItemHidden | server.js:46-70 | A newly submitted item does not change the public listing |
| Lifecycle.ListingKeepsOrder | server.js:67-70 | The listing of a collection made of two parts lists the first part's approved items before the second's |
| Lifecycle.ApprovedItemListed | server.js:162-169 | The item an admin approves appears in the public listing in its approved form |
| Scenarios.ClaimScenario | server.js:46-108 | Submit an item, claim it, log in, approve the item, then approve the claim: no items remain and claim 1 is approved |
| Scenarios.ListingScenario | server.js:46-70 | With two submitted items of which only item 2 is approved, the listing is exactly item 2 |
| Scenarios.ItemIdsCanRepeat | server.js:49 | Submitting two items, deleting item 1 and submitting again leaves two items that both have id 2 |

## Left out

- Express wiring is not modelled: middleware, static files, redirects beyond their target, `sendFile` and `app.listen`. They are transport only.
- The admin-dashboard page route is not modelled. It only serves an HTML file or redirects to the login page.
- Logout is not modelled. It destroys the session through the session library. No modelled request clears the admin flag.
- Session mechanics are not modelled. The model keeps one session's admin flag in the state next to the shared collections. Several concurrent sessions are not modelled.
- Photo upload storage is not modelled. The multer disk storage and its `Date.now()`-based file name are file I/O and the clock. The stored file name enters `SubmitItem` as an `Option<string>` parameter.
- JavaScript coercions are not modelled. `parseInt` arrives already applied: the claim form's item id is an `Option<int>`, with None for NaN. The route parameter is an `int`, so the loose `==`/`!=` between a number and a string becomes integer comparison.
- Form fields are not modelled as possibly undefined. A missing form field would be `undefined` in the server; the model gives every text field a string.
- JSON serialisation of responses is not modelled. A response carries the records themselves.
- Server.ApproveClaim: the contract states which items remain and how many copies of each. It does not restate their order. Order preservation of the underlying filter is proved separately in Seqs.FilterConcat.
- Server.DeleteItem: the contract states which items remain and how many copies of each, but not their order, for the same reason as Server.ApproveClaim.
- Server.SubmitItem: always appends an item. A failed upload in the multer middleware (for example a missing upload directory, or a file sent under another field name) makes the framework answer with an error before the handler runs, so no item is created; that failure path is not modelled.
