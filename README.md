# Grid billboard marketplace — a Dafny model

This project models the server side of a marketplace that sells advertising tiles on a shared
20-column grid. Brands buy rectangular blocks and pay through a payment gateway. Whenever a
payment is confirmed, every paid block is re-packed onto the grid. The model's centre is that
reflow engine (`reflowAllBlocks` in `controller/brandController.js`):

- paid blocks are sorted by area, largest first, and equal areas newest first;
- each block takes the first free place in a row-major scan of an occupancy map, which is
  kept as rows of booleans that are flipped in place;
- each block is numbered `index + 1`;
- if a block does not fit, the run throws "Grid overflow" before anything is written.

The model proves these facts about reflow:

- no two paid blocks overlap, and every block lies inside the 20 columns;
- every placement is the first fit;
- the ordinals are dense;
- the run is idempotent;
- the sort is a stable, descending permutation of its input.

Around that engine the model covers the secondary cores of the repository, with one Dafny module
per source file or component:

- the per-cell auction (create, bid strictly above the highest, finalize);
- the grid-space lifecycle: reserve, nightly expiry, order and payment, and layout generation
  and regeneration by the admin;
- impression and click counters;
- the financial-year invoice numbering and the subscription-invoice sync;
- the export formatting (invoice-number string, India Standard Time shift, 12-hour clock);
- the brand-invoice merge and its listings;
- the query, sort and pagination builders of the listing endpoints;
- the access-control chain after token verification;
- the account, email and phone validators and the `saveEmail` normalisation;
- view counting and the seeding of block reasons.

Stores that the server changes in place (brand blocks, grid spaces, layouts, biddings,
transactions, invoices, users, view records) are Dafny classes. Their handlers are methods with
`modifies` clauses, each proved against a pure function of the old state. The facts that the
source promises are proved as lemmas about those functions.

Modelling choices:

- Mongo collections are sequences in insertion order.
- `now`, the calendar parts of a date, the outcome of a gateway or cloud call and the validity of
  a payment signature are parameters.
- Every thrown error is an `Outcome` value carrying its HTTP status and message.
- The global error handler in `app.js` answers every error with status 500. `App.ErrorResponse`
  states this, so the status carried inside an `ApiError` reaches the client only as its message.

Places where the model follows the code rather than its stated design:

- Equal areas are sorted newest first (`createdAt` descending), as the sort comparator does.
- Reflow numbers only the paid blocks. Unpaid blocks keep the "largest number + 1" from the
  pre-save hook in `model/BrandBlock.js`. Uniqueness of `orderNum` across all statuses is
  therefore not claimed.
- The register routes pass the whole validation module to `validate()`. `pick` then finds no
  schema keys, so no body field is checked. That is why a `role` in the request body wins over
  the admitted role (`AuthController.BodyRoleWins`).
- `/admin-register` admits a newcomer as an admin.
- Several handlers write or read paths that the schema in this snapshot does not declare. Every
  schema is strict, so such a write is dropped and such a path reads as missing on a loaded
  document. The model follows that:
  - `views` is never stored (see "Findings");
  - the display dates the purchase loop assigns are not stored (`Payments.Bought`);
  - the brand-detail edit answers the block unchanged (`BrandDetails.UpdateDetailsAsWritten`);
  - the `isDeleted` check of the firebase middleware never rejects (`FirebaseAuth.CheckMember`);
  - `purchasedAt`, which the layout listing reads from raw (`lean`) documents and no handler
    writes, is an input of `AdminService.LatestPurchase`.
- The brand-invoice sync merges `on: "orderNum"`, which the database accepts only with a unique
  index on `orderNum`. The schema declares none, so the model assumes the index was created in
  the database; an edit that would duplicate an order number then fails with a duplicate-key error.
- In `saveEmail`, the handler's own check accepts an address such as `a@b.c`, but the schema
  validator refuses it. The reply is then a 500, not a 400 (`SaveEmail.LooseCheckWitness`).
- A ".n" sub-invoice still consumes a number of the financial year's running sequence.
- `app.js` imports `service/invoiceSyncService.js`, which is not modelled. service/invoiceSyncService.js
  is not part of this model; the sync is modelled from `controller/subscriptionInvoceController.js`.

## Model

| member | source | states |
|---|---|---|
| Sorting.SortDescSorted | controller/brandController.js:20-27 | the sort orders its input by key, largest first |
| Sorting.SortDescPerm | controller/brandController.js:20-27 | the sorted list is a rearrangement of the input (same multiset) |
| Sorting.SortDescStable | controller/brandController.js:20-27 | `Array.prototype.sort` is stable: elements with equal keys keep their input order |
| Sorting.SortDescMembers | controller/brandController.js:20-27 | the sorted list holds exactly the input's elements |
| Sorting.SortDescNoDup | controller/brandController.js:20-27 | sorting a list without repeats repeats nothing |
| Sorting.SortDescMap | controller/brandController.js:20-27 | the sort depends on the keys alone: it commutes with any change that keeps every key |
| Packing.MaxRow | controller/brandController.js:38-40 | `maxOccupiedRow` is 0 when no row exists, otherwise a created row at least as large as every created row |
| Packing.AddRows | controller/brandController.js:57-60 | after claiming, the created rows are the old rows plus the rectangle's rows |
| Packing.ClaimNextRow | controller/brandController.js:57-64 | claiming a rectangle row by row creates each row and marks exactly that row's cells |
| Packing.FirstFitInRowSpec | controller/brandController.js:44-56 | the inner `xCand` scan returns a free column with no free column before it, or none when no column from the start is free |
| Packing.FirstFitSpec | controller/brandController.js:43-56 | the row-major scan (y outer, x inner) returns a free position with no earlier free position, or none when the whole scan range is taken |
| Packing.StepPlaced | controller/brandController.js:56-80 | a block with a position claims its cells and appends the update `x, y, xEnd = x+w, yEnd = y+h, orderNum` |
| Packing.RunNext | controller/brandController.js:32-88 | the placement loop extends a successful prefix by one block exactly as one iteration does |
| Packing.RunStuck | controller/brandController.js:85-87 | a block with no free position fails the whole run with that block's id |
| Packing.PlaceSucceeds | controller/brandController.js:38-43 | for `1 <= w <= 20` and `h >= 1` a position always exists: the row below every created row is inside `scanLimit` |
| Packing.PlaceFailsWhenTooWide | controller/brandController.js:44 | a block wider than 20 columns never gets a position |
| Packing.ClaimWf | controller/brandController.js:57-64 | claiming keeps every claimed cell inside a created, non-negative row |
| Packing.ExtendDisjoint | controller/brandController.js:45-64 | a rectangle whose cells were all checked free overlaps no earlier rectangle, and every claimed rectangle stays covered |
| Packing.StepOk | controller/brandController.js:56-80 | one placement keeps the map well formed and the rectangles apart, and appends a placement inside the columns with ordinal `n` |
| Packing.RunOk | controller/brandController.js:32-88 | a successful run gives one placement per block, in order, numbered `i + 1`, inside the grid, pairwise apart and all claimed |
| Packing.RunOkWhenAllFit | controller/brandController.js:38-87 | when every block has `1 <= w <= 20` and `h >= 1` the run never overflows |
| Packing.RunErrSticks | controller/brandController.js:85-87 | once a block fails, the run fails with that block (the throw ends the loop) |
| Packing.RunFailsIffTooWide | controller/brandController.js:43-87 | given the schema's `w, h >= 1`, the run overflows iff some block is wider than 20, and then it names the first such block |
| Packing.RunPrefix | controller/brandController.js:32-88 | placing later blocks never moves an earlier one |
| Packing.RunFirstFit | controller/brandController.js:43-80 | every block lands at the first free position of the scan over the cells of the blocks before it |
| Occupancy.OccupiedMap.constructor | controller/brandController.js:29 | `occupiedMap` starts with no rows and no claimed cell |
| Occupancy.OccupiedMap.MaxOccupiedRow | controller/brandController.js:38-40 | the method computes `MaxRow` of the row keys |
| Occupancy.OccupiedMap.IsFree | controller/brandController.js:45-55 | the nested loops report free iff no cell of the rectangle is claimed; a missing row reads as all `false` |
| Occupancy.OccupiedMap.EnsureRow | controller/brandController.js:58-60 | a missing row is created as 20 `false` flags; existing rows and cells are unchanged |
| Occupancy.OccupiedMap.FillRow | controller/brandController.js:61-63 | the flags of columns `x` to `x+w-1` of one row become `true`, and nothing else changes |
| Occupancy.OccupiedMap.Claim | controller/brandController.js:57-64 | the claim loops leave the map equal to `Packing.Claim` of the old map |
| Occupancy.ModelAddRow | controller/brandController.js:58-60 | adding a row of `false` flags adds a row key and claims nothing |
| Occupancy.ModelSetCell | controller/brandController.js:62 | setting one flag claims exactly that cell |
| Reflow.Paid | controller/brandController.js:18 | the query returns exactly the `success` blocks |
| Reflow.Pieces | controller/brandController.js:33-34 | each block contributes its id, `w` and `h`, in order |
| Reflow.UpdateOneAt | controller/brandController.js:66-77 | an `updateOne` rewrites the document whose `_id` it names and no other |
| Reflow.FindSlot | controller/brandController.js:37-83 | the labelled scan finds a position iff `Place` does, and the same one |
| Reflow.PlaceBlock | controller/brandController.js:32-87 | one loop iteration either extends the run by one placement or ends it with the block's id |
| Reflow.PackBlocks | controller/brandController.js:32-88 | the loop builds the run's batch of updates, or fails with the run's block id |
| Reflow.ReflowAllBlocks | controller/brandController.js:13-98 | on success the collection is the reflowed one; on overflow it names the block and nothing is written |
| Reflow.ApplyOpsKeepsIds | controller/brandController.js:90-92 | the bulk write changes no id and no document count |
| Reflow.ApplyOpsMiss | controller/brandController.js:90-92 | a document no update names is left as it was |
| Reflow.ApplyOpsHit | controller/brandController.js:90-92 | with distinct ids, the named document receives exactly its update |
| Reflow.PaidDistinct | controller/brandController.js:18 | the paid blocks of a collection with distinct ids have distinct ids |
| Reflow.SortedFacts | controller/brandController.js:18-27 | the reflow order lists every paid block once, largest key first |
| Reflow.PlanFacts | controller/brandController.js:32-88 | a successful packing numbers and places the reflow order in order |
| Reflow.LaidOut | controller/brandController.js:66-92 | a paid document takes the update of its position in the order; any other document is unchanged |
| Reflow.ReflowKeepsOthers | controller/brandController.js:18-77 | the reflow keeps every document and id in place, leaves unpaid documents untouched, and changes only `x, y, xEnd, yEnd, orderNum` of paid ones |
| Reflow.ReflowGeometry | controller/brandController.js:43-73 | every paid block gets `0 <= x <= 20-w`, `y >= 0`, `xEnd = x+w`, `yEnd = y+h` |
| Reflow.LayoutOrdinalRange | controller/brandController.js:35-74 | under a numbering batch every paid block gets an ordinal in 1..N |
| Reflow.LayoutOrdinalsDistinct | controller/brandController.js:35-74 | under a numbering batch no two paid blocks share an ordinal |
| Reflow.LayoutOrdinalsOnto | controller/brandController.js:35-74 | under a numbering batch every ordinal 1..N is used |
| Reflow.ReflowOrdinals | controller/brandController.js:32-74 | the N paid blocks receive exactly the ordinals 1..N, each once |
| Reflow.LayoutDisjoint | controller/brandController.js:45-64 | under a placing batch no two paid blocks share a cell |
| Reflow.ReflowDisjoint | controller/brandController.js:45-64 | after the reflow no two paid blocks share a cell |
| Reflow.ReflowOrder | controller/brandController.js:20-35 | a smaller ordinal goes to a larger area, or to an equal area created no earlier |
| Reflow.ReflowOverflow | controller/brandController.js:38-91 | given the schema bounds, the reflow fails iff a paid block is wider than 20, naming such a block, and nothing is written |
| Reflow.PaidUnplaced | controller/brandController.js:18 | the paid query commutes with clearing the fields a reflow writes |
| Reflow.PlanUnplaced | controller/brandController.js:18-35 | the packing input depends only on what a reflow does not write |
| Reflow.ReflowSamePlan | controller/brandController.js:18-88 | a reflowed collection packs exactly as the original did |
| Reflow.ReflowAgainAt | controller/brandController.js:66-92 | a second run writes each document's own position and ordinal again |
| Reflow.ReflowIdempotent | controller/brandController.js:13-98 | reflowing a reflowed collection changes nothing |
| BrandBlocks.Cast | model/BrandBlock.js:7-57 | the `trim: true` setters change only the text fields; ids, geometry, ordinal, status and logo are kept |
| BrandBlocks.CastIdempotent | model/BrandBlock.js:7-57 | trimming twice is trimming once |
| BrandBlocks.TopOrderNum | model/BrandBlock.js:129-133 | the descending `orderNum` lookup finds the largest stored ordinal, or none when no document has one |
| BrandBlocks.PreSave | model/BrandBlock.js:126-140 | a set `orderNum` is kept; an unset one becomes 1 on an empty collection, else one more than the largest stored; documents without any ordinal make the save fail (`NaN` cast) |
| BrandBlocks.Save | model/BrandBlock.js:2-140 | a save passes the schema validators (required strings, category enum, `1 <= w <= 20`, `h >= 1`, `0 <= x <= 19`, `y >= 0`) and then the pre-save hook |
| BrandBlocks.Lookup | controller/brandController.js:243 | `findById` finds the document with that id, or none |
| BrandBlocks.ReplaceById | controller/brandController.js:272 | saving a stored document replaces that document only |
| BrandBlocks.RemoveById | controller/brandController.js:263 | `deleteOne` removes the document with that id and keeps the others |
| BrandBlocks.RemoveKeepsDistinct | controller/brandController.js:263 | deleting keeps ids distinct |
| BrandBlocks.AppendFresh | controller/brandController.js:192-211 | a new document with a fresh id keeps ids distinct |
| BrandBlocks.ReplaceKeepsIds | controller/brandController.js:272 | replacing by id keeps every id |
| BrandBlocks.BrandBlockStore.constructor | model/BrandBlock.js:142 | the collection starts empty |
| BrandBlocks.BrandBlockStore.FindById | controller/brandController.js:243 | finds a document iff one has that id |
| BrandBlocks.BrandBlockStore.Create | controller/brandController.js:192-211 | the new document is cast, gets a fresh id, and is stored iff `Save` succeeds |
| BrandBlocks.BrandBlockStore.Update | controller/brandController.js:272 | the stored copy is replaced iff `Save` succeeds |
| BrandBlocks.BrandBlockStore.DeleteOne | controller/brandController.js:263 | the collection becomes `RemoveById` of the old one |
| BrandBlocks.BrandBlockStore.Overwrite | controller/brandController.js:90-92 | a batch of updates by id leaves the documents with the same ids in the same order |
| BrandController.Admit | controller/brandController.js:145-177 | 401 without a user; 400 for a mistyped field, `w` outside 1..20 or `h < 1`; otherwise the price `w*h*500` |
| BrandController.ConfirmAndShift | controller/brandController.js:130-236 | rejected requests store nothing; a failed order is a 500; an address or coordinate that does not cast is a 500 "Server error creating block." storing nothing; otherwise the block is saved (or a 500) and the answer carries the order, the amount in paise (`price*100`) and the block id |
| BrandController.SoundSave | model/BrandBlock.js:126-140 | in a collection where every block is valid and numbered, a save fails only on the schema and keeps the collection so |
| BrandController.PurchasedBlock | controller/brandController.js:175-211 | the stored purchase is an `initiated` block at `x = y = 0`, `xEnd = w`, `yEnd = h`, priced 500 per cell, owned by the caller, numbered, its location holding `[longitude, latitude]` as cast; it is refused exactly when the address or a coordinate does not cast, a trimmed text field is blank or the category is not listed |
| BrandController.PurchaseGeolocated | controller/brandController.js:186-189 | a stored purchase passes the geographic listing's non-null coordinate match exactly when both longitude and latitude were numbers |
| BrandController.Decide | controller/brandController.js:243-265 | 404 for an unknown block, 400 for an order mismatch or an already paid block, discard on a bad signature, accept otherwise |
| BrandController.Confirmed | controller/brandController.js:267-271 | only the payment id, status `success` and the amount in rupees (`paise / 100`) change |
| BrandController.VerifyPurchase | controller/brandController.js:238-288 | rejection writes nothing; a bad signature deletes the block with a 400; acceptance saves the payment and reflows, then answers the block as stored; every later failure is a 500 and a reflow failure leaves the payment recorded |
| BrandController.LookupAt | controller/brandController.js:276 | with distinct ids, looking up a document's id finds that document |
| BrandController.ReflowKeepsSound | controller/brandController.js:274 | a reflow of a valid collection never overflows and keeps every document within the schema bounds and numbered |
| BrandController.ReplaceKeepsSound | controller/brandController.js:272 | replacing a block by a valid, numbered one keeps the collection valid |
| BrandController.ReflowedLookup | controller/brandController.js:274-278 | after the reflow a paid block is found by id, keeps its payment fields and holds an ordinal among the paid blocks |
| BrandController.AcceptedPurchaseLands | controller/brandController.js:267-283 | in a valid collection an accepted confirmation always succeeds and answers the paid block with its payment id and an ordinal in 1..N |
| BrandController.GetAllBlocksSelects | controller/brandController.js:304-331 | the public listing has no payment-status condition; a country condition matches no block (blocks have no country); without conditions every block is listed |
| Queries.TrimAll | controller/jewlerController.js:40 | every comma piece is trimmed, in order |
| Queries.CategoryFilterOfSpec | controller/jewlerController.js:38-45 | a stored category passes iff it is the trimmed form of one of the comma pieces of the query value; a single value is the one-piece case |
| Queries.CategoryListAgrees | controller/brandInvoiceCotroller.js:86-91 | the invoice listing's always-`$in` list selects the same categories as the block listings' list-or-equality |
| Queries.BlocksFilter | controller/brandController.js:304-331 | the public listing filters city, state and country when given, and never on payment status |
| Queries.PanelFilterSpec | controller/panelController.js:22-51 | the panel filter always restricts the payment status, to `success` by default; it filters the city iff a city is given and `lat` and `lng` are not both given; otherwise it selects what the public filter selects |
| Queries.DefaultFiltersSelectAll | controller/jewlerController.js:14-54 | with only defaults the public listing selects every block and the panel listings exactly the paid ones |
| Queries.SortOption | controller/jewlerController.js:225-230 | the requested field (default `orderNum`) in the requested direction (`desc` iff order is `"desc"`), then `orderNum` ascending when the field is another one |
| Queries.SkipGap | controller/panelController.js:21 | each later page starts at least a full limit after an earlier one |
| Queries.SkipNonNegative | controller/jewlerController.js:23 | from page 1 on, the skip is never negative |
| Queries.PagesPartition | controller/jewlerController.js:23-250 | with a positive limit, pages 1..`ceil(total/limit)` partition the documents: each lies on exactly one page |
| Queries.Clamped | controller/jewlerController.js:21-22 | `Math.max(parseInt(v, 10) \|\| 1, 1)` is at least 1 |
| Queries.ClampedOfNumber | controller/jewlerController.js:21-22 | a written-out number is kept when positive and becomes 1 otherwise |
| Queries.ClampedOfJunk | controller/jewlerController.js:21-22 | text without a digit (NaN) becomes 1 |
| Queries.JewelerWindow | controller/jewlerController.js:17-23 | the jeweler window defaults to page 1 and 100 documents, clamps both, and never skips backwards |
| Queries.WindowsCompared | controller/panelController.js:15-21 | for written-out numbers the panel skip is `(page-1)*limit` unclamped, so a page of 0 or less skips backwards where the jeweler listing shows page 1; the two agree for positive values |
| Biddings.NewBidding | model/Bidding.js:28-70 | a new auction is `active` with no bids and no winner, and keeps the given space, dates, minimum and creator |
| Biddings.MaxAmount | model/Bidding.js:80 | `Math.max` over the bid amounts: no bid is above it and some bid equals it |
| Biddings.HighestBid | model/Bidding.js:76-81 | the minimum bid while there are no bids, otherwise the largest amount bid, even below the minimum |
| Biddings.RaiseHighest | model/Bidding.js:76-81 | a bid above the current highest becomes the new highest |
| Biddings.TopBid | controller/biddingController.js:286-287 | the head of the stable descending sort is the first bid with the largest amount |
| Biddings.TopBidUnique | controller/biddingController.js:286-287 | the winner is the one bid above every earlier bid and matched by no later one |
| Biddings.ExactlyOneAccepted | controller/biddingController.js:289-297 | with distinct bid ids exactly the winner is accepted, every other bid is rejected, and only statuses change |
| Biddings.SettleBids | controller/biddingController.js:289-297 | the loop marks the bid with the winner's id accepted and every other bid rejected |
| BiddingController.CheckBiddingRequest | controller/biddingController.js:21-38 | the request passes iff all fields are given and both dates parse and lie strictly in the future; every failure is a 400 |
| BiddingController.EndBeforeStartAccepted | controller/biddingController.js:24-38 | nothing compares the two dates: an end before the start is accepted |
| BiddingController.CreateBidding | controller/biddingController.js:17-88 | 404 for an unknown space, 400 for a purchased or bidding space or one with an active auction, nothing written on failure; otherwise a new auction starting `now` and the space set to `bidding` with `activeBidding` |
| BiddingController.CheckBid | controller/biddingController.js:93-122 | a bid passes iff both fields are truthy, the auction and space exist, the auction is active and the amount exceeds the highest bid; the failures after the lookups are 400, and a bid not above the highest is refused with "Bid amount must be greater than current highest bid: " followed by the highest bid as the number-to-text parameter renders it |
| BiddingController.PlaceBid | controller/biddingController.js:90-148 | on success only an initiated transaction of the bid amount is recorded and the order amount is `bidAmount*100`; failures write nothing |
| BiddingController.PlacedBidLeads | controller/biddingController.js:116-122 | a bid admitted by `placeBid` outbids every earlier bid |
| BiddingController.VerifyBidPayment | controller/biddingController.js:150-191 | 404 for an unknown order or auction; a bad signature marks the transaction failed; a good one marks it paid and appends one pending bid of the transaction's amount |
| BiddingController.FinalizeAwards | controller/biddingController.js:286-299 | the winner holds the highest amount, ties go to the earliest bid, and exactly it is accepted |
| BiddingController.FinalizeBidding | controller/biddingController.js:238-310 | 404/400 guards change nothing; without bids the space becomes available; otherwise the auction completes, the winner is recorded and the space is purchased by the winner at the winning amount |
| GridSpaces.StatusOfName | model/GridSpace.js:29-33 | a stored status name reads back as the status it spells |
| GridSpaces.StatusNamesRoundTrip | model/GridSpace.js:29-33 | each of the four statuses reads back from its name |
| GridSpaces.NewSpace | model/GridSpace.js:14-71 | a created space takes the given position, size and price, and every other path its default: available, no owner, image, link, bidding or expiry, zero impressions and clicks |
| GridSpaces.DefaultSizedSpace | model/GridSpace.js:14-25 | an omitted size is 1×1 |
| GridStore.OfOrder | controller/biddingController.js:153 | the transactions of one order, in insertion order: exactly those with that `orderId` |
| GridStore.ReplaceTx | controller/biddingController.js:170-176 | saving a transaction replaces the one with its id and no other |
| GridStore.Db.SaveSpace | model/GridSpace.js:74-77 | saving a space stores it with `updatedAt = now`; nothing else changes |
| GridStore.Db.SaveBidding | model/Bidding.js:83-86 | saving an auction stores it with `updatedAt = now`; nothing else changes |
| GridStore.Db.CreateBidding | model/Bidding.js:83-86 | a created auction is stored under a fresh id through the same hook |
| GridStore.Db.CreateSpace | service/adminService.js:23-27 | a created space is stored under a fresh id |
| GridStore.Db.DeleteSpaces | service/adminService.js:52 | `deleteMany` with `$in` removes exactly the listed spaces |
| GridStore.Db.CreateTransaction | controller/biddingController.js:133-142 | a created transaction is appended under a fresh id |
| GridStore.Db.SaveTransaction | controller/biddingController.js:170-176 | saving a transaction replaces the stored one with its id |
| GridStore.Db.CreateLayout | service/adminService.js:9 | a created layout is stored under a fresh id |
| GridStore.Db.SaveLayout | service/adminService.js:33 | saving a layout replaces it |
| GridStore.Db.DeleteLayout | service/adminService.js:79 | deleting a layout removes that id only |
| GridService.RemoveFields | service/gridService.js:15-26 | the generic filter keeps exactly the parameters whose key is not one of select, sort, page, limit, status, layout, owner |
| GridService.RemoveFieldsKeepsOthers | service/gridService.js:15-26 | parameters that are not reserved pass through unchanged and in order |
| GridService.WordRun | service/gridService.js:29-31 | the word-character run at the head of a string ends at the first non-word character (`\b`) |
| GridService.WordRunPrefix | service/gridService.js:29-31 | a run that ends inside a prefix is not extended by what follows |
| GridService.RewriteWord | service/gridService.js:28-32 | a whole word gets a `$` in front exactly when it is gt, gte, lt, lte or in |
| GridService.RewriteSplit | service/gridService.js:28-32 | the rewrite works separately on both sides of any non-word character, so quotes, colons and commas of the JSON text are kept |
| GridService.RewriteQuotedWord | service/gridService.js:28-32 | a quoted key or value that is one word becomes `"$gte"` and the like exactly when it is an operator |
| GridService.RewriteAround | service/gridService.js:28-32 | a separator on both sides is kept and only the middle is rewritten |
| GridService.IntoIsNotAnOperator | service/gridService.js:29-31 | longer words such as `"into"` are left alone |
| GridService.EscapeWord | service/gridService.js:28 | `JSON.stringify` leaves word characters and `$` unescaped |
| GridService.NumberOr | service/gridService.js:76-77 | `parseInt(v, 10) \|\| dflt`: an absent value is the default, and 0 never comes out unless the default is 0 |
| GridService.PutSpec | service/gridService.js:88-95 | `acc[f] = dir` sets that key, keeps every other key's value and never duplicates a key |
| GridService.GetOfNew | service/gridService.js:88-95 | a key that was absent, other than the one set, stays absent |
| GridService.SortFoldSpec | service/gridService.js:87-96 | each sort field appears once, in the direction of its last mention (`-f` is -1, `f` is 1) |
| GridService.SortStage | service/gridService.js:87-96 | without a sort string the stage is `createdAt: -1` |
| GridService.SpaceListPlanOf | service/gridService.js:14-103 | an empty page 1 exactly for a layout id that is malformed, unknown or without spaces; otherwise the rewritten generic filter, the status and owner conditions (a malformed owner becomes `null`), the layout's spaces, page 1 and limit 25 by default, `skip = (page-1)*limit`, and the sort stage |
| GridService.PageOf | service/gridService.js:57-150 | the empty page reports page 1, 0 pages and 0 results; otherwise the page, the total and `ceil(total/limit)` pages |
| GridService.DefaultPlan | service/gridService.js:76-96 | without page, limit or sort the first 25 spaces, newest first, are listed with no extra conditions |
| GridService.GetGridSpace | service/gridService.js:153-164 | a missing space gives null and changes nothing; a found one gains exactly one impression |
| GridService.RecordGridSpaceClick | service/gridService.js:166-183 | 404 for a missing space; otherwise exactly one click more, and a redirect iff the space has a link |
| GridService.OwnFilterOf | service/gridService.js:185-207 | a status outside available/reserved/purchased is a 400; without a status the filter excludes bidding; a malformed layout id is a 400 and an unknown one a 404 |
| GridService.OwnFilterSelects | service/gridService.js:186-195 | without a status every owned space except those in bidding is listed, with one exactly the owned spaces in that status; a bidding space is never listed |
| GridService.GridSpaceAnalytics | service/gridService.js:210-228 | 404 for a missing space; the counters go to the owner or an admin, and anyone else gets a 401 |
| GridController.Populate | service/gridService.js:10-11 | `populate("spaces")` gives at most one space per referenced id |
| GridController.PopulateComplete | service/gridService.js:10-11 | when every referenced space exists they come one for one, in the layout's order |
| GridController.PopulateSound | service/gridService.js:10-11 | every populated space is one the layout refers to |
| GridController.GetGridLayout | controller/gridController.js:16-30 | a 404 "Layout not found" for an unknown id; otherwise the layout with only its own spaces |
| GridController.GetGridSpace | controller/gridController.js:48-62 | a 404 "Grid space not found" for a missing space, with nothing changed; otherwise the space with one impression more |
| GridController.Reserved | controller/gridController.js:148-154 | a reserved space is `reserved`, owned by the caller, held until now plus three days, and otherwise unchanged |
| GridController.ReserveAsWritten | controller/gridController.js:136-157 | as written: it succeeds exactly for an available space, and every refusal comes out as a 500 "ApiError is not defined" |
| GridController.Reserve | controller/gridController.js:136-157 | as intended: 404 for a missing space, 400 for one that is not available, and otherwise the reserved space |
| GridController.ReserveDiscrepancy | controller/gridController.js:141-146 | the two agree on every success; on every refusal the client reads "ApiError is not defined" and not the intended reason |
| GridController.ReserveMissingMessage | controller/gridController.js:141-143 | for a missing space the messages differ |
| GridController.NoDoubleReservation | controller/gridController.js:144-146 | a reserved space cannot be reserved again |
| GridController.ReservationLapses | app.js:75-88 | a reservation survives every nightly run up to three days after it was made; the first later run frees the space, and then it can be reserved again |
| GridController.ReserveGridSpace | controller/gridController.js:136-157 | the stored space becomes the reserved one; a refusal changes nothing |
| GridController.LayoutsBySpace | controller/gridController.js:94-105 | for every space the map built holds exactly one entry per listing of it in a related layout, in layout order, and never an empty list |
| GridController.AddLayout | controller/gridController.js:96-104 | the inner loop appends one entry per occurrence of each space id and changes no other list |
| GridController.OccurrencesMembers | controller/gridController.js:96-104 | a layout's entry is added for a space iff the layout lists the space |
| GridController.RefsOfMembers | controller/gridController.js:94-105 | a space's entries name exactly the related layouts that list it |
| GridController.RelatedTo | controller/gridController.js:90-92 | the `$in` query keeps a subset of the stored layouts |
| GridController.RelatedSuffices | controller/gridController.js:90-105 | reading only the related layouts loses no entry for any listed space |
| GridController.Matching | service/gridService.js:186-207 | `find(filter)` keeps exactly the spaces that satisfy the filter |
| GridController.GetMyGridSpaces | controller/gridController.js:80-121 | a filter error is passed on; otherwise the matching spaces, in order, each with its layout entries (`spaceToLayoutMap[id] \|\| []`) |
| App.ExpireReservations | app.js:75-88 | the nightly job keeps every space |
| App.OnlyWebhookKeepsRawBody | app.js:41-48 | the JSON body parser is skipped for exactly the path `/api/brand/webhook`, compared as a whole string |
| App.Lifted | app.js:81 | a lifted space is available, has no owner and no expiry, and is otherwise unchanged (no save hook runs) |
| App.ExpireSpec | app.js:78-83 | a space changes iff it is reserved with an expiry before `now`, and then only status, owner and expiry change |
| App.ExpireIdempotent | app.js:75-88 | a second run at the same time changes nothing |
| App.NoLapsedAfterExpiry | app.js:78-83 | after the run no space holds a lapsed reservation |
| App.ModifiedCount | app.js:84 | the logged count never exceeds the number of spaces |
| AdminService.Row | service/adminService.js:22-29 | the inner loop visits the cells `(0, y)` .. `(n-1, y)` in order |
| AdminService.PositionsGrid | service/adminService.js:21-30 | the nested loops create `rows * columns` spaces, the k-th at column `k % columns` of row `k / columns` |
| AdminService.Ids | service/adminService.js:28 | the ids collected are consecutive fresh ids |
| AdminService.ExtendLaidOut | service/adminService.js:21-30 | the created spaces are exactly the new 1 x 1 spaces at the visited cells, and every older space is kept |
| AdminService.ExtendAppend | service/adminService.js:21-30 | creating one row after another is creating all the cells in order |
| AdminService.AddRow | service/adminService.js:22-29 | the inner loop stores one new space per column of the row and returns their ids in order |
| AdminService.GenerateSpaces | service/adminService.js:20-30 | the nested loops store one new space per cell, row by row, and return their ids in creation order |
| AdminService.CreateGridLayout | service/adminService.js:6-36 | a name already used by the same user is a 400 with nothing created; otherwise the layout is stored with the ids of one new space priced 9999 per cell |
| AdminService.StoreLayout | service/adminService.js:9-33 | the layout is created first and then saved with the ids of its grid's spaces |
| AdminService.Assigned | service/adminService.js:49 | `Object.assign` copies every declared key the body carries, the space list, creator and creation time included, trimming a name, and keeps every other field |
| AdminService.AssignedIdempotent | service/adminService.js:49 | an empty body changes nothing and assigning the same body twice is assigning it once |
| AdminService.UpdateGridLayout | service/adminService.js:38-69 | 404 for an unknown layout and 403 for another user's, both with nothing changed, the owner being read before the body is assigned; a truthy changed row or column count deletes the spaces listed after the assignment and creates an unpriced grid; a clash of the assigned name and creator on save fails after the spaces were already replaced |
| AdminService.Regenerate | service/adminService.js:52-64 | the listed spaces are deleted and a fresh unpriced grid is created |
| AdminService.DeleteGridLayout | service/adminService.js:71-80 | 404 for an unknown layout and 403 for another user's; otherwise the layout and exactly the spaces it lists are removed |
| AdminService.PriceUpdate | service/adminService.js:82-97 | a missing price is a 400, a space outside the user's layouts a 404, and a space that is not available or has an owner a 400; otherwise only the price changes |
| AdminService.PriceFrozenOnceTaken | service/adminService.js:91-93 | once a space is taken or owned its price cannot be changed |
| AdminService.UpdateGridSpacePrice | service/adminService.js:82-97 | the stored space becomes the repriced one; a refusal changes nothing |
| AdminService.PopulateMatching | service/adminService.js:106-117 | populated spaces exist and, under a status filter, have that status |
| AdminService.LatestPurchase | service/adminService.js:121-125 | the latest purchase time among purchased spaces, bounding every one of them, or 0 when there is none |
| AdminService.OwnLayouts | service/adminService.js:102-118 | only the user's active layouts are listed |
| AdminService.LayoutsWithSpaces | service/adminService.js:99-114 | a truthy status outside available, reserved and bidding is a 400; anything else succeeds |
| AdminService.LayoutsWithSpacesSpec | service/adminService.js:101-134 | the listing is a permutation of the user's active layouts, latest purchase first, and layouts with equal latest purchase keep their stored order |
| AdminService.FilteredListingKeepsOrder | service/adminService.js:110-131 | under a status filter, which can never be `purchased`, the listing is in stored order |
| AdminService.OwnLayoutsPopulated | service/adminService.js:106-118 | every listed layout carries exactly its populated spaces |
| LayoutValidation.CheckCount | validations/layout.validation.js:6-7 | a count passes iff it is an integer of at least 1, and then it is that number |
| LayoutValidation.CheckName | validations/layout.validation.js:5 | an absent name passes as absent, and a string passes trimmed unless trimming leaves it empty |
| LayoutValidation.TypeGate | middleware/validate.js:10-21 | a body with keys is refused with 415 unless it comes as JSON or form data; an empty body always passes |
| LayoutValidation.CheckCreateLayout | validations/layout.validation.js:3-9 | the body passes iff the content type is accepted, the name and both counts pass and no other key is present, and then it carries those values; every refusal is a 400 or a 415 |
| LayoutValidation.WellFormedLayoutAccepted | validations/layout.validation.js:3-9 | a non-blank name with positive integer counts in JSON is always accepted with those values |
| LayoutValidation.RowsReportedFirst | middleware/validate.js:32-57 | the first failing key is the one reported, labelled by its key |
| LayoutValidation.CheckSpacePrice | validations/layout.validation.js:11-15 | a price passes iff it is a number greater than 0 with no other key and an accepted content type |
| Payments.Found | controller/paymentController.js:21 | the `$in` query yields each requested stored space once, and only those |
| Payments.FoundAll | controller/paymentController.js:21-24 | every requested id is found iff the request has no duplicate and names only stored spaces; the found list then holds exactly the requested ids |
| Payments.Blocked | controller/paymentController.js:26-39 | the check passes iff no found space is purchased or reserved by someone else; a refusal is a 400 |
| Payments.OrderCheck | controller/paymentController.js:17-39 | an accepted order goes ahead with the requested ids |
| Payments.OrderAccepted | controller/paymentController.js:17-39 | an order goes ahead iff both fields are given, the amount is not 0, the ids are distinct stored spaces and none is purchased or reserved by someone else |
| Payments.OrderTxs | controller/paymentController.js:53-68 | one transaction per space |
| Payments.OrderTotal | controller/paymentController.js:50-57 | the unit amounts of an order add up to the amount requested |
| Payments.ReserveAll | controller/paymentController.js:65-66 | marking the ordered spaces reserved keeps every space |
| Payments.CreateOrder | controller/paymentController.js:14-71 | a refused order changes nothing; an accepted one answers with the order in paise and appends one `initiated` transaction per space, each space marked reserved |
| Payments.OpenOrder | controller/paymentController.js:53-68 | the loop opens the transactions in order under fresh ids and marks each space reserved |
| Payments.UnownedOrderLocks | controller/paymentController.js:30-65 | an ordered space keeps no owner, so nobody, the buyer included, can order it again until the payment settles |
| Payments.UnpaidOrderNeverLapses | controller/paymentController.js:65-66 | an order sets no expiry, so the nightly job never frees an unpaid order's spaces |
| Payments.SettleOrder | controller/paymentController.js:86-108 | settling keeps the number of transactions |
| Payments.SpacesOf | controller/paymentController.js:110 | `flatMap` lists exactly the spaces of the transactions |
| Payments.Released | controller/paymentController.js:90-95 | releasing keeps every space |
| Payments.ReleasedTwice | controller/paymentController.js:86-98 | releasing transaction by transaction is releasing all their spaces at once |
| Payments.TxFor | controller/paymentController.js:121-123 | a transaction found for a space is one whose first space it is |
| Payments.Bought | controller/paymentController.js:116-126 | a bought space is purchased, owned by the payer, stamped `now`, priced at its transaction's amount when one is found, and keeps every other stored field; the display dates the handler assigns are no schema paths and are not stored |
| Payments.Purchases | controller/paymentController.js:114-131 | buying keeps every space |
| Payments.Unique | controller/paymentController.js:111 | `new Set` keeps each id once |
| Payments.VerifyPayment | controller/paymentController.js:73-137 | 404 with nothing changed for an order without transactions; a bad signature fails every transaction, frees their spaces and is a 400; otherwise every transaction succeeds, the spaces are bought, and a lookup that throws gives a 500 after the saves |
| Payments.SettleAll | controller/paymentController.js:102-108 | every transaction of the order is saved in its settled state, and no other |
| Payments.SettleIdsDone | controller/paymentController.js:102-108 | settling the ids of the order's transactions one by one settles the whole order |
| Payments.ReleaseAll | controller/paymentController.js:86-98 | every space of every transaction is freed |
| Payments.ReleaseSpaces | controller/paymentController.js:90-95 | a listed space still stored becomes available; a missing one is skipped |
| Payments.PurchaseAll | controller/paymentController.js:110-131 | the distinct stored spaces are bought, the response lists them, and a failure is reported iff some lookup throws |
| Payments.PurchaseEach | controller/paymentController.js:114-131 | the loop buys each listed space whose lookup succeeds |
| Payments.AnyFailsSpec | controller/paymentController.js:121-123 | the loop fails iff some listed space's lookup throws |
| Payments.BoughtTwice | controller/paymentController.js:116-126 | buying a space twice is buying it once |
| Payments.PurchasesOver | controller/paymentController.js:111-112 | buying depends only on which stored ids are listed, not on repeats or order |
| Payments.PurchasesSpec | controller/paymentController.js:114-131 | a listed space whose lookup succeeds is purchased by the payer, stamped `now`, priced from its transaction when one is found, and otherwise kept; an unlisted space is untouched |
| Payments.TxForSingles | controller/paymentController.js:56-123 | with one space per transaction the lookup never throws, and finds one iff some transaction is for that space |
| Payments.OrderPaysUnitPrice | controller/paymentController.js:50-125 | paying an order over distinct spaces prices each space at the order's unit amount |
| Payments.FindTx | controller/paymentController.js:152 | `findById` finds the transaction with that id, or reports none has it |
| Payments.TransactionAccess | controller/paymentController.js:151-168 | a stored transaction is readable iff the caller bought it or is an admin, and then it is that transaction |
| Payments.TransactionMissing | controller/paymentController.js:156-158 | a missing transaction is a 404 |
| Payments.Mine | controller/paymentController.js:140 | the query keeps exactly the user's transactions |
| Payments.HistorySpec | controller/paymentController.js:139-149 | the history is a permutation of exactly the user's transactions, newest first |
| Uploads.Authorize | controller/uploadController.js:20-22 | the owner or an admin passes; an unowned space makes reading its owner throw, which is a 500 |
| Uploads.CheckImage | controller/uploadController.js:30-36 | a file passes iff its type starts with `image` and it is at most 10 MiB; a refusal is a 400 |
| Uploads.PublicId | controller/uploadController.js:72-74 | the identifier is the folder, a slash, then a part with no slash or dot |
| Uploads.PublicIdOfUpload | controller/uploadController.js:72-74 | an image uploaded as `name.ext` is destroyed by the identifier `brands-in-india/name` |
| Uploads.UploadCheck | controller/uploadController.js:14-36 | an upload goes ahead iff the caller may change the space, a `file` was sent and it is an acceptable image, and then it is that file |
| Uploads.UploadGridImage | controller/uploadController.js:13-55 | 404 for a missing space; a refusal changes nothing; otherwise only the space's image changes, to the uploaded URL |
| Uploads.DeleteCheck | controller/uploadController.js:60-74 | a delete goes ahead iff the caller may change the space and it has an image, and then it destroys that image's identifier |
| Uploads.DeleteReplyAsWritten | controller/uploadController.js:57-84 | as written the handler never answers successfully |
| Uploads.DeleteReply | controller/uploadController.js:57-85 | as intended: the space with its image cleared exactly when the delete goes ahead |
| Uploads.DeleteReplyDiscrepancy | controller/uploadController.js:57-81 | the two agree on refusals; where the delete goes ahead the code as written answers 500 "res is not defined" |
| Uploads.DeleteReplyWitness | controller/uploadController.js:57-81 | the owner deleting the image of a purchased space shows the difference |
| Uploads.DeleteGridImageAsWritten | controller/uploadController.js:57-85 | as written the image is still destroyed and cleared before the request fails |
| Uploads.DeleteGridImage | controller/uploadController.js:57-85 | as intended: the image is destroyed and cleared and the space returned; a refusal changes nothing |
| Uploads.EditCheck | controller/uploadController.js:88-106 | an edit goes ahead iff the caller may change the space and any file sent is an acceptable image |
| Uploads.EditSpaceSpec | controller/uploadController.js:87-133 | an edit succeeds iff it is allowed and brings a truthy link or an uploaded image; it then changes only the link, the image and the update time |
| Uploads.EditDestroysOnlyReplaced | controller/uploadController.js:114-117 | the old image is destroyed iff a new one was uploaded over an existing one |
| Uploads.EditGridSpace | controller/uploadController.js:87-133 | 404 for a missing space; otherwise the stored space becomes the edited one, and a refusal changes nothing |
| BrandDetails.Access | controller/brandDetailEditController.js:8-21 | a missing block is a 404; the owner or an admin passes with that block; an ownerless block makes reading its owner throw |
| BrandDetails.CheckUpload | controller/brandDetailEditController.js:33-44 | a file passes iff its type starts with `image` and it is at most 10 MiB; a refusal is a 400 |
| BrandDetails.Assets | controller/brandDetailEditController.js:53-56 | one gallery entry per file, keyed by the file's name |
| BrandDetails.AllImagesCons | controller/brandDetailEditController.js:31-44 | a batch is acceptable iff its first file and the rest are |
| BrandDetails.UploadAllSpec | controller/brandDetailEditController.js:31-57 | the loop succeeds iff every file is an acceptable image, and then appends one entry per file in order; the first bad file is a 400 |
| BrandDetails.UploadFiles | controller/brandDetailEditController.js:31-57 | the in-place loop gives what the specification of the loop gives |
| BrandDetails.IndustriesOfText | controller/brandDetailEditController.js:105-109 | a non-empty string becomes one trimmed piece per comma-separated part, none holding a comma, and the parts join back to the string |
| BrandDetails.UploadsAsWritten | controller/brandDetailEditController.js:1-47 | as written the file never imports the image host's client, so any request with a file fails |
| BrandDetails.UpdateDetailsAsWritten | controller/brandDetailEditController.js:4-125 | as written: an allowed edit without files succeeds iff the industries value can be split, and answers the block as stored because strict mode drops every key of the update; an allowed request whose first file is an acceptable image is a 500 "cloudinary is not defined" |
| BrandDetails.UpdateDetailsSpec | controller/brandDetailEditController.js:4-125 | as intended (client imported, galleries and edited keys declared): an allowed edit succeeds iff every file is an acceptable image, a request with files finds a product gallery, and the industries value can be split; the galleries gain one entry per file and only truthy text fields are set |
| BrandDetails.UpdateDetailsDiscrepancy | controller/brandDetailEditController.js:47-82 | without files the handler as written accepts exactly the requests the intended one accepts, answering the block unchanged; with files, wherever the intended one succeeds, it answers 500 "cloudinary is not defined" |
| BrandDetails.UpdateDetailsWitness | controller/brandDetailEditController.js:47 | the owner adding one small PNG to a block whose galleries, declared as intended, are empty is accepted as intended and answered 500 as written |
| BrandDetails.ImportOnlyStillFails | controller/brandDetailEditController.js:47-57 | with only the import repaired, the undeclared galleries read as missing, so an allowed request whose files are all acceptable images fails pushing onto the product gallery |
| Views.FindView | controller/ViewController.js:23-26 | the lookup finds a record of that user viewing that block, or reports that none exists |
| Views.OrDefault | controller/ViewController.js:44-48 | a field that is missing or empty reads as the placeholder; any other is kept |
| Views.VisitOf | controller/ViewController.js:7-54 | as intended: an unknown block is a 400; a visit by anyone but the owner is counted; a record is created iff it is such a visitor's first visit, under the next id; a mail goes out only with a new record |
| Views.VisitAsWritten | controller/ViewController.js:15-22 | as written the count is never stored (the block schema has no `views` path), and every first visit is recorded, the owner's own included |
| Views.VisitDiscrepancy | controller/ViewController.js:15-17 | the replies agree; an owner's first visit to their own block is recorded and mailed to them only as written; for anyone else only the count differs |
| Views.OwnerVisitWitness | controller/ViewController.js:15-17 | the owner's first visit to their own block mails them only as written |
| Views.ViewStore.Insert | controller/ViewController.js:31-34 | storing a new record appends it and keeps each (block, viewer) pair recorded at most once |
| Views.ViewStore.RecordVisit | controller/ViewController.js:7-54 | the store changes exactly as the intended visit says |
| Views.ViewStore.RecordVisitAsWritten | controller/ViewController.js:7-54 | the store changes exactly as the visit as written says |
| Views.RepeatVisitQuiet | controller/ViewController.js:27-29 | a second visit by the same user to the same block records and mails nothing |
| Patterns.DomainFromSpec | model/User.js:16 | the domain matcher succeeds iff some split leaves `\w+([\.-]?\w+)*` before and `(\.\w{2,3})+` after |
| Patterns.EmailFromSpec | model/User.js:16 | the address matcher succeeds iff some '@' has a matching local part before and a matching domain after |
| Patterns.WordsDotted | model/User.js:16 | `\w+([\.-]?\w+)*` matches exactly the dotted names: word characters at both ends, only word characters, dots and dashes, and no two separators side by side |
| Patterns.SuffixesFacts | model/User.js:16 | every `(\.\w{2,3})+` string starts with a dot, ends with a word character, follows every dot with a word character and ends in a dot and two or three word characters |
| Patterns.DomainIff | model/User.js:16 | the domain pattern accepts exactly the dotted names whose last separator is a dot followed by two or three word characters |
| Patterns.EmailIff | model/User.js:14-19 | the schema pattern accepts exactly a dotted local part, an '@' and such a domain |
| Patterns.EmailOneAt | model/User.js:16 | an accepted address holds exactly one '@' |
| Patterns.EmailIsBasic | controller/saveEmail.js:17 | every address the schemas accept passes the handler's looser check |
| Patterns.BasicNotEmail | controller/saveEmail.js:17 | the looser check lets through "a@b.c", which the schemas refuse |
| Users.PartIff | model/User.js:3-62 | a path is reported by its own check exactly when the document breaks it |
| Users.ViolationsSpec | model/User.js:3-62 | validation reports a path exactly when the document breaks it: a trimmed name over 50 UTF-16 code units, a non-empty e-mail or phone off its pattern (the empty string passes a `match` validator), a missing or empty firebase uid, a role other than user or admin, a flag that does not cast (a boolean, or the number 1 or 0, casts) |
| Users.Cast | model/User.js:3-62 | a document is stored iff nothing is broken, and then with the name trimmed, every kept non-empty e-mail or phone within its pattern, the name within 50 UTF-16 code units, the role defaulting to `user` and the flags to false; otherwise the broken paths are reported |
| Users.Utf16Length | model/User.js:9 | the length `maxlength` measures is between the number of characters and twice it, equal to it without astral characters |
| Users.AstralNameRefused | model/User.js:9 | a name of more than 25 characters, all outside the Basic Multilingual Plane (emoji), is over the bound and refused, even with fewer than 50 characters |
| Users.UpdateError | service/authService.js:34-38 | the update validators run on the update's own paths only: none fails iff no path the update carries is broken; a flag that does not cast is reported alone as its cast error, otherwise the message is `Validation failed: path: message, …` |
| Users.PhoneUpdateRefused | service/authService.js:34-38 | an update carrying only a phone off its pattern fails with `Validation failed: phone: Please add a valid phone number` |
| Users.ApplyOverlays | service/authService.js:34-38 | a validated update keeps the id and stores exactly the old values overlaid with the update's cast values |
| Users.ApplyKeepsSound | service/authService.js:34-38 | a validated update of a schema-valid user leaves it schema-valid |
| Users.DocOf | model/User.js:3-62 | a stored user reads back as exactly its present schema values |
| Users.AppendKeepsKeysUnique | model/User.js:14-32 | inserting a user that clashes with nobody keeps e-mails, phones and uids unique |
| Users.ClashWitness | model/User.js:20-24 | two users without a phone clash under the non-sparse index as written, and not as meant |
| Users.ClashWeaker | model/User.js:14-32 | every clash as meant is also a clash as written |
| Users.FindByUid | middleware/firebaseAuth.js:18 | the lookup by firebase uid finds a user with that uid, or reports none has it |
| Users.FindById | controller/authController.js:125-131 | the lookup by id finds the user with that id, or reports none has it |
| Users.ReplaceUser | model/User.js:3-62 | replacing a user changes only the entry with its id |
| Users.ReplaceKeepsUnique | model/User.js:14-32 | replacing a user by one that clashes with no other user keeps ids and keys unique |
| Users.UpcomingViolations | model/UpComingUser.js:5-23 | an interested user is valid iff the trimmed name is present with 1 to 50 UTF-16 code units, the e-mail is present and follows the pattern, and any phone follows its pattern; each failure is reported as `path: message` with the schema's message |
| FirebaseAuth.TokenOf | middleware/firebaseAuth.js:10 | a token taken from the header is non-empty and holds no space |
| FirebaseAuth.BearerToken | middleware/firebaseAuth.js:10 | a header "scheme token" yields the token |
| FirebaseAuth.SchemeOnly | middleware/firebaseAuth.js:10-14 | a header without a space carries no token |
| FirebaseAuth.RoleAllowedIff | middleware/firebaseAuth.js:36-40 | a route lets a role through iff it requires `any`, `both` or that role |
| FirebaseAuth.CheckMember | middleware/firebaseAuth.js:36-57 | a stored account passes iff its role fits and it is not blocked; the role is checked before the block flag; the `isDeleted` check reads a path the user schema does not declare, so it never rejects |
| FirebaseAuth.TokenErrors | middleware/firebaseAuth.js:10-67 | no token is a 400, an expired one a 401 "Session is expired", any other verification error a 401 "Failed to authenticate"; a pass needs a verified token |
| FirebaseAuth.UnknownAccount | middleware/firebaseAuth.js:18-34 | an unknown account passes iff the path is a register path, as a newcomer with the token's claims whose default role is admin iff the route requires admin; otherwise a 404 |
| FirebaseAuth.KnownAccount | middleware/firebaseAuth.js:35-58 | a stored account passes iff its role fits and it is not blocked, and then as itself |
| FirebaseAuth.AdminRouteAdminsOnly | middleware/firebaseAuth.js:20-47 | an admin route admits only stored admins and newcomers who register as admins |
| FirebaseAuth.BlockedNeverAdmitted | middleware/firebaseAuth.js:49-51 | a blocked account never gets through |
| FirebaseAuth.MembersIgnorePath | middleware/firebaseAuth.js:20-58 | for a stored account the path makes no difference |
| AuthController.NewUserDoc | controller/authController.js:9-15 | the new-user object carries the token's uid, e-mail and sign-in provider when present, the verified flag (false when missing) and the role, `user` by default, and nothing else |
| AuthController.CastIgnoresOtherKey | controller/authController.js:12 | a key the schema does not declare, such as the verified flag, does not change what is stored |
| AuthController.NewcomerDefaults | controller/authController.js:36-41 | a newcomer who sends no body is stored with the token's uid, e-mail and provider, the route's role, and neither blocked nor subscribed |
| AuthController.RegisterAsWritten | controller/authController.js:27-47 | as written a stored user is never added when it collides under the non-sparse indexes; a refusal stores nothing |
| AuthController.RegisterOf | controller/authController.js:27-47 | as meant: a stored account gets 409; a newcomer is stored iff the body laid over the new-user object validates and clashes with no present key, and then it is appended; a newcomer that does not validate is a 500 `User validation failed: path: message, …` |
| AuthController.RegisterKeepsKeysUnique | controller/authController.js:27-47 | registering keeps every present e-mail, phone and uid unique |
| AuthController.BodyRoleWins | controller/authController.js:36-39 | a body naming the admin role registers an admin on any register route |
| AuthController.DefaultRoleKept | controller/authController.js:36-39 | without a role in the body the newcomer gets the route's default role |
| AuthController.RegisterWitness | controller/authController.js:41 | a second newcomer with no e-mail and no phone is refused as written and stored as meant |
| AuthController.EditOf | controller/authController.js:158-181 | a caller who is neither the account's owner nor an admin gets 403; the body minus e-mail, uid and role is validated first, a failure being a 500 with the validators' message; an unknown account 404 when the body validates; otherwise the body is applied and must clash with no other user |
| AuthController.EditValidatesFirst | controller/authController.js:167-173 | an admin editing an unknown id with a malformed phone gets the validation 500, not the 404 |
| AuthController.EditKeepsSound | controller/authController.js:158-181 | an edit keeps every stored user schema-valid |
| AuthController.EditKeepsIdentity | controller/authController.js:167-168 | an edit never changes the account's id, e-mail, firebase uid or role |
| AuthController.EditKeepsUnique | controller/authController.js:158-181 | an edit keeps ids and keys unique |
| AuthController.ProfileOf | controller/authController.js:133-157 | an empty uid is a 400; a profile is returned iff a user has that uid, with its id, name, e-mail, phone and role; otherwise 404 |
| SaveEmail.NormalizeIdempotent | controller/saveEmail.js:14 | trimming and lower-casing twice is doing it once |
| SaveEmail.NormalizedShape | controller/saveEmail.js:14 | a normalised address holds no upper-case ASCII letter and has no whitespace at either end |
| SaveEmail.SaveEmailOf | controller/saveEmail.js:5-47 | a missing or empty address is a 400; the save succeeds iff the normalised address matches the schema pattern, the account exists and no other account holds that address, and then only that account's e-mail changes; a refusal changes nothing |
| SaveEmail.LooseCheckWitness | controller/saveEmail.js:17-27 | "a@b.c" passes the handler's check and is refused by the schema's, which answers 500 instead of 400 |
| SaveEmail.LooseCheck | controller/saveEmail.js:17-27 | every address that passes the loose check but not the schema pattern is answered with a 500 |
| SaveEmail.AlreadyNormal | controller/saveEmail.js:14 | an address without whitespace or upper-case letters is its own normal form |
| SaveEmail.FindReplaced | controller/saveEmail.js:24-28 | after the update the uid finds the updated account |
| SaveEmail.ReplaceTwice | controller/saveEmail.js:24-28 | replacing an account by the same version twice is doing it once |
| SaveEmail.ReplaceNoClash | controller/saveEmail.js:24-28 | replacing an account leaves the others, so a version that clashed with none still clashes with none |
| SaveEmail.SaveOwnAddress | controller/saveEmail.js:5-47 | saving the account's own normal, valid address succeeds and changes nothing |
| SaveEmail.SaveAgain | controller/saveEmail.js:5-47 | saving the saved address again succeeds and changes nothing |
| Accounts.RegisterRequest | routes/authRoutes.js:18-23 | the register route is the firebase middleware requiring the user role, then the 415 content-type gate of `validate()` for a non-empty body that is neither JSON nor form data, then the handler as meant (`RegisterOf`); a refusal stores nothing |
| Accounts.FindAppended | controller/authController.js:41 | a registered account is the one its uid then finds |
| Accounts.SecondRegisterConflicts | controller/authController.js:28-34 | the same registration a second time stores nothing, and gets 409 unless the first body had the account blocked |
| Accounts.UserStore.Register | controller/authController.js:27-47 | the store changes exactly as the registration as meant (`RegisterOf`) says, and stays valid: ids unique, present keys unique and every user schema-valid |
| Accounts.UserStore.Edit | controller/authController.js:158-181 | the store changes exactly as the edit says, and stays valid, every user still schema-valid |
| Accounts.UserStore.StoreEmail | controller/saveEmail.js:5-47 | the store changes exactly as the e-mail save says, and stays valid |
| UpcomingUsers.CreateOf | controller/UpComingUserController.js:5-17 | a missing or empty name or address is a 400; a sign-up is stored iff the address is not listed and the schema accepts the name and address, with the name trimmed and never a phone; a schema refusal is a 500 `UpComingUser validation failed: path: message, …`; a refusal changes nothing |
| UpcomingUsers.CreatedValid | model/UpComingUser.js:5-19 | a stored record has a name of 1 to 50 UTF-16 code units and an address of the account pattern |
| UpcomingUsers.CreateIdsBelow | controller/UpComingUserController.js:5-17 | a sign-up keeps every id below the next id |
| UpcomingUsers.CreateKeepsEmailsUnique | controller/UpComingUserController.js:10-15 | signing up keeps every address listed at most once |
| UpcomingUsers.SecondSignUpRefused | controller/UpComingUserController.js:10-14 | signing up a listed address again is refused and changes nothing |
| UpcomingUsers.UpcomingStore.Create | controller/UpComingUserController.js:5-17 | the list changes exactly as the sign-up says and keeps addresses unique |
| UpcomingUsers.UpcomingStore.List | controller/UpComingUserController.js:19-22 | the listing is every record, with their number |
| Seeder.InsertMissingSnoc | seeder/seedBlockReasons.js:12-17 | one more step of the loop inserts the reason iff it is not stored yet |
| Seeder.InsertMissingSpec | seeder/seedBlockReasons.js:12-17 | stored reasons stay in place, every seeded reason is then present, and nothing else is added |
| Seeder.InsertMissingNoDuplicates | seeder/seedBlockReasons.js:13-16 | no reason is stored twice if none was before |
| Seeder.InsertMissingPresent | seeder/seedBlockReasons.js:13-16 | when every reason is stored the loop inserts nothing |
| Seeder.SeedIdempotent | seeder/seedBlockReasons.js:3-20 | seeding twice is seeding once |
| Seeder.ReasonStore.Seed | seeder/seedBlockReasons.js:3-20 | afterwards all five reasons are stored, earlier records are kept as they were, and no reason is duplicated unless it already was |
| InvoiceNumbers.SetDate | model/subscriptionInvoiceSchema.js:87-95 | a number is stored as that many Unix seconds in milliseconds; any other value is kept |
| InvoiceNumbers.SetDateStable | model/subscriptionInvoiceSchema.js:87-95 | setting a date field to what it holds changes nothing |
| InvoiceNumbers.FyLabel | service/InvoiceNumberGenerator.js:13-18 | a date's label names the financial year it lies in, the one starting in April |
| InvoiceNumbers.FinancialYear | service/InvoiceNumberGenerator.js:2-19 | a missing or zero payment date gives ""; any other gives the label of its calendar date |
| InvoiceNumbers.LabelOfInjective | service/InvoiceNumberGenerator.js:16-18 | distinct start years have distinct labels |
| InvoiceNumbers.FyLabelIff | service/InvoiceNumberGenerator.js:16-18 | two dates share a label iff they lie in the same financial year |
| InvoiceNumbers.EarlyMonthsCloseTheYear | service/InvoiceNumberGenerator.js:16-18 | January to March share the label of the April to December before them |
| InvoiceNumbers.TwentyTwentyFive | service/InvoiceNumberGenerator.js:16-18 | March 2025 is in "2024-25" and April 2025 in "2025-26" |
| InvoiceNumbers.MaxSequence | service/InvoiceNumberGenerator.js:24-26 | the highest stored sequence of the year, bounding all and held by one, or none when the year has no invoice |
| InvoiceNumbers.Only | service/subscriptionInvoiceCounter.js:4-6 | exactly the subscription's invoices, in stored order |
| InvoiceNumbers.Prior | service/InvoiceNumberGenerator.js:30-33 | exactly the subscription's invoices of that year, in stored order |
| InvoiceNumbers.PriorAppend | service/InvoiceNumberGenerator.js:30-33 | a new invoice joins the prior invoices iff it has the same subscription and year |
| InvoiceNumbers.PaidKeyOrder | service/InvoiceNumberGenerator.js:33 | the sort key orders invoices by payment date, empty dates first |
| InvoiceNumbers.ByPaidAt | service/InvoiceNumberGenerator.js:33 | sorting keeps the number of invoices |
| InvoiceNumbers.ByPaidAtFirst | service/InvoiceNumberGenerator.js:33-41 | the first after sorting is one of the invoices and is paid no later than any |
| InvoiceNumbers.Generate | service/InvoiceNumberGenerator.js:21-52 | the sequence is one above the year's highest, or 1 in a new year; the sub-sequence counts the subscription's prior invoices of the year |
| InvoiceNumbers.TwoDigitsValue | service/InvoiceNumberGenerator.js:39 | two-digit padding yields at least two digits that read back as the number |
| InvoiceNumbers.FirstNumber | service/InvoiceNumberGenerator.js:38-39 | a subscription's first invoice of a year is "BII/<year>/" and a padded sequence, with sub-sequence 0 |
| InvoiceNumbers.RepeatNumber | service/InvoiceNumberGenerator.js:40-44 | a later invoice is numbered after the earliest paid prior invoice, with the count of prior invoices |
| InvoiceNumbers.NextRepeatNumber | service/InvoiceNumberGenerator.js:40-44 | storing one more invoice of the pair moves the repeat number on by one and keeps its base |
| InvoiceNumbers.SecondNumber | service/InvoiceNumberGenerator.js:40-44 | once the first invoice is stored the next one is numbered "<its number>.1" |
| InvoiceNumbers.MaxCount | service/subscriptionInvoiceCounter.js:4-6 | the highest stored count of the subscription, bounding all and held by one, or none |
| InvoiceNumbers.NextCount | service/subscriptionInvoiceCounter.js:3-9 | one above the subscription's highest count, or 1 for its first invoice |
| InvoiceNumbers.MaxCountOnly | service/subscriptionInvoiceCounter.js:4-6 | the highest count depends only on the subscription's own invoices |
| InvoiceNumbers.CountIgnoresOthers | service/subscriptionInvoiceCounter.js:3-9 | invoices of other subscriptions do not change the next count |
| InvoiceSync.Rupees | controller/subscriptionInvoceController.js:39-40 | a paise amount divided by 100 |
| InvoiceSync.OrderSpec | controller/subscriptionInvoceController.js:16 | the processing order is a permutation of the fetched invoices by payment time, a missing one counting as 0 |
| InvoiceSync.RecordOf | controller/subscriptionInvoceController.js:31-71 | the stored record carries the gateway id, the subscription, the amounts in rupees, the generated numbering and the count |
| InvoiceSync.RunTally | controller/subscriptionInvoceController.js:16-74 | the loop keeps what was stored in place, adds one record per saved invoice and, when no write failed, counts every item once as saved or skipped |
| InvoiceSync.RunKnows | controller/subscriptionInvoceController.js:16-74 | after a run without failure every fetched invoice is stored |
| InvoiceSync.RunAllKnown | controller/subscriptionInvoceController.js:17-21 | invoices all stored already are all skipped |
| InvoiceSync.RunNext | controller/subscriptionInvoceController.js:16-74 | the loop over one more item is one more step |
| InvoiceSync.RunFailedStays | controller/subscriptionInvoceController.js:31-88 | after a failed write the rest of the items change nothing |
| InvoiceSync.SyncTally | controller/subscriptionInvoceController.js:10-89 | a successful sync accounts for every fetched invoice as saved or skipped and stores one record per saved invoice after the old ones; any failure is a 500 |
| InvoiceSync.SyncAgain | controller/subscriptionInvoceController.js:10-89 | syncing the same invoices again saves nothing and changes nothing |
| InvoiceSync.StepKeepsUnique | controller/subscriptionInvoceController.js:17-31 | a step keeps gateway ids and invoice numbers unique |
| InvoiceSync.RunKeepsUnique | controller/subscriptionInvoceController.js:16-74 | the loop keeps gateway ids and invoice numbers unique at every point |
| InvoiceSync.InvoicesOf | controller/subscriptionInvoceController.js:91-104 | a 404 exactly when the subscription has no invoice |
| InvoiceSync.OnlyEmpty | controller/subscriptionInvoceController.js:93-98 | a subscription has no invoice iff none is stored under it |
| InvoiceSync.InvoicesOfSpec | controller/subscriptionInvoceController.js:91-104 | the list is a permutation of exactly the subscription's invoices, ordered by payment date |
| InvoiceSync.InvoiceStore.Sync | controller/subscriptionInvoceController.js:10-89 | the store changes exactly as the sync says and keeps ids and numbers unique |
| Export.StatusFilter | controller/exportController.js:4-9 | a status filter is applied iff the query gives a non-empty one |
| Export.Select | controller/exportController.js:11 | exactly the matching blocks, in collection order; without a filter every block |
| Export.Substr | controller/exportController.js:50-54 | `$substr` gives at most the requested length, and the exact slice when it fits |
| Export.SubstrIsLastTwo | controller/exportController.js:50-54 | for four-digit years the slice at 2 of length 2 is the last two digits |
| Export.YearPairIsFinancialYear | controller/exportController.js:43-65 | with the April boundary the pair is the financial year the subscription invoices use |
| Export.AsWrittenIgnoresMonth | controller/exportController.js:43-44 | as written every month passes `month >= 1`, so the pair ignores the month and agrees with the intended one only from April on |
| Export.FebruaryWitness | controller/exportController.js:43-65 | a block created in February 2025 gets "2025-26" as written where its financial year is "2024-25" |
| Export.InvoiceNumber | controller/exportController.js:33-71 | for either year-pair rule, a number exists iff the block has an order number, and is "BII/", the rule's year pair, "/" and the order number; the program uses the as-written rule |
| Export.InvoiceNumberEnds | controller/exportController.js:69-70 | the number ends with the order number after the last '/', and it reads back |
| Export.ClockRoundTrip | controller/exportController.js:117-146 | the 12-hour reading lies in 1 to 12 and, with AM or PM, gives the hour back |
| Export.ClockOnto | controller/exportController.js:117-146 | every 12-hour reading with a suffix comes from exactly one hour |
| Export.MinuteTextSpec | controller/exportController.js:135-141 | a minute is written with two digits that read back as it |
| Export.RowFor | controller/exportController.js:32-149 | each row carries its block, HSN code 998361, the invoice number under the given rule and the IST date and time |
| Export.ExportRows | controller/exportController.js:10-240 | under either rule the rows hold the selected blocks in sorted order, each with its computed fields |
| Export.ExportListSpec | controller/exportController.js:3-247 | under either rule the rows are a permutation of the selected blocks, oldest first, each with the fixed HSN code |
| Export.ListingsAgreeFromApril | controller/exportController.js:33-71 | the listing as written and as intended hold the same blocks, codes, dates and times, and the same invoice numbers for blocks created from April on |
| Export.ExportFebruaryWitness | controller/exportController.js:43-70 | the program exports a block numbered 12 and created in February 2025 as "BII/2025-26/12"; its financial year gives "BII/2024-25/12" |
| BrandInvoices.MergeKeeps | controller/brandInvoiceCotroller.js:6-57 | the merge keeps every stored invoice in place and adds only copies of paid blocks keyed on their own order numbers, under fresh ids |
| BrandInvoices.MergeUnique | controller/brandInvoiceCotroller.js:49-56 | the merge keeps order numbers and ids unique |
| BrandInvoices.MergePresent | controller/brandInvoiceCotroller.js:6-57 | after a merge that did not fail every paid block's order number is stored |
| BrandInvoices.MergeNothingNew | controller/brandInvoiceCotroller.js:49-56 | blocks already stored, or unpaid, change nothing (`keepExisting`) |
| BrandInvoices.MergeFailedStays | controller/brandInvoiceCotroller.js:49-56 | once the merge has failed the remaining blocks change nothing |
| BrandInvoices.SyncTwice | controller/brandInvoiceCotroller.js:5-60 | repeating the sync changes nothing |
| BrandInvoices.InvoiceFilterSpec | controller/brandInvoiceCotroller.js:80-101 | the invoice listing selects what the public block listing selects, restricted to one payment status, "success" by default |
| BrandInvoices.ListInvoices | controller/brandInvoiceCotroller.js:62-113 | the sort field is the query's, ascending unless the order is "desc" |
| BrandInvoices.ListWindow | controller/brandInvoiceCotroller.js:76-78 | written-out page and limit give skip `(page-1)*limit` and that limit, whatever their sign |
| BrandInvoices.FindId | controller/brandInvoiceCotroller.js:189 | the first position holding the id, or none when no invoice has it |
| BrandInvoices.PatchSpec | controller/brandInvoiceCotroller.js:186-200 | the edit is a partial `$set`: each path the body gives takes its value, every path it does not give is kept, the id and the undeclared block paths never change, and the same body again changes nothing |
| BrandInvoices.UpdateOf | controller/brandInvoiceCotroller.js:186-200 | an unknown id is a 404 with nothing changed; a body naming an order number another invoice holds fails with the unique-index error and nothing changed; otherwise exactly that invoice is patched and every other is kept |
| BrandInvoices.UpdateKeepsKeys | controller/brandInvoiceCotroller.js:186-200 | an edit keeps ids and order numbers unique, changes no id, and changes no order number unless the body gives one |
| BrandInvoices.UpdateIdempotent | controller/brandInvoiceCotroller.js:186-200 | sending the same edit twice stores what sending it once stores |
| BrandInvoices.DuplicateOrderRefused | controller/brandInvoiceCotroller.js:186-200 | a body giving an order number held by another invoice is refused with the collection unchanged |
| BrandInvoices.BrandInvoiceStore.Sync | controller/brandInvoiceCotroller.js:5-60 | the store changes exactly as the sync says and keeps its keys unique |
| BrandInvoices.BrandInvoiceStore.Update | controller/brandInvoiceCotroller.js:186-200 | the store changes exactly as the edit says and keeps its keys unique |

## Left out

- Gateway, cloud and mail I/O. This covers Razorpay order creation and fetch, refunds and invoice
  paging; Cloudinary upload and destroy; SendGrid mail; PDF generation; and Firebase token
  verification, custom tokens and password reset. They are foreign calls. Their results are
  parameters, and the validity of an HMAC-SHA256 payment signature (section 2 of RFC 2104) is a
  boolean input.
- `generateToken`, `forgotPassword` and `loginUser` in `controller/authController.js`. They only
  call the external identity service.
- Mongo mechanics:
  - sessions and transactions;
  - partial failure of an unordered `bulkWrite` or a `$merge`;
  - the drop and re-creation of the `orderNum_1` index (on overflow it stays dropped);
  - the `$lookup` of owners and the `$facet` plumbing beyond the page window;
  - cast errors for malformed ObjectIds;
  - driver errors for a NaN or negative `$skip` or `$limit`;
  - the order Mongo gives to documents whose sort keys are equal.
- Concurrency. This covers simultaneous reflow runs, the "find the largest then add 1" race in
  the pre-save hooks, and the completion order of `Promise.all`.
- Floating point. The model leaves out:
  - the GST splits of the export (`controller/exportController.js:151-192`);
  - the haversine distance and the 500 km radius of the geographic listing;
  - rounding of amounts. Amounts such as `amount / count` and paise divided by 100 are exact
    `real` values.
- Date and timezone behaviour of JavaScript `Date`. Years, months, minutes since midnight and
  `now` are integer parameters, so the local-time reading of a date is left out.
- Case-insensitive `RegExp(x, "i")` filters. They are an uninterpreted matcher parameter. Joi is
  modelled only through the bounds it states.
- Routing and wiring, the cron scheduling itself, and the plain CRUD readers
  (`service/authService.js`, `controller/employeeController.js`, `controller/BlockReasonController.js`).
- The `totalBlocks` default of `model/BrandBlock.js`. It reads `this` inside an arrow function,
  so it does not compute `w*h`. The model does not use it.
- Invoice fields that the gateway's data supplies and the sync copies unchanged. Only the
  fields the code computes are modelled.
- Global uniqueness of subscription invoice numbers is not proved. Only the sequence rule of
  `service/InvoiceNumberGenerator.js` is proved.
- UpdateOf, UpdateKeepsKeys, UpdateIdempotent and DuplicateOrderRefused assume the unique index on
  `orderNum` that the `$merge` of the sync needs; the schema declares none, and without it the
  program would store a duplicate order number (and every sync would fail). Values of the edit
  body that do not cast to their path's type (a cast error) are not modelled: `InvoicePatch`
  carries typed values.
- UpdateDetails, UpdateDetailsSpec and UpdateDetailsWitness describe the intended handler: the image
  client imported and a block schema that declares both galleries and the edited keys. With only
  the import repaired, a request with files still fails (`BrandDetails.ImportOnlyStillFails`).
- Admit, ConfirmAndShift and the reflow members (`Reflow.Pieces` onwards) take `w` and `h` as
  integers. The schema types them as Number and the handler checks only `typeof` and the range,
  so the program also accepts, prices and packs a fractional size such as 1.5; fractional geometry
  is not modelled.
- VerifyPurchase answers the whole stored block, where the program projects it onto `_id orderNum
  brandName description details location logoUrl x y w h`.
- Found lists the found spaces in the order first requested, where the database answers `$in` in
  its natural order. So the model does not capture the order the program uses for four things.
  `createOrder` creates one transaction per space in that order, so the order decides which space's
  transaction gets which id and the order of `data.transactions` in its reply. `verifyPayment`
  reads the transactions back in insertion order, so the order also fixes the order of the spaces
  it marks and returns. Finally, it decides which refused space an error names.
- SaveEmailOf, NormalizeIdempotent and NormalizedShape lower-case only the letters A to Z, where
  `toLowerCase` maps all of Unicode. The program turns U+212A KELVIN SIGN into "k" and saves
  "\u212A@b.com" as "k@b.com"; the model keeps the sign, so the address fails the pattern and is
  answered with a 500.
- Cast, RegisterOf, EditOf and UpdateError list several broken paths in the schema's order; the
  order Mongoose lists them in is not modelled. A cast error's message quotes the value as the
  request gave it, in the wording of Mongoose 6 and later. A JSON number is an integer here, so a
  fractional number sent for a text path or a flag is not modelled.
- CreateOf takes the name and the address as text. A number sent for either gets past the 400
  check and is cast to its decimal text by the schema; that path is not modelled.
- ConfirmAndShift answers a save failure with the program's `error` text only; the
  `details` field carrying Mongoose's message is not modelled. A coordinate is either a number
  that casts, null, or uncastable; `Numeric` holds the cast value, not the text it came from.

## Findings

| source | as written | input that shows it | evidently intended | confidence | as-written member | corrected member |
|---|---|---|---|---|---|---|
| controller/gridController.js:141-146 | `reserveGridSpace` throws `new ApiError(...)`, but the file never imports `ApiError`, so each guard raises a ReferenceError | a reservation for a space id that does not exist: the client reads "ApiError is not defined" | the refusal carries its reason, "Grid space not found" or "Only available spaces can be reserved" | high, not executed | GridController.ReserveAsWritten | GridController.Reserve |
| controller/uploadController.js:57-81 | `deleteGridImage` names its parameter `rest` but replies through `res` | deleting the image of a space the caller owns | the image is cleared and a success reply is sent | high, not executed | Uploads.DeleteReplyAsWritten | Uploads.DeleteReply |
| controller/brandDetailEditController.js:47 | `updateBrandDetailsById` uploads through `cloudinary`, which the file never imports; the block schema also declares neither gallery nor any edited key, so even an edit without files changes nothing | an edit carrying one image file | the files are uploaded, their URLs are appended to the block and the text fields are set | high, not executed | BrandDetails.UpdateDetailsWitness | BrandDetails.UpdateDetailsSpec |
| controller/ViewController.js:15-17 | the owner branch sends a reply but does not return, so the owner's own first visit is recorded and mailed to them; the view count is bumped on `views`, which the block schema lacks, so it is never stored | the block's owner viewing their own block for the first time | the owner's visit is not recorded, and other visitors' views are counted on the block | high, not executed | Views.VisitAsWritten | Views.VisitOf |
| model/User.js:14-32 | `email`, `phone` and `firebaseUid` are unique but not sparse, so two users without a phone collide on the missing value | registering a second user who has no phone number | only values that are present must be unique | medium, not executed | Users.ClashAsWritten | Users.Clash |
| controller/exportController.js:43-65 | the financial-year test is `month >= 1`, which every month passes, so the exported invoice number carries the wrong year from January to March | a block numbered 12 created in February 2025 is exported as "BII/2025-26/12" | the April-to-March year, "BII/2024-25/12" | high, not executed | Export.ExportFebruaryWitness | Export.YearPairIsFinancialYear |
