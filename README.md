# Real-estate ledger chaincode, modelled in Dafny

This project models the Hyperledger Fabric smart contract of the real-estate
ledger (`realestatesec_chaincode/chaincode/chaincode.go`). The contract keeps
property listings, the bids on them and agent/client representation
agreements in the channel's world state. That world state is a flat key-value
store, and both kinds of record sit under their raw ID in one keyspace.

Every state-changing entry point does the same thing. It reads one record and
checks that the record exists (or that it does not). It then changes some
fields and writes the whole record back with one `PutState`. The two listing
entry points scan the whole keyspace in key order.

## Layout

- `records.dfy` (module `Records`): the `Bid`, `Property` and `Representation`
  records, the stored `Record` (`Prop` or `Rep`), the State and Status strings,
  the errors, and the two decoding projections `AsProperty` and
  `AsRepresentation`.
- `transitions.dfy` (module `Transitions`): one function per state-changing
  handler. Each maps the world state before the transaction to the state after
  it, or to the error the handler returns. Their contracts state the handlers'
  properties: which error when, which single key is written, which fields
  change and which stay. Lemmas relate several calls.
- `invocations.dfy` (module `Invocations`): sequences of submitted
  transactions. It proves the world-state invariants over any such sequence:
  IsActive exactly when Status is "accepted", every record's ID equals its key,
  every bid is keyed by its own ID, and records are never deleted.
- `scans.dfy` (module `Scans`): the full range scan `GetStateByRange("", "")`.
  A scan is a strictly key-ordered list of every (key, record) pair. This module
  proves that a scan of a state always exists, is unique and has one pair per
  key. It also defines the username filter of `ListRepresentations`.
- `chaincode.dfy` (module `Chaincode`): class `SmartContract`, which holds the
  world state as a `map` field. It has one method per entry point, written as
  the Go code is (read, check, update fields, put). Each mutating method's
  contract ties its returned error and its new world state to the matching
  `Transitions` function. The two scans are loops over the scan sequence.
  The class is the imperative rendering of the handlers, and the
  `Transitions` functions are its specification: each handler appears twice,
  once as a method that updates the field and once as the function its
  contract names.

## Modelling decisions

- **Values, not JSON.** Records are Dafny values. `json.Unmarshal` into the
  other kind's struct does not fail in Go, because unknown keys are ignored.
  The two shapes share only the `"ID"` key. So `AsProperty` of a
  representation keeps its ID, and all other fields are empty with a nil Bids
  map. `AsRepresentation` of a property keeps its ID, with all other fields
  empty and IsActive false.
- **Nil Bids map.** `BidsField` is `Nil` or `Made(table)`. `RegisterProperty`
  makes an empty map. A property decoded from a representation document has a
  nil map. `PlaceBid` on such a record reaches `property.Bids[id] = bid`, and
  Go panics on assignment into a nil map. The model returns
  `Err(NilMapAssignment)` and leaves the world state unchanged, because the
  transaction never commits.
- **Shared keyspace consequences that the model keeps.**
  `PropertyExists` and `RepresentationExists` are the same lookup. Any record
  at an ID blocks both `RegisterProperty` and `RequestRepresentation`.
  `ListProperty` on a representation's ID writes a Property there.
  `DeclineRepresentation` and `AcceptRepresentation` on a property's ID write
  a Representation there. `ViewProperties` returns one entry per key of either
  kind, so N registrations under fresh distinct IDs on an empty ledger give N
  entries (`Chaincode.ViewAfterRegistrations`). `ListRepresentations` lists a property record exactly when the
  username is empty (`Scans.PropertyListedOnlyForEmptyUsername`). The code
  does not abort on a record of the other kind; the model follows the code.
- **Timestamp.** `GetTxTimestamp().String()` becomes a `now: string`
  parameter of the methods that stamp RequestedAt or SignedAt.
- **Scans.** The listing methods take the scan as a `seq<KV>` argument, with
  the precondition `IsScan(scan, worldState)`. `Scans.ScanExists` proves that
  this precondition can always be met, and `Scans.ScanUnique` proves that the
  scan is determined by the world state. Key order is the order in which
  Fabric's state database returns a range: byte-wise order of the UTF-8 keys.
  It is modelled as lexicographic order on characters, because UTF-8 byte
  order agrees with code-point order.
- **Statuses.** The code uses only "pending", "declined" and "accepted". There
  is no "invited" status and no guard on the prior status. Accept after
  Decline, and Decline after Accept, both succeed; the model keeps that.

## Model

| member | source | states |
|---|---|---|
| Records.AsProperty | contracts/real-estate-ledger-go/realestatesec_chaincode/chaincode/chaincode.go:236-241 | decoding a stored record as a Property keeps its ID; a property record decodes to itself; a representation record decodes to empty fields and a nil Bids map |
| Records.AsRepresentation | contracts/real-estate-ledger-go/realestatesec_chaincode/chaincode/chaincode.go:95-99 | decoding a stored record as a Representation keeps its ID; a representation record decodes to itself; a property record decodes to empty usernames, dates, status, RequestedAt and SignedAt, and IsActive false |
| Transitions.RegisterProperty | contracts/real-estate-ledger-go/realestatesec_chaincode/chaincode/chaincode.go:200-222 | fails with AlreadyExists exactly when any record is at id; otherwise writes only key id, holding a Property with the given ID, Address, Owner and Agent, State "Not for sale" and an empty Bids map |
| Transitions.ListProperty | contracts/real-estate-ledger-go/realestatesec_chaincode/chaincode/chaincode.go:225-249 | fails with NotFound exactly when id is absent; otherwise writes only key id, and the property there keeps ID, Address, Owner, Agent and Bids and has State "Listed", whatever the prior State |
| Transitions.PlaceBid | contracts/real-estate-ledger-go/realestatesec_chaincode/chaincode/chaincode.go:277-311 | NotFound when the property is absent; AlreadyExists when the bid ID is already in its Bids; NilMapAssignment on a nil Bids map; succeeds exactly otherwise, writing only that key: Bids gains exactly the new bid with both counter flags false, and every other bid and field is unchanged |
| Transitions.RejectBid | contracts/real-estate-ledger-go/realestatesec_chaincode/chaincode/chaincode.go:314-341 | fails with NotFound exactly when the property or the bid is absent; otherwise writes only that key, and the new Bids is the old one with exactly that entry removed; other fields are unchanged |
| Transitions.CounterBid | contracts/real-estate-ledger-go/realestatesec_chaincode/chaincode/chaincode.go:344-376 | fails with NotFound exactly when the property or the bid is absent; otherwise only the target bid's Amount changes: its ID, Bidder, Agent and both flags, every other bid and the property fields stay the same |
| Transitions.RequestRepresentation | contracts/real-estate-ledger-go/realestatesec_chaincode/chaincode/chaincode.go:53-84 | fails with AlreadyExists exactly when any record is at the ID; otherwise writes only that key, holding Status "pending", IsActive false, RequestedAt the transaction time, SignedAt empty and the given usernames and dates |
| Transitions.DeclineRepresentation | contracts/real-estate-ledger-go/realestatesec_chaincode/chaincode/chaincode.go:86-110 | fails with NotFound exactly when the ID is absent; otherwise writes only that key, with Status "declined" and IsActive false, and ID, usernames, dates, RequestedAt and SignedAt preserved; no guard on the prior status |
| Transitions.AcceptRepresentation | contracts/real-estate-ledger-go/realestatesec_chaincode/chaincode/chaincode.go:112-142 | fails with NotFound exactly when the ID is absent; otherwise writes only that key, with Status "accepted", SignedAt the transaction time and IsActive true, and ID, usernames, dates and RequestedAt preserved; no guard on the prior status |
| Transitions.CreationBlockedByAnyRecord | contracts/real-estate-ledger-go/realestatesec_chaincode/chaincode/chaincode.go:191-207 | in the shared keyspace, a record of either kind at an ID makes both RegisterProperty and RequestRepresentation fail with AlreadyExists |
| Transitions.ListPropertyIdempotent | contracts/real-estate-ledger-go/realestatesec_chaincode/chaincode/chaincode.go:225-249 | listing a property twice leaves the same world state and outcome as listing it once |
| Transitions.PlaceThenRejectRestores | contracts/real-estate-ledger-go/realestatesec_chaincode/chaincode/chaincode.go:277-341 | a successful PlaceBid of a fresh bid followed by RejectBid of the same bid restores the original world state exactly |
| Transitions.CounterBidLastWins | contracts/real-estate-ledger-go/realestatesec_chaincode/chaincode/chaincode.go:361-366 | a second counter-offer on the same bid gives the same result as making only the second one |
| Transitions.RequestThenAccept | contracts/real-estate-ledger-go/realestatesec_chaincode/chaincode/chaincode.go:67-134 | a request followed by its acceptance yields Status "accepted", IsActive true, SignedAt the accept time and RequestedAt the request time, with the request's usernames and dates |
| Invocations.ExecuteWritesOneKey | contracts/real-estate-ledger-go/realestatesec_chaincode/chaincode/chaincode.go:53-376 | every state-changing transaction either fails and leaves the world state unchanged or writes exactly the one key it names |
| Invocations.ExecuteKeepsWellFormed | contracts/real-estate-ledger-go/realestatesec_chaincode/chaincode/chaincode.go:53-376 | every handler keeps the invariant: each record's ID is its key, each property's State is "Not for sale" or "Listed" with bids keyed by their own IDs, and each representation is active exactly when accepted, with a known status |
| Invocations.RunKeepsWellFormed | contracts/real-estate-ledger-go/realestatesec_chaincode/chaincode/chaincode.go:53-376 | the invariant holds after any sequence of transactions |
| Invocations.RunKeepsKeys | contracts/real-estate-ledger-go/realestatesec_chaincode/chaincode/chaincode.go:53-376 | no sequence of transactions deletes a record; the set of keys only grows |
| Invocations.RunKeepsActiveIffAccepted | contracts/real-estate-ledger-go/realestatesec_chaincode/chaincode/chaincode.go:67-142 | after any sequence of transactions, every record viewed as a Representation is active exactly when its Status is "accepted" |
| Invocations.RegisterDistinct | contracts/real-estate-ledger-go/realestatesec_chaincode/chaincode/chaincode.go:200-222 | registering properties under distinct unused IDs adds exactly those keys, keeps every existing record, and stores each property with its registered fields |
| Invocations.IdsCard | contracts/real-estate-ledger-go/realestatesec_chaincode/chaincode/chaincode.go:200-222 | fresh registrations under distinct IDs name exactly as many IDs as there are registrations |
| Invocations.RegisterCount | contracts/real-estate-ledger-go/realestatesec_chaincode/chaincode/chaincode.go:200-222 | N fresh registrations under distinct unused IDs grow the world state by exactly N records |
| Scans.ScanLength | contracts/real-estate-ledger-go/realestatesec_chaincode/chaincode/chaincode.go:253-272 | a full range scan yields exactly one pair per key of the world state |
| Scans.ScanUnique | contracts/real-estate-ledger-go/realestatesec_chaincode/chaincode/chaincode.go:253-260 | two key-ordered full scans of the same world state are equal, so the listings depend on the world state alone |
| Scans.ScanExists | contracts/real-estate-ledger-go/realestatesec_chaincode/chaincode/chaincode.go:145-152 | every world state has a key-ordered full scan |
| Scans.Matching | contracts/real-estate-ledger-go/realestatesec_chaincode/chaincode/chaincode.go:151-170 | the filtered list is no longer than the scan, and each representation in it has the username as client or agent |
| Scans.MatchingConcat | contracts/real-estate-ledger-go/realestatesec_chaincode/chaincode/chaincode.go:152-168 | the filter keeps scan order: filtering a concatenation gives the concatenation of the filtered parts |
| Scans.MatchingComplete | contracts/real-estate-ledger-go/realestatesec_chaincode/chaincode/chaincode.go:164-167 | every scanned record whose decoded client or agent is the username is in the list |
| Scans.MatchingSound | contracts/real-estate-ledger-go/realestatesec_chaincode/chaincode/chaincode.go:158-167 | every listed representation is the decoding of some scanned record |
| Scans.PropertyListedOnlyForEmptyUsername | contracts/real-estate-ledger-go/realestatesec_chaincode/chaincode/chaincode.go:158-167 | a property record in the scan appears in the list exactly when the username is empty |
| Chaincode.SmartContract.RepresentationExists | contracts/real-estate-ledger-go/realestatesec_chaincode/chaincode/chaincode.go:44-51 | true exactly when some record is stored at the ID |
| Chaincode.SmartContract.RequestRepresentation | contracts/real-estate-ledger-go/realestatesec_chaincode/chaincode/chaincode.go:53-84 | the returned error and the new world state are those of Transitions.RequestRepresentation on the old world state |
| Chaincode.SmartContract.DeclineRepresentation | contracts/real-estate-ledger-go/realestatesec_chaincode/chaincode/chaincode.go:86-110 | the returned error and the new world state are those of Transitions.DeclineRepresentation on the old world state |
| Chaincode.SmartContract.AcceptRepresentation | contracts/real-estate-ledger-go/realestatesec_chaincode/chaincode/chaincode.go:112-142 | the returned error and the new world state are those of Transitions.AcceptRepresentation on the old world state |
| Chaincode.SmartContract.ListRepresentations | contracts/real-estate-ledger-go/realestatesec_chaincode/chaincode/chaincode.go:144-171 | returns, in scan order, exactly the decoded scanned records whose client or agent is the username: every one listed involves the username, comes from the scan, and every involved one is listed |
| Chaincode.SmartContract.GetRepresentation | contracts/real-estate-ledger-go/realestatesec_chaincode/chaincode/chaincode.go:173-189 | NotFound when the ID is absent; otherwise the stored record decoded as a Representation, which is the stored representation unchanged when the record is one |
| Chaincode.SmartContract.PropertyExists | contracts/real-estate-ledger-go/realestatesec_chaincode/chaincode/chaincode.go:191-198 | true exactly when some record is stored at the ID |
| Chaincode.SmartContract.RegisterProperty | contracts/real-estate-ledger-go/realestatesec_chaincode/chaincode/chaincode.go:200-223 | the returned error and the new world state are those of Transitions.RegisterProperty on the old world state |
| Chaincode.SmartContract.ListProperty | contracts/real-estate-ledger-go/realestatesec_chaincode/chaincode/chaincode.go:225-250 | the returned error and the new world state are those of Transitions.ListProperty on the old world state |
| Chaincode.SmartContract.ViewProperties | contracts/real-estate-ledger-go/realestatesec_chaincode/chaincode/chaincode.go:252-275 | returns every scanned record decoded as a Property, in scan order; its length equals the number of keys, and every stored record's decoding is in it |
| Chaincode.SmartContract.PlaceBid | contracts/real-estate-ledger-go/realestatesec_chaincode/chaincode/chaincode.go:277-312 | the returned error and the new world state are those of Transitions.PlaceBid on the old world state |
| Chaincode.SmartContract.RejectBid | contracts/real-estate-ledger-go/realestatesec_chaincode/chaincode/chaincode.go:314-342 | the returned error and the new world state are those of Transitions.RejectBid on the old world state |
| Chaincode.SmartContract.CounterBid | contracts/real-estate-ledger-go/realestatesec_chaincode/chaincode/chaincode.go:344-376 | the returned error and the new world state are those of Transitions.CounterBid on the old world state |
| Chaincode.ViewAfterRegistrations | contracts/real-estate-ledger-go/realestatesec_chaincode/chaincode/chaincode.go:200-275 | after N registrations under distinct fresh IDs on an empty ledger, ViewProperties returns exactly N properties, and each registered property, with State "Not for sale" and an empty Bids map, is among them |
| Chaincode.RegisterBidViewScenario | contracts/real-estate-ledger-go/realestatesec_chaincode/chaincode/chaincode.go:200-311 | on an empty ledger, registering P1, bidding B1 on it and viewing all properties yields exactly one property, P1, with State "Not for sale" and only bid B1, whose counter flags are both false |

## Left out

- Key rules of the Fabric shim (not part of this model): `PutState` refuses the empty key, so `RegisterProperty` and `RequestRepresentation` with ID "" fail in Fabric but succeed in the model; and `GetStateByRange("", "")` starts at "\x01", so a key beginning with U+0000 is never scanned, while the model's scan covers every key.
- Storage and iterator failures: the error branches after `GetState`, `PutState`, `GetStateByRange`, `Next` and `GetTxTimestamp` are not modelled. They are failures of the Fabric library; the model treats the world state as a total map.
- JSON encoding: `json.Marshal` and `json.Unmarshal` of well-formed records are not modelled as bytes. Records are values, and cross-kind decoding is the projection described above.
- Timestamp formatting: the protobuf `Timestamp.String()` text is not modelled. The timestamp is an opaque string parameter.
- Panics: Go's panic on assignment into a nil map is modelled as the error `NilMapAssignment`, not as a crash of the chaincode process.
- Result slices: Go returns a nil slice when `ListRepresentations` or `ViewProperties` finds nothing. The model returns an empty sequence.
- Concurrency and commit: Fabric's endorsement, ordering, MVCC read-set validation and commit are not modelled. Each method is one transaction run alone against its snapshot.
- Access control: the source has only placeholder comments for it, so nothing is modelled.
- Counter flags: `BuyerCountered` and `SellerCountered` are kept as fields. No handler sets them, and no meaning is given to them.
- Integer width: Go's `int` amount is stored and replaced but never computed with, so an unbounded `int` loses nothing.
- `contracts/real-estate-ledger-go/gateway-application/main.go` is not part of this model. It covers the gRPC connection, X.509 identity, signing and printing of results.
