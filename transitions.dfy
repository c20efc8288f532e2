/**
 * What each state-changing handler of the chaincode does to the world state,
 * as a function from the state before the transaction to either the state
 * after it or the error the handler returns. A failing handler writes
 * nothing, so the transaction leaves the state as it was (Commit).
 */
module Transitions {
  import opened Records

  /** The flat key-value world state: raw ID to stored record, both kinds together. */
  type WorldState = map<string, Record>

  /** s' is s with at most the one key k written (added or overwritten). */
  ghost predicate OnlyAt(s: WorldState, s': WorldState, k: string)
  {
    && s'.Keys == s.Keys + {k}
    && forall j :: j in s && j != k ==> s'[j] == s[j]
  }

  /** The state once the transaction is over: the handler's writes, or none on error. */
  function Commit(s: WorldState, r: Result<WorldState>): WorldState
  {
    if r.Ok? then r.value else s
  }

  /** The error (or nil error) the handler returns to its caller. */
  function Outcome(r: Result<WorldState>): Result<()>
  {
    if r.Ok? then Ok(()) else Err(r.error)
  }

  /** b.id is new in before, and after is before with exactly b added under its ID. */
  ghost predicate BidAdded(before: map<string, Bid>, after: map<string, Bid>, b: Bid)
  {
    && b.id !in before
    && after.Keys == before.Keys + {b.id}
    && after[b.id] == b
    && forall k :: k in before ==> after[k] == before[k]
  }

  /** id was in before, and after is before with exactly that entry removed. */
  ghost predicate BidRemoved(before: map<string, Bid>, after: map<string, Bid>, id: string)
  {
    && id in before
    && after.Keys == before.Keys - {id}
    && forall k :: k in after ==> after[k] == before[k]
  }

  /** id was in before, and after differs from before only in the Amount of that bid. */
  ghost predicate BidCountered(before: map<string, Bid>, after: map<string, Bid>, id: string, amount: int)
  {
    && id in before
    && after.Keys == before.Keys
    && SameBidExceptAmount(before[id], after[id])
    && after[id].amount == amount
    && forall k :: k in before && k != id ==> after[k] == before[k]
  }

  function RegisterProperty(s: WorldState, id: string, address: string, owner: string, agent: string)
    : (r: Result<WorldState>)
    ensures r.Err? <==> id in s
    ensures r.Err? ==> r.error == AlreadyExists
    ensures r.Ok? ==> && OnlyAt(s, r.value, id)
                      && r.value[id] == Prop(Property(id, address, owner, agent, NotForSale, Made(map[])))
  {
    if id in s then Err(AlreadyExists)
    else
      var property := Property(id, address, owner, agent, NotForSale, Made(map[]));
      Ok(s[id := Prop(property)])
  }

  function ListProperty(s: WorldState, id: string): (r: Result<WorldState>)
    ensures r.Err? <==> id !in s
    ensures r.Err? ==> r.error == NotFound
    ensures r.Ok? ==> && OnlyAt(s, r.value, id)
                      && r.value[id].Prop?
                      && var before, after := AsProperty(s[id]), r.value[id].prop;
                         && SameDetails(before, after)
                         && after.bids == before.bids
                         && after.state == Listed
  {
    if id !in s then Err(NotFound)
    else
      var property := AsProperty(s[id]);
      Ok(s[id := Prop(property.(state := Listed))])
  }

  function PlaceBid(s: WorldState, propertyId: string, id: string, amount: int, bidder: string, agent: string)
    : (r: Result<WorldState>)
    ensures propertyId !in s ==> r == Err(NotFound)
    ensures propertyId in s && id in AsProperty(s[propertyId]).bids.Entries() ==> r == Err(AlreadyExists)
    ensures propertyId in s && AsProperty(s[propertyId]).bids.Nil? ==> r == Err(NilMapAssignment)
    ensures r.Ok? <==> && propertyId in s
                       && AsProperty(s[propertyId]).bids.Made?
                       && id !in AsProperty(s[propertyId]).bids.table
    ensures r.Ok? ==> && OnlyAt(s, r.value, propertyId)
                      && r.value[propertyId].Prop?
                      && var before, after := AsProperty(s[propertyId]), r.value[propertyId].prop;
                         && SameDetails(before, after)
                         && after.state == before.state
                         && after.bids.Made?
                         && BidAdded(before.bids.table, after.bids.table, Bid(id, amount, bidder, agent, false, false))
  {
    if propertyId !in s then Err(NotFound)
    else
      var property := AsProperty(s[propertyId]);
      if id in property.bids.Entries() then Err(AlreadyExists)
      else if property.bids.Nil? then Err(NilMapAssignment)
      else
        var bid := Bid(id, amount, bidder, agent, false, false);
        Ok(s[propertyId := Prop(property.(bids := Made(property.bids.table[id := bid])))])
  }

  function RejectBid(s: WorldState, propertyId: string, id: string): (r: Result<WorldState>)
    ensures r.Err? <==> propertyId !in s || id !in AsProperty(s[propertyId]).bids.Entries()
    ensures r.Err? ==> r.error == NotFound
    ensures r.Ok? ==> && OnlyAt(s, r.value, propertyId)
                      && r.value[propertyId].Prop?
                      && var before, after := AsProperty(s[propertyId]), r.value[propertyId].prop;
                         && SameDetails(before, after)
                         && after.state == before.state
                         && after.bids.Made?
                         && BidRemoved(before.bids.Entries(), after.bids.table, id)
  {
    if propertyId !in s then Err(NotFound)
    else
      var property := AsProperty(s[propertyId]);
      if id !in property.bids.Entries() then Err(NotFound)
      else Ok(s[propertyId := Prop(property.(bids := Made(property.bids.table - {id})))])
  }

  function CounterBid(s: WorldState, propertyId: string, id: string, amount: int): (r: Result<WorldState>)
    ensures r.Err? <==> propertyId !in s || id !in AsProperty(s[propertyId]).bids.Entries()
    ensures r.Err? ==> r.error == NotFound
    ensures r.Ok? ==> && OnlyAt(s, r.value, propertyId)
                      && r.value[propertyId].Prop?
                      && var before, after := AsProperty(s[propertyId]), r.value[propertyId].prop;
                         && SameDetails(before, after)
                         && after.state == before.state
                         && after.bids.Made?
                         && BidCountered(before.bids.Entries(), after.bids.table, id, amount)
  {
    if propertyId !in s then Err(NotFound)
    else
      var property := AsProperty(s[propertyId]);
      if id !in property.bids.Entries() then Err(NotFound)
      else
        var bid := property.bids.table[id].(amount := amount);
        Ok(s[propertyId := Prop(property.(bids := Made(property.bids.table[id := bid])))])
  }

  function RequestRepresentation(s: WorldState, id: string, clientUsername: string, agentUsername: string,
                                 startDate: string, endDate: string, now: string)
    : (r: Result<WorldState>)
    ensures r.Err? <==> id in s
    ensures r.Err? ==> r.error == AlreadyExists
    ensures r.Ok? ==> && OnlyAt(s, r.value, id)
                      && r.value[id] == Rep(Representation(id, clientUsername, agentUsername, startDate, endDate,
                                                           Pending, now, "", false))
                      && ActiveIffAccepted(r.value[id].rep)
  {
    if id in s then Err(AlreadyExists)
    else
      var representation := Representation(id, clientUsername, agentUsername, startDate, endDate,
                                            Pending, now, "", false);
      Ok(s[id := Rep(representation)])
  }

  function DeclineRepresentation(s: WorldState, id: string): (r: Result<WorldState>)
    ensures r.Err? <==> id !in s
    ensures r.Err? ==> r.error == NotFound
    ensures r.Ok? ==> && OnlyAt(s, r.value, id)
                      && r.value[id].Rep?
                      && var before, after := AsRepresentation(s[id]), r.value[id].rep;
                         && SameAgreement(before, after)
                         && after.signedAt == before.signedAt
                         && after.status == Declined
                         && !after.isActive
                         && ActiveIffAccepted(after)
  {
    if id !in s then Err(NotFound)
    else
      var representation := AsRepresentation(s[id]);
      Ok(s[id := Rep(representation.(status := Declined, isActive := false))])
  }

  function AcceptRepresentation(s: WorldState, id: string, now: string): (r: Result<WorldState>)
    ensures r.Err? <==> id !in s
    ensures r.Err? ==> r.error == NotFound
    ensures r.Ok? ==> && OnlyAt(s, r.value, id)
                      && r.value[id].Rep?
                      && var before, after := AsRepresentation(s[id]), r.value[id].rep;
                         && SameAgreement(before, after)
                         && after.signedAt == now
                         && after.status == Accepted
                         && after.isActive
                         && ActiveIffAccepted(after)
  {
    if id !in s then Err(NotFound)
    else
      var representation := AsRepresentation(s[id]);
      Ok(s[id := Rep(representation.(status := Accepted, signedAt := now, isActive := true))])
  }

  // Properties relating several handler calls.

  /** Properties and representations share one keyspace: any record at id blocks both creations. */
  lemma CreationBlockedByAnyRecord(s: WorldState, id: string, address: string, owner: string, agent: string,
                                   clientUsername: string, agentUsername: string,
                                   startDate: string, endDate: string, now: string)
    requires id in s
    ensures RegisterProperty(s, id, address, owner, agent) == Err(AlreadyExists)
    ensures RequestRepresentation(s, id, clientUsername, agentUsername, startDate, endDate, now) == Err(AlreadyExists)
  {
  }

  /** Listing does not look at the prior State, so listing twice is listing once. */
  lemma ListPropertyIdempotent(s: WorldState, id: string)
    ensures ListProperty(Commit(s, ListProperty(s, id)), id) == ListProperty(s, id)
  {
    if id in s {
      var once := ListProperty(s, id).value;
      var p := AsProperty(s[id]).(state := Listed);
      assert once == s[id := Prop(p)];
      assert AsProperty(once[id]).(state := Listed) == p;
      assert once[id := Prop(p)] == once;
    }
  }

  /** Placing a fresh bid and then rejecting it restores the property record exactly. */
  lemma {:induction false} PlaceThenRejectRestores(s: WorldState, propertyId: string, id: string, amount: int,
                                                   bidder: string, agent: string)
    requires PlaceBid(s, propertyId, id, amount, bidder, agent).Ok?
    ensures RejectBid(PlaceBid(s, propertyId, id, amount, bidder, agent).value, propertyId, id) == Ok(s)
  {
    var p := AsProperty(s[propertyId]);
    var bid := Bid(id, amount, bidder, agent, false, false);
    var placed := PlaceBid(s, propertyId, id, amount, bidder, agent).value;
    assert s[propertyId] == Prop(p);
    assert placed[propertyId] == Prop(p.(bids := Made(p.bids.table[id := bid])));
    assert p.bids.table[id := bid] - {id} == p.bids.table;
    assert p.(bids := Made(p.bids.table)) == p;
    assert placed[propertyId := Prop(p)] == s;
  }

  /** A second counter-offer on the same bid overrides the first. */
  lemma CounterBidLastWins(s: WorldState, propertyId: string, id: string, first: int, second: int)
    requires CounterBid(s, propertyId, id, first).Ok?
    ensures CounterBid(CounterBid(s, propertyId, id, first).value, propertyId, id, second)
         == CounterBid(s, propertyId, id, second)
  {
    var p := AsProperty(s[propertyId]);
    var once := CounterBid(s, propertyId, id, first).value;
    var b1 := p.bids.table[id].(amount := first);
    var b2 := p.bids.table[id].(amount := second);
    assert once == s[propertyId := Prop(p.(bids := Made(p.bids.table[id := b1])))];
    var q := AsProperty(once[propertyId]);
    assert q == p.(bids := Made(p.bids.table[id := b1]));
    assert q.bids.table[id].(amount := second) == b2;
    assert p.bids.table[id := b1][id := b2] == p.bids.table[id := b2];
    assert once[propertyId := Prop(q.(bids := Made(q.bids.table[id := b2])))]
        == s[propertyId := Prop(p.(bids := Made(p.bids.table[id := b2])))];
  }

  /** A request followed by its acceptance gives an active, signed agreement that keeps the request time. */
  lemma RequestThenAccept(s: WorldState, id: string, clientUsername: string, agentUsername: string,
                          startDate: string, endDate: string, requestedAt: string, signedAt: string)
    requires id !in s
    ensures var requested := RequestRepresentation(s, id, clientUsername, agentUsername, startDate, endDate, requestedAt);
            && requested.Ok?
            && AcceptRepresentation(requested.value, id, signedAt)
               == Ok(s[id := Rep(Representation(id, clientUsername, agentUsername, startDate, endDate,
                                                 Accepted, requestedAt, signedAt, true))])
  {
    var requested := RequestRepresentation(s, id, clientUsername, agentUsername, startDate, endDate, requestedAt).value;
    assert requested[id := Rep(Representation(id, clientUsername, agentUsername, startDate, endDate,
                                              Accepted, requestedAt, signedAt, true))]
        == s[id := Rep(Representation(id, clientUsername, agentUsername, startDate, endDate,
                                      Accepted, requestedAt, signedAt, true))];
  }
}
