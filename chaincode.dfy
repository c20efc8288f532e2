/**
 * The chaincode's entry points as methods on the world state they read and
 * write. Each state-changing method reads one record, checks that it exists
 * (or that it does not), changes some fields and writes the whole record
 * back with one put; its contract ties the outcome and the new world state
 * to the matching function of Transitions, whose own contracts state the
 * properties. The two listing methods walk a full range scan of the state.
 */
module Chaincode {
  import opened Records
  import T = Transitions
  import opened Scans
  import I = Invocations

  class SmartContract {
    /** The channel's world state, as this transaction sees it. */
    var worldState: T.WorldState

    constructor (initial: T.WorldState)
      ensures worldState == initial
    {
      worldState := initial;
    }

    method RepresentationExists(id: string) returns (found: bool)
      ensures found <==> id in worldState
    {
      found := id in worldState;
    }

    method RequestRepresentation(representationId: string, clientUsername: string, agentUsername: string,
                                 startDate: string, endDate: string, now: string)
      returns (outcome: Result<()>)
      modifies this
      ensures var tx := T.RequestRepresentation(old(worldState), representationId, clientUsername, agentUsername,
                                                startDate, endDate, now);
              outcome == T.Outcome(tx) && worldState == T.Commit(old(worldState), tx)
    {
      var found := RepresentationExists(representationId);
      if found {
        return Err(AlreadyExists);
      }
      var representation := Representation(representationId, clientUsername, agentUsername, startDate, endDate,
                                            Pending, now, "", false);
      worldState := worldState[representationId := Rep(representation)];
      return Ok(());
    }

    method DeclineRepresentation(representationId: string) returns (outcome: Result<()>)
      modifies this
      ensures var tx := T.DeclineRepresentation(old(worldState), representationId);
              outcome == T.Outcome(tx) && worldState == T.Commit(old(worldState), tx)
    {
      if representationId !in worldState {
        return Err(NotFound);
      }
      var representation := AsRepresentation(worldState[representationId]);
      representation := representation.(status := Declined);
      representation := representation.(isActive := false);
      worldState := worldState[representationId := Rep(representation)];
      return Ok(());
    }

    method AcceptRepresentation(representationId: string, now: string) returns (outcome: Result<()>)
      modifies this
      ensures var tx := T.AcceptRepresentation(old(worldState), representationId, now);
              outcome == T.Outcome(tx) && worldState == T.Commit(old(worldState), tx)
    {
      if representationId !in worldState {
        return Err(NotFound);
      }
      var representation := AsRepresentation(worldState[representationId]);
      representation := representation.(status := Accepted);
      representation := representation.(signedAt := now);
      representation := representation.(isActive := true);
      worldState := worldState[representationId := Rep(representation)];
      return Ok(());
    }

    /**
     * The representations of the scanned records (each decoded as a
     * Representation) whose client or agent is username, in scan order.
     */
    method ListRepresentations(scan: seq<KV>, username: string) returns (representations: seq<Representation>)
      requires IsScan(scan, worldState)
      ensures representations == Matching(scan, username)
      ensures forall a :: a in representations ==> Involves(a, username)
      ensures forall i :: 0 <= i < |scan| && Involves(AsRepresentation(scan[i].value), username) ==>
                AsRepresentation(scan[i].value) in representations
      ensures forall a :: a in representations ==> exists i :: 0 <= i < |scan| && AsRepresentation(scan[i].value) == a
    {
      representations := [];
      var i := 0;
      while i < |scan|
        invariant 0 <= i <= |scan|
        invariant representations == Matching(scan[..i], username)
      {
        var representation := AsRepresentation(scan[i].value);
        if representation.clientUsername == username || representation.agentUsername == username {
          representations := representations + [representation];
        }
        assert scan[..i + 1][..i] == scan[..i];
        i := i + 1;
      }
      assert scan[..i] == scan;
      forall j | 0 <= j < |scan| && Involves(AsRepresentation(scan[j].value), username)
        ensures AsRepresentation(scan[j].value) in representations
      {
        MatchingComplete(scan, username, j);
      }
      forall a | a in representations
        ensures exists j :: 0 <= j < |scan| && AsRepresentation(scan[j].value) == a
      {
        MatchingSound(scan, username, a);
      }
    }

    /** The stored record decoded as a Representation, or NotFound. */
    method GetRepresentation(representationId: string) returns (result: Result<Representation>)
      ensures representationId !in worldState ==> result == Err(NotFound)
      ensures representationId in worldState ==> result == Ok(AsRepresentation(worldState[representationId]))
      ensures representationId in worldState && worldState[representationId].Rep? ==>
                result == Ok(worldState[representationId].rep)
    {
      if representationId !in worldState {
        return Err(NotFound);
      }
      return Ok(AsRepresentation(worldState[representationId]));
    }

    method PropertyExists(id: string) returns (found: bool)
      ensures found <==> id in worldState
    {
      found := id in worldState;
    }

    method RegisterProperty(id: string, address: string, owner: string, agent: string) returns (outcome: Result<()>)
      modifies this
      ensures var tx := T.RegisterProperty(old(worldState), id, address, owner, agent);
              outcome == T.Outcome(tx) && worldState == T.Commit(old(worldState), tx)
    {
      var found := PropertyExists(id);
      if found {
        return Err(AlreadyExists);
      }
      var property := Property(id, address, owner, agent, NotForSale, Made(map[]));
      worldState := worldState[id := Prop(property)];
      return Ok(());
    }

    method ListProperty(id: string) returns (outcome: Result<()>)
      modifies this
      ensures var tx := T.ListProperty(old(worldState), id);
              outcome == T.Outcome(tx) && worldState == T.Commit(old(worldState), tx)
    {
      if id !in worldState {
        return Err(NotFound);
      }
      var property := AsProperty(worldState[id]);
      property := property.(state := Listed);
      worldState := worldState[id := Prop(property)];
      return Ok(());
    }

    /** Every scanned record decoded as a Property, in scan order: one per key. */
    method ViewProperties(scan: seq<KV>) returns (properties: seq<Property>)
      requires IsScan(scan, worldState)
      ensures |properties| == |scan| == |worldState|
      ensures forall i :: 0 <= i < |scan| ==> properties[i] == AsProperty(scan[i].value)
      ensures forall k :: k in worldState ==> AsProperty(worldState[k]) in properties
    {
      properties := [];
      var i := 0;
      while i < |scan|
        invariant 0 <= i <= |scan|
        invariant |properties| == i
        invariant forall j :: 0 <= j < i ==> properties[j] == AsProperty(scan[j].value)
      {
        var property := AsProperty(scan[i].value);
        properties := properties + [property];
        i := i + 1;
      }
      ScanLength(scan, worldState);
      forall k | k in worldState ensures AsProperty(worldState[k]) in properties {
        var j :| 0 <= j < |scan| && scan[j].key == k;
        assert properties[j] == AsProperty(worldState[k]);
      }
    }

    method PlaceBid(propertyId: string, id: string, amount: int, bidder: string, agent: string)
      returns (outcome: Result<()>)
      modifies this
      ensures var tx := T.PlaceBid(old(worldState), propertyId, id, amount, bidder, agent);
              outcome == T.Outcome(tx) && worldState == T.Commit(old(worldState), tx)
    {
      if propertyId !in worldState {
        return Err(NotFound);
      }
      var property := AsProperty(worldState[propertyId]);
      if id in property.bids.Entries() {
        return Err(AlreadyExists);
      }
      var bid := Bid(id, amount, bidder, agent, false, false);
      if property.bids.Nil? {
        // Go panics on assignment into a nil map; the transaction never commits.
        return Err(NilMapAssignment);
      }
      property := property.(bids := Made(property.bids.table[id := bid]));
      worldState := worldState[propertyId := Prop(property)];
      return Ok(());
    }

    method RejectBid(propertyId: string, id: string) returns (outcome: Result<()>)
      modifies this
      ensures var tx := T.RejectBid(old(worldState), propertyId, id);
              outcome == T.Outcome(tx) && worldState == T.Commit(old(worldState), tx)
    {
      if propertyId !in worldState {
        return Err(NotFound);
      }
      var property := AsProperty(worldState[propertyId]);
      if id !in property.bids.Entries() {
        return Err(NotFound);
      }
      property := property.(bids := Made(property.bids.table - {id}));
      worldState := worldState[propertyId := Prop(property)];
      return Ok(());
    }

    method CounterBid(propertyId: string, id: string, amount: int) returns (outcome: Result<()>)
      modifies this
      ensures var tx := T.CounterBid(old(worldState), propertyId, id, amount);
              outcome == T.Outcome(tx) && worldState == T.Commit(old(worldState), tx)
    {
      if propertyId !in worldState {
        return Err(NotFound);
      }
      var property := AsProperty(worldState[propertyId]);
      if id !in property.bids.Entries() {
        return Err(NotFound);
      }
      var bid := property.bids.table[id];
      bid := bid.(amount := amount);
      property := property.(bids := Made(property.bids.table[id := bid]));
      worldState := worldState[propertyId := Prop(property)];
      return Ok(());
    }
  }

  /**
   * A fresh ledger: register P1, bid B1 on it, view all properties. The view
   * is the one property, still not for sale, holding exactly that bid.
   */
  method RegisterBidViewScenario() returns (properties: seq<Property>)
    ensures properties == [Property("P1", "1 Main St", "alice", "agent1", NotForSale,
                                    Made(map["B1" := Bid("B1", 500000, "bob", "agent2", false, false)]))]
  {
    var contract := new SmartContract(map[]);
    var registered := contract.RegisterProperty("P1", "1 Main St", "alice", "agent1");
    var placed := contract.PlaceBid("P1", "B1", 500000, "bob", "agent2");
    assert contract.worldState.Keys == {"P1"};
    var scan := [KV("P1", contract.worldState["P1"])];
    assert scan[0].key == "P1";
    assert IsScan(scan, contract.worldState);
    properties := contract.ViewProperties(scan);
  }

  /**
   * After N registrations under distinct fresh IDs on an empty ledger,
   * ViewProperties returns exactly N properties, one per registration.
   */
  method ViewAfterRegistrations(invs: seq<I.Invocation>, scan: seq<KV>) returns (properties: seq<Property>)
    requires I.FreshRegistrations(map[], invs)
    requires IsScan(scan, I.Run(map[], invs))
    ensures |properties| == |invs|
    ensures forall i :: 0 <= i < |invs| ==>
              Property(invs[i].id, invs[i].address, invs[i].owner, invs[i].agent, NotForSale, Made(map[])) in properties
  {
    var contract := new SmartContract(I.Run(map[], invs));
    properties := contract.ViewProperties(scan);
    I.RegisterCount(map[], invs);
    I.RegisterDistinct(map[], invs);
    forall i | 0 <= i < |invs|
      ensures Property(invs[i].id, invs[i].address, invs[i].owner, invs[i].agent, NotForSale, Made(map[])) in properties
    {
      assert invs[i].id in contract.worldState;
    }
  }
}
