/**
 * The records the real-estate chaincode keeps in its world state: properties
 * (with their embedded bids) and agent/client representation agreements.
 *
 * Records are values, not JSON bytes. Both kinds are stored under their raw
 * ID in one flat keyspace, so a handler may decode a record of the other kind;
 * AsProperty and AsRepresentation model what Go's json.Unmarshal produces then.
 */
module Records {

  /** A Bid embedded in a property's Bids map. */
  datatype Bid = Bid(
    id: string,
    amount: int,
    bidder: string,
    agent: string,
    buyerCountered: bool,
    sellerCountered: bool)

  /**
   * A Go `map[string]Bid` field: `Nil` when the stored JSON had no "Bids" key
   * (or `null`), `Made` once the map is allocated. Reading a nil map behaves
   * like reading an empty one; assigning into it panics.
   */
  datatype BidsField = Nil | Made(table: map<string, Bid>) {
    /** What a Go read of the map sees. */
    function Entries(): (m: map<string, Bid>)
      ensures Nil? ==> m == map[]
      ensures Made? ==> m == table
    {
      if Nil? then map[] else table
    }
  }

  datatype Property = Property(
    id: string,
    address: string,
    owner: string,
    agent: string,
    state: string,
    bids: BidsField)

  datatype Representation = Representation(
    id: string,
    clientUsername: string,
    agentUsername: string,
    startDate: string,
    endDate: string,
    status: string,
    requestedAt: string,
    signedAt: string,
    isActive: bool)

  /** The document stored under one key of the world state. */
  datatype Record = Prop(prop: Property) | Rep(rep: Representation)

  // The State strings a property takes.
  const NotForSale: string := "Not for sale"
  const Listed: string := "Listed"

  // The Status strings a representation takes.
  const Pending: string := "pending"
  const Declined: string := "declined"
  const Accepted: string := "accepted"

  /** The errors a handler reports; each leaves the world state unchanged. */
  datatype Error =
    | NotFound          // the property, bid or representation is absent
    | AlreadyExists     // create-time ID collision
    | NilMapAssignment  // Go panics assigning into a nil Bids map

  datatype Result<T> = Ok(value: T) | Err(error: Error)

  /** The ID field of a stored record, whichever kind it is. */
  function RecordId(r: Record): string
  {
    match r
    case Prop(p) => p.id
    case Rep(a) => a.id
  }

  /**
   * The stored record decoded into a Property. A Representation document
   * shares only its "ID" key with the Property shape, so the other fields are
   * Go zero values and Bids is a nil map.
   */
  function AsProperty(r: Record): (p: Property)
    ensures p.id == RecordId(r)
    ensures r.Prop? ==> p == r.prop
    ensures r.Rep? ==> p.address == p.owner == p.agent == p.state == "" && p.bids.Nil?
  {
    match r
    case Prop(q) => q
    case Rep(a) => Property(a.id, "", "", "", "", Nil)
  }

  /**
   * The stored record decoded into a Representation. A Property document
   * shares only its "ID" key with the Representation shape.
   */
  function AsRepresentation(r: Record): (a: Representation)
    ensures a.id == RecordId(r)
    ensures r.Rep? ==> a == r.rep
    ensures r.Prop? ==> && a.clientUsername == a.agentUsername == a.startDate == a.endDate == ""
                        && a.status == a.requestedAt == a.signedAt == "" && !a.isActive
  {
    match r
    case Rep(b) => b
    case Prop(p) => Representation(p.id, "", "", "", "", "", "", "", false)
  }

  /** The status invariant of a representation: active exactly when accepted. */
  predicate ActiveIffAccepted(a: Representation)
  {
    a.isActive <==> a.status == Accepted
  }

  /** The fields of a representation that no status change touches. */
  predicate SameAgreement(a: Representation, b: Representation)
  {
    && a.id == b.id
    && a.clientUsername == b.clientUsername
    && a.agentUsername == b.agentUsername
    && a.startDate == b.startDate
    && a.endDate == b.endDate
    && a.requestedAt == b.requestedAt
  }

  /** The fields of a property that no handler changes after registration. */
  predicate SameDetails(p: Property, q: Property)
  {
    && p.id == q.id
    && p.address == q.address
    && p.owner == q.owner
    && p.agent == q.agent
  }

  /** The fields of a bid that a counter-offer keeps. */
  predicate SameBidExceptAmount(b: Bid, c: Bid)
  {
    && b.id == c.id
    && b.bidder == c.bidder
    && b.agent == c.agent
    && b.buyerCountered == c.buyerCountered
    && b.sellerCountered == c.sellerCountered
  }
}
