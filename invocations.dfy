/**
 * Sequences of submitted transactions: each names one state-changing entry
 * point of the chaincode with its arguments, and runs to completion (its
 * writes commit) or fails (nothing commits) before the next one starts.
 * The invariants below hold of every world state those handlers produce.
 */
module Invocations {
  import opened Records
  import T = Transitions

  /** One submitted transaction; `now` is the transaction's own timestamp. */
  datatype Invocation =
    | RegisterProperty(id: string, address: string, owner: string, agent: string)
    | ListProperty(id: string)
    | PlaceBid(id: string, bidId: string, amount: int, bidder: string, agent: string)
    | RejectBid(id: string, bidId: string)
    | CounterBid(id: string, bidId: string, amount: int)
    | RequestRepresentation(id: string, clientUsername: string, agentUsername: string,
                            startDate: string, endDate: string, now: string)
    | DeclineRepresentation(id: string)
    | AcceptRepresentation(id: string, now: string)

  /** What the handler named by inv computes from s. */
  function Attempt(s: T.WorldState, inv: Invocation): Result<T.WorldState>
  {
    match inv
    case RegisterProperty(id, address, owner, agent) => T.RegisterProperty(s, id, address, owner, agent)
    case ListProperty(id) => T.ListProperty(s, id)
    case PlaceBid(id, bidId, amount, bidder, agent) => T.PlaceBid(s, id, bidId, amount, bidder, agent)
    case RejectBid(id, bidId) => T.RejectBid(s, id, bidId)
    case CounterBid(id, bidId, amount) => T.CounterBid(s, id, bidId, amount)
    case RequestRepresentation(id, clientUsername, agentUsername, startDate, endDate, now) =>
      T.RequestRepresentation(s, id, clientUsername, agentUsername, startDate, endDate, now)
    case DeclineRepresentation(id) => T.DeclineRepresentation(s, id)
    case AcceptRepresentation(id, now) => T.AcceptRepresentation(s, id, now)
  }

  /** The world state after the transaction inv, whether it succeeded or failed. */
  function Execute(s: T.WorldState, inv: Invocation): T.WorldState
  {
    T.Commit(s, Attempt(s, inv))
  }

  /** The world state after the transactions invs, one after the other. */
  function Run(s: T.WorldState, invs: seq<Invocation>): T.WorldState
    decreases |invs|
  {
    if invs == [] then s else Run(Execute(s, invs[0]), invs[1..])
  }

  /** Every key of a Bids map holds the bid with that ID. */
  ghost predicate BidsKeyedById(m: map<string, Bid>)
  {
    forall k :: k in m ==> m[k].id == k
  }

  /** What a record written by the handlers looks like under key k. */
  ghost predicate RecordOk(k: string, r: Record)
  {
    && RecordId(r) == k
    && match r
       case Prop(p) => (p.state == NotForSale || p.state == Listed) && BidsKeyedById(p.bids.Entries())
       case Rep(a) => ActiveIffAccepted(a) && (a.status == Pending || a.status == Declined || a.status == Accepted)
  }

  /** The world-state invariant: every record is well formed under its key. */
  ghost predicate WellFormed(s: T.WorldState)
  {
    forall k :: k in s ==> RecordOk(k, s[k])
  }

  /**
   * A transaction either fails and leaves the world state as it was, or
   * writes exactly the one key it names.
   */
  lemma ExecuteWritesOneKey(s: T.WorldState, inv: Invocation)
    ensures Attempt(s, inv).Err? ==> Execute(s, inv) == s
    ensures Attempt(s, inv).Ok? ==> T.OnlyAt(s, Execute(s, inv), inv.id)
  {
  }

  /**
   * Each handler keeps the world-state invariant: it writes only the key it
   * names, under the ID it was given; the cross-kind overwrites store a
   * record with the stored ID; PlaceBid, RejectBid and CounterBid add,
   * remove or update exactly the bid under its own ID.
   */
  lemma ExecuteKeepsWellFormed(s: T.WorldState, inv: Invocation)
    requires WellFormed(s)
    ensures WellFormed(Execute(s, inv))
  {
  }

  /** The invariant holds after any sequence of transactions. */
  lemma {:induction false} RunKeepsWellFormed(s: T.WorldState, invs: seq<Invocation>)
    requires WellFormed(s)
    ensures WellFormed(Run(s, invs))
    decreases |invs|
  {
    if invs != [] {
      ExecuteKeepsWellFormed(s, invs[0]);
      RunKeepsWellFormed(Execute(s, invs[0]), invs[1..]);
    }
  }

  /** No handler deletes a record: the set of keys only grows. */
  lemma {:induction false} RunKeepsKeys(s: T.WorldState, invs: seq<Invocation>)
    ensures s.Keys <= Run(s, invs).Keys
    decreases |invs|
  {
    if invs != [] {
      ExecuteWritesOneKey(s, invs[0]);
      RunKeepsKeys(Execute(s, invs[0]), invs[1..]);
    }
  }

  /** In every well-formed world state, every record viewed as a representation is active exactly when accepted. */
  lemma RunKeepsActiveIffAccepted(s: T.WorldState, invs: seq<Invocation>, k: string)
    requires WellFormed(s)
    requires k in Run(s, invs)
    ensures ActiveIffAccepted(AsRepresentation(Run(s, invs)[k]))
  {
    RunKeepsWellFormed(s, invs);
    assert RecordOk(k, Run(s, invs)[k]);
  }

  /** The IDs the invocations name. */
  ghost function Ids(invs: seq<Invocation>): set<string>
  {
    set i | 0 <= i < |invs| :: invs[i].id
  }

  lemma IdsCons(invs: seq<Invocation>)
    requires invs != []
    ensures Ids(invs) == {invs[0].id} + Ids(invs[1..])
  {
    var rest := invs[1..];
    forall x | x in Ids(invs) ensures x in {invs[0].id} + Ids(rest) {
      var i :| 0 <= i < |invs| && invs[i].id == x;
      if i > 0 {
        assert rest[i - 1] == invs[i];
      }
    }
    forall x | x in Ids(rest) ensures x in Ids(invs) {
      var i :| 0 <= i < |rest| && rest[i].id == x;
      assert invs[i + 1] == rest[i];
    }
  }

  /** Fresh registrations under distinct IDs. */
  ghost predicate FreshRegistrations(s: T.WorldState, invs: seq<Invocation>)
  {
    && (forall i :: 0 <= i < |invs| ==> invs[i].RegisterProperty? && invs[i].id !in s)
    && (forall i, j :: 0 <= i < j < |invs| ==> invs[i].id != invs[j].id)
  }

  /** After the first registration, the remaining ones are still fresh and distinct. */
  lemma FreshRegistrationsTail(s: T.WorldState, invs: seq<Invocation>)
    requires FreshRegistrations(s, invs) && invs != []
    ensures FreshRegistrations(Execute(s, invs[0]), invs[1..])
    ensures invs[0].id !in Ids(invs[1..])
  {
    var rest := invs[1..];
    var s1 := Execute(s, invs[0]);
    assert s1.Keys == s.Keys + {invs[0].id};
    forall i | 0 <= i < |rest| ensures rest[i].RegisterProperty? && rest[i].id !in s1 {
      assert rest[i] == invs[i + 1];
    }
    forall i, j | 0 <= i < j < |rest| ensures rest[i].id != rest[j].id {
      assert rest[i] == invs[i + 1] && rest[j] == invs[j + 1];
    }
    forall i | 0 <= i < |rest| ensures rest[i].id != invs[0].id {
      assert rest[i] == invs[i + 1];
    }
  }

  /** Distinct registrations name as many IDs as there are registrations. */
  lemma {:induction false} IdsCard(s: T.WorldState, invs: seq<Invocation>)
    requires FreshRegistrations(s, invs)
    ensures |Ids(invs)| == |invs|
    decreases |invs|
  {
    if invs == [] {
      assert Ids(invs) == {};
    } else {
      FreshRegistrationsTail(s, invs);
      IdsCard(Execute(s, invs[0]), invs[1..]);
      IdsCons(invs);
    }
  }

  /**
   * Registering properties under distinct IDs, none in use yet, adds exactly
   * one record per ID, each holding the registered fields.
   */
  lemma {:induction false} RegisterDistinct(s: T.WorldState, invs: seq<Invocation>)
    requires FreshRegistrations(s, invs)
    ensures Run(s, invs).Keys == s.Keys + Ids(invs)
    ensures forall k :: k in s ==> Run(s, invs)[k] == s[k]
    ensures forall i :: 0 <= i < |invs| ==>
              Run(s, invs)[invs[i].id]
              == Prop(Property(invs[i].id, invs[i].address, invs[i].owner, invs[i].agent, NotForSale, Made(map[])))
    decreases |invs|
  {
    if invs != [] {
      var inv, rest := invs[0], invs[1..];
      var s1 := Execute(s, inv);
      assert s1 == s[inv.id := Prop(Property(inv.id, inv.address, inv.owner, inv.agent, NotForSale, Made(map[])))];
      FreshRegistrationsTail(s, invs);
      RegisterDistinct(s1, rest);
      IdsCons(invs);
      forall i | 0 < i < |invs|
        ensures Run(s, invs)[invs[i].id]
                == Prop(Property(invs[i].id, invs[i].address, invs[i].owner, invs[i].agent, NotForSale, Made(map[])))
      {
        assert rest[i - 1] == invs[i];
      }
    }
  }

  /**
   * N fresh registrations under distinct IDs grow the world state by exactly N
   * records, so a full scan (and hence ViewProperties) yields N more entries.
   */
  lemma RegisterCount(s: T.WorldState, invs: seq<Invocation>)
    requires FreshRegistrations(s, invs)
    ensures |Run(s, invs)| == |s| + |invs|
  {
    RegisterDistinct(s, invs);
    IdsCard(s, invs);
    assert s.Keys * Ids(invs) == {};
    assert |Run(s, invs).Keys| == |s.Keys| + |Ids(invs)|;
  }
}
