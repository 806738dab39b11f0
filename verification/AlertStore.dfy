/** The bounded alert store of the webhook receiver. */
module AlertStore {

  datatype Item = Alert(body: string) | NotAnObject

  datatype Payload = NoAlerts | NotAList | Batch(items: seq<Item>)

  datatype Response = Ok(received: nat) | Unprocessable | TooLarge

  /** How many leading items are objects. */
  function Objects(items: seq<Item>): (n: nat)
    ensures n <= |items| && (n < |items| ==> items[n].NotAnObject?)
    ensures forall i :: 0 <= i < n ==> items[i].Alert?
  {
    if items == [] || items[0].NotAnObject? then 0 else 1 + Objects(items[1..])
  }

  predicate Fits(max: int, stored: seq<Item>, items: seq<Item>) {
    |stored| < max && |stored| + |items| <= max
  }

  function Respond(max: int, stored: seq<Item>, p: Payload): Response {
    if !p.Batch? then Unprocessable
    else if !Fits(max, stored, p.items) then TooLarge
    else if Objects(p.items) < |p.items| then Unprocessable
    else Ok(|p.items|)
  }

  /** Alerts in front of the first non-object stay, although the batch is refused. */
  function Receive(max: int, stored: seq<Item>, p: Payload): seq<Item> {
    if p.Batch? && Fits(max, stored, p.items) then stored + p.items[..Objects(p.items)] else stored
  }

  class AlertReceiver {
    const maxStoredAlerts: int
    var storedAlerts: seq<Item>

    constructor (max: int)
      ensures maxStoredAlerts == max && storedAlerts == []
    {
      maxStoredAlerts := max;
      storedAlerts := [];
    }

    method ReceiveAlerts(payload: Payload) returns (r: Response)
      modifies this
      ensures r == Respond(maxStoredAlerts, old(storedAlerts), payload)
      ensures storedAlerts == Receive(maxStoredAlerts, old(storedAlerts), payload)
    {
      if !payload.Batch? {
        return Unprocessable;
      }
      var alerts := payload.items;
      var capacity := if maxStoredAlerts > |storedAlerts| then maxStoredAlerts - |storedAlerts| else 0;
      if capacity == 0 {
        return TooLarge;
      }
      if |alerts| > capacity {
        return TooLarge;
      }
      for i := 0 to |alerts|
        invariant i <= Objects(alerts) && storedAlerts == old(storedAlerts) + alerts[..i]
      {
        if alerts[i].NotAnObject? {
          return Unprocessable;
        }
        storedAlerts := storedAlerts + [alerts[i]];
        assert alerts[..i + 1] == alerts[..i] + [alerts[i]];
      }
      return Ok(|alerts|);
    }

    method ClearAlerts() returns (cleared: nat)
      modifies this
      ensures cleared == |old(storedAlerts)| && storedAlerts == []
    {
      cleared := |storedAlerts|;
      storedAlerts := [];
    }
  }

  /** Exactly which payloads get which response. */
  lemma {:induction false} ResponseIs(max: int, stored: seq<Item>, p: Payload)
    ensures Respond(max, stored, p).Ok?
       <==> && p.Batch? && |stored| < max && |stored| + |p.items| <= max
            && forall i :: 0 <= i < |p.items| ==> p.items[i].Alert?
    ensures Respond(max, stored, p).Ok? ==> Respond(max, stored, p).received == |p.items|
    ensures Respond(max, stored, p).TooLarge? <==> p.Batch? && (|stored| >= max || |stored| + |p.items| > max)
  {
  }

  /** A batch that fits is appended in order, up to its first non-object; every other payload leaves the store alone. */
  lemma {:induction false} ReceiveAppends(max: int, stored: seq<Item>, p: Payload)
    ensures stored <= Receive(max, stored, p)
    ensures !p.Batch? || |stored| >= max || |stored| + |p.items| > max ==> Receive(max, stored, p) == stored
    ensures p.Batch? && |stored| < max && |stored| + |p.items| <= max ==>
      && |Receive(max, stored, p)| <= |stored| + |p.items|
      && (forall i :: 0 <= i < |Receive(max, stored, p)| - |stored| ==>
            p.items[i].Alert? && Receive(max, stored, p)[|stored| + i] == p.items[i])
      && (|Receive(max, stored, p)| < |stored| + |p.items| ==>
            p.items[|Receive(max, stored, p)| - |stored|].NotAnObject?)
  {
  }

  /** A refused batch leaves a trace exactly when it fits, starts with an object and holds a non-object later on. */
  lemma {:induction false} RefusedBatchLeavesTraceIff(max: int, stored: seq<Item>, p: Payload)
    ensures !Respond(max, stored, p).Ok? && Receive(max, stored, p) != stored
       <==> && p.Batch? && Fits(max, stored, p.items) && p.items != [] && p.items[0].Alert?
            && exists i :: 0 <= i < |p.items| && p.items[i].NotAnObject?
  {
  }

  // ---------------------------------------------------------------- runs

  datatype Op = Post(payload: Payload) | Clear

  function Stored(max: int, ops: seq<Op>): seq<Item> {
    if ops == [] then []
    else
      match ops[|ops| - 1]
      case Clear => []
      case Post(p) => Receive(max, Stored(max, ops[..|ops| - 1]), p)
  }

  /** Alerts acknowledged since the last clear. */
  function Acknowledged(max: int, ops: seq<Op>): nat {
    if ops == [] || ops[|ops| - 1].Clear? then 0
    else
      var past := ops[..|ops| - 1];
      var r := Respond(max, Stored(max, past), ops[|ops| - 1].payload);
      Acknowledged(max, past) + if r.Ok? then r.received else 0
  }

  /** Alerts kept from refused batches since the last clear. */
  function Leftover(max: int, ops: seq<Op>): nat {
    if ops == [] || ops[|ops| - 1].Clear? then 0
    else
      var past, p := ops[..|ops| - 1], ops[|ops| - 1].payload;
      Leftover(max, past)
      + if p.Batch? && Fits(max, Stored(max, past), p.items) && Objects(p.items) < |p.items|
        then Objects(p.items) else 0
  }

  /** Over every run the store stays within its bound and holds only objects: those acknowledged and the leftovers. */
  lemma {:induction false} StoreIsAccountedFor(max: int, ops: seq<Op>)
    ensures |Stored(max, ops)| <= if max > 0 then max else 0
    ensures forall i :: 0 <= i < |Stored(max, ops)| ==> Stored(max, ops)[i].Alert?
    ensures |Stored(max, ops)| == Acknowledged(max, ops) + Leftover(max, ops)
  {
    if ops != [] {
      StoreIsAccountedFor(max, ops[..|ops| - 1]);
    }
  }
}
