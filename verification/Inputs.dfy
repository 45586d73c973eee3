// The steering queue that one run shares with its producers (kit/loop/inputs.go).
module Inputs {
  class Inputs {
    var items: seq<string>
    var closed: bool
    // Every item for which Push returned true, and every item that Drain or Close returned.
    ghost var accepted: seq<string>
    ghost var taken: seq<string>

    ghost predicate Valid()
      reads this
    {
      taken + items == accepted && (closed ==> items == [])
    }

    constructor ()
      ensures Valid() && !closed && accepted == [] && taken == []
    {
      items, closed, accepted, taken := [], false, [], [];
    }

    method Push(item: string) returns (ok: bool)
      requires Valid()
      modifies this
      ensures Valid() && closed == old(closed) && taken == old(taken)
      ensures ok == !closed && accepted == (if ok then old(accepted) + [item] else old(accepted))
      ensures items == if ok then old(items) + [item] else old(items)
    {
      if closed { return false; }
      items, accepted := items + [item], accepted + [item];
      ok := true;
    }

    method Drain() returns (out: seq<string>)
      requires Valid()
      modifies this
      ensures Valid() && closed == old(closed) && accepted == old(accepted)
      ensures taken == old(taken) + out == accepted && items == [] && out == old(items)
    {
      out := items;
      taken, items := taken + items, [];
    }

    // Ends admission; what is left goes to the caller.
    method Close() returns (out: seq<string>)
      requires Valid()
      modifies this
      ensures Valid() && closed && accepted == old(accepted) && taken == old(taken) + out == accepted
      ensures out == old(items) && (old(closed) ==> out == [])
    {
      out := items;
      closed, taken, items := true, taken + items, [];
    }

    // Producers push some items; a closed queue takes none of them.
    method Producers(arriving: seq<string>)
      requires Valid()
      modifies this
      ensures Valid() && closed == old(closed) && taken == old(taken)
      ensures accepted == old(accepted) + (if closed then [] else arriving)
      ensures items == old(items) + (if closed then [] else arriving)
    {
      for i := 0 to |arriving|
        invariant Valid() && closed == old(closed) && taken == old(taken)
        invariant accepted == old(accepted) + (if closed then [] else arriving[..i])
        invariant items == old(items) + (if closed then [] else arriving[..i])
      {
        var _ := Push(arriving[i]);
      }
    }
  }
}
