/** The set of remote buffers as an object: strong references by address. */
module RemoteBuffers {
  import opened Wrappers

  type Address = nat

  datatype Unwrapped = Lost | Value | Panicked

  /** Entries somebody can still reach. */
  function Reachable(buffers: map<Address, bool>, weak: Address -> nat): map<Address, bool> {
    map a | a in buffers && weak(a) > 0 :: buffers[a]
  }

  class RemoteBufferSet {
    /** Whether the value is still there, for each strong reference. */
    var buffers: map<Address, bool>

    constructor ()
      ensures buffers == map[]
    {
      buffers := map[];
    }

    /** A new buffer at a fresh address, unless the memory check refuses. */
    method Allocate(address: Address, fits: bool) returns (handle: Option<Address>)
      requires address !in buffers
      modifies this
      ensures handle == if fits then Some(address) else None
      ensures buffers == if fits then old(buffers)[address := true] else old(buffers)
    {
      if !fits { return None; }
      buffers := buffers[address := true];
      return Some(address);
    }

    /** The scan over all entries, then the removals: exactly the reachable ones stay. */
    method Gc(weak: Address -> nat)
      modifies this
      ensures buffers == Reachable(old(buffers), weak)
    {
      var toRemove: seq<Address> := [];
      var left := buffers.Keys;
      while left != {}
        invariant left <= buffers.Keys && buffers == old(buffers)
        invariant forall a :: a in toRemove <==> a in buffers.Keys - left && weak(a) == 0
        decreases left
      {
        var k :| k in left;
        if weak(k) == 0 {
          toRemove := toRemove + [k];
        }
        left := left - {k};
      }
      var i := 0;
      while i < |toRemove|
        invariant 0 <= i <= |toRemove|
        invariant forall a :: a in buffers <==> a in old(buffers) && a !in toRemove[..i]
        invariant forall a | a in buffers :: buffers[a] == old(buffers)[a]
      {
        buffers := buffers - {toRemove[i]};
        i := i + 1;
      }
    }

    /** `unwrap_on_v8_thread`: the strong reference is found and its value taken; taking it
        twice would panic. */
    method Unwrap(address: Address) returns (r: Unwrapped)
      modifies this
      ensures r == if address !in old(buffers) then Lost else if old(buffers)[address] then Value else Panicked
      ensures buffers == if r == Value then old(buffers)[address := false] else old(buffers)
    {
      if address !in buffers { return Lost; }
      if !buffers[address] { return Panicked; }
      buffers := buffers[address := false];
      return Value;
    }
  }
}
