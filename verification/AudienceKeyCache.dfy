/** The audience-key cache on the heap: who owns which buffer. The two mutex sections of `get`
    are methods; SingleFlight shows what their interleavings guarantee. */
module AudienceKeyCache {
  import opened Options
  import opened SingleFlight

  class AudienceKeyCall {
    var done: bool
    var err: Option<Err>

    constructor ()
      ensures !done && err == None
    {
      done, err := false, None;
    }
  }

  /** What a caller finds: its own copy of a stored key, a load to wait for, or a load to run. */
  datatype Entry = Hit(buffer: array<byte>) | Join(call: AudienceKeyCall) | Lead(call: AudienceKeyCall)

  method Copy(source: array<byte>) returns (copy: array<byte>)
    ensures fresh(copy) && copy[..] == source[..]
  {
    copy := new byte[source.Length];
    for i := 0 to source.Length
      invariant copy[..i] == source[..i]
    {
      copy[i] := source[i];
    }
  }

  method Wipe(buffer: array<byte>)
    modifies buffer
    ensures forall i :: 0 <= i < buffer.Length ==> buffer[i] == 0
  {
    for i := 0 to buffer.Length
      invariant forall k :: 0 <= k < i ==> buffer[k] == 0
    {
      buffer[i] := 0;
    }
  }

  class Cache {
    var keys: map<CacheKey, array<byte>>
    var inflight: map<CacheKey, AudienceKeyCall>

    /** The buffers the cache owns. None of them is ever handed out. */
    ghost function Stored(): set<array<byte>>
      reads this
    {
      set k | k in keys :: keys[k]
    }

    ghost function Contents(): map<CacheKey, Bytes>
      reads this, Stored()
    {
      map k | k in keys :: keys[k][..]
    }

    constructor ()
      ensures Contents() == map[] && inflight == map[]
    {
      keys, inflight := map[], map[];
    }

    method Enter(key: CacheKey) returns (r: Entry)
      modifies this
      ensures keys == old(keys) && Contents() == old(Contents())
      ensures key in keys ==>
                && r.Hit? && fresh(r.buffer) && r.buffer !in Stored()
                && r.buffer[..] == Contents()[key] && inflight == old(inflight)
      ensures key !in keys && key in old(inflight) ==> inflight == old(inflight) && r == Join(inflight[key])
      ensures key !in keys && key !in old(inflight) ==>
                && r.Lead? && fresh(r.call) && !r.call.done
                && inflight == old(inflight)[key := r.call]
    {
      if key in keys {
        var copy := Copy(keys[key]);
        return Hit(copy);
      }
      if key in inflight {
        return Join(inflight[key]);
      }
      var call := new AudienceKeyCall();
      inflight := inflight[key := call];
      return Lead(call);
    }

    /** The loader's second section. It takes over the loaded buffer: the cache and the caller
        each get a copy of their own, and the loaded buffer is zeroed. */
    method Publish(key: CacheKey, call: AudienceKeyCall, loaded: array<byte>, failure: Option<Err>)
      returns (outcome: Option<Err>, result: array?<byte>)
      requires loaded !in Stored()
      modifies this, call, loaded
      ensures outcome == if failure.None? && loaded.Length == 0 then Some(EmptyKey) else failure
      ensures inflight == old(inflight) - {key} && call.done && call.err == outcome
      ensures forall i :: 0 <= i < loaded.Length ==> loaded[i] == 0
      ensures outcome.Some? ==> result == null && keys == old(keys) && Contents() == old(Contents())
      ensures outcome.None? ==>
                && Contents() == old(Contents())[key := old(loaded[..])]
                && result != null && fresh(result) && result !in Stored() && result[..] == old(loaded[..])
    {
      outcome := failure;
      if failure.None? && loaded.Length == 0 {
        outcome := Some(EmptyKey);
      }
      result := null;
      if outcome.None? {
        var kept := Copy(loaded);
        keys := keys[key := kept];
      }
      call.err := outcome;
      inflight := inflight - {key};
      call.done := true;
      if outcome.None? {
        result := Copy(loaded);
      }
      Wipe(loaded);
    }

    /** A caller zeroes the copy it was given; the cache keeps its key. */
    method Release(buffer: array<byte>)
      requires buffer !in Stored()
      modifies buffer
      ensures Contents() == old(Contents())
      ensures forall i :: 0 <= i < buffer.Length ==> buffer[i] == 0
    {
      Wipe(buffer);
    }
  }
}
