/** Streaming a response to a client while spooling it to the cache, within a reservation. */
module Stream {
  import opened Basics
  import opened FileSystem

  function Flatten(chunks: seq<seq<Byte>>): seq<Byte> {
    if chunks == [] then [] else Flatten(chunks[..|chunks| - 1]) + chunks[|chunks| - 1]
  }

  lemma FlattenStep(chunks: seq<seq<Byte>>, i: nat)
    requires i < |chunks|
    ensures Flatten(chunks[..i + 1]) == Flatten(chunks[..i]) + chunks[i]
  {
    assert chunks[..i + 1][..i] == chunks[..i];
  }

  lemma {:induction false} FlattenPrefix(chunks: seq<seq<Byte>>, i: nat)
    requires i <= |chunks|
    ensures Flatten(chunks[..i]) <= Flatten(chunks)
    decreases |chunks| - i
  {
    if i < |chunks| {
      FlattenStep(chunks, i);
      FlattenPrefix(chunks, i + 1);
    } else {
      assert chunks[..i] == chunks;
    }
  }

  /** What successive reads return, and whether the stream ends in an error instead of EOF. */
  datatype Source = Source(chunks: seq<seq<Byte>>, fails: bool) {
    function Content(): seq<Byte> { Flatten(chunks) }
  }

  /** The first write that goes wrong: how much of it is accepted, and whether it is reported. */
  datatype Fault = Fault(at: nat, accepted: nat, silent: bool)

  /** Writes that reach the client: an empty read is not written. */
  function Writes(chunks: seq<seq<Byte>>): nat {
    if chunks == [] then 0
    else Writes(chunks[..|chunks| - 1]) + (if chunks[|chunks| - 1] == [] then 0 else 1)
  }

  lemma WritesStep(chunks: seq<seq<Byte>>, i: nat)
    requires i < |chunks|
    ensures Writes(chunks[..i + 1]) == Writes(chunks[..i]) + (if chunks[i] == [] then 0 else 1)
  {
    assert chunks[..i + 1][..i] == chunks[..i];
  }

  /** The fault meets chunk i, the client having seen first writes before the stream: the write is
      reported as failed, or accepts less than it was given. */
  predicate TripsAt(fault: Option<Fault>, first: nat, chunks: seq<seq<Byte>>, i: nat)
    requires i < |chunks|
  {
    && fault.Some? && chunks[i] != [] && fault.value.at == first + Writes(chunks[..i])
    && (!fault.value.silent || fault.value.accepted < |chunks[i]|)
  }

  predicate Trips(fault: Option<Fault>, first: nat, chunks: seq<seq<Byte>>) {
    exists i :: 0 <= i < |chunks| && TripsAt(fault, first, chunks, i)
  }

  /** The cache file's write of chunk i fails; chunks past the limit are not written to it. */
  predicate CacheTripsAt(faultAt: Option<nat>, limit: int, chunks: seq<seq<Byte>>, i: nat)
    requires i < |chunks|
  {
    && chunks[i] != [] && faultAt == Some(Writes(chunks[..i]))
    && (limit >= 0 ==> |Flatten(chunks[..i + 1])| <= limit)
  }

  predicate CacheTrips(faultAt: Option<nat>, limit: int, chunks: seq<seq<Byte>>) {
    exists i :: 0 <= i < |chunks| && CacheTripsAt(faultAt, limit, chunks, i)
  }

  /** The client's end of the connection. */
  class Client {
    var received: seq<Byte>
    var writes: nat
    const fault: Option<Fault>

    constructor (fault: Option<Fault>)
      ensures received == [] && this.fault == fault
    {
      received, writes := [], 0;
      this.fault := fault;
    }

    method Write(body: seq<Byte>) returns (n: nat, failed: bool)
      modifies this
      ensures n <= |body| && received == old(received) + body[..n] && writes == old(writes) + 1
      ensures n < |body| ==> fault.Some? && fault.value.at == old(writes) && fault.value.accepted < |body|
      ensures failed || n < |body| <==>
                fault.Some? && fault.value.at == old(writes) && (!fault.value.silent || fault.value.accepted < |body|)
      ensures fault.None? ==> n == |body| && !failed
    {
      n, failed := |body|, false;
      if fault.Some? && fault.value.at == writes {
        n := if fault.value.accepted < |body| then fault.value.accepted else |body|;
        failed := !fault.value.silent;
      }
      received := received + body[..n];
      writes := writes + 1;
    }
  }

  /** boundedCacheWriter: the client's bytes also go to the cache until they exceed the limit
      (no limit if negative); the client is never affected by that. */
  class BoundedCacheWriter {
    const downstream: Client
    const limit: int
    const enabled: bool
    const cacheFaultAt: Option<nat>
    var cached: seq<Byte>
    var written: nat
    var overflow: bool
    var cacheWrites: nat

    constructor (downstream: Client, limit: int, enabled: bool, cacheFaultAt: Option<nat>)
      ensures this.downstream == downstream && this.limit == limit && this.enabled == enabled
      ensures this.cacheFaultAt == cacheFaultAt
      ensures cached == [] && written == 0 && !overflow && cacheWrites == 0
    {
      this.downstream, this.limit, this.enabled, this.cacheFaultAt := downstream, limit, enabled, cacheFaultAt;
      cached, written, overflow, cacheWrites := [], 0, false, 0;
    }

    /** all: everything the client has been sent through this writer. */
    ghost predicate Tracks(all: seq<Byte>)
      reads this
    {
      && (enabled ==> (overflow <==> limit >= 0 && |all| > limit))
      && (!enabled ==> !overflow && cached == [])
      && (enabled && !overflow ==> written == |all| && cached == all)
      && (limit >= 0 ==> |cached| <= limit)
    }

    method Write(body: seq<Byte>, ghost all: seq<Byte>) returns (n: nat, failed: bool)
      requires Tracks(all)
      modifies this, downstream
      ensures n <= |body| && downstream.received == old(downstream.received) + body[..n]
      ensures !failed ==> Tracks(all + body[..n])
      ensures limit >= 0 ==> |cached| <= limit
      ensures old(cached) <= cached
      ensures enabled ==> (overflow <==> limit >= 0 && |all| + n > limit)
      ensures downstream.writes == old(downstream.writes) + 1
      ensures n < |body| ==> downstream.fault.Some? && downstream.fault.value.at == old(downstream.writes)
                              && downstream.fault.value.accepted < |body|
      ensures failed || n < |body| <==>
                || (downstream.fault.Some? && downstream.fault.value.at == old(downstream.writes)
                    && (!downstream.fault.value.silent || downstream.fault.value.accepted < |body|))
                || (n > 0 && enabled && !overflow && cacheFaultAt == Some(old(cacheWrites)))
      ensures cacheWrites == old(cacheWrites) + (if n > 0 && enabled && !overflow then 1 else 0)
      ensures downstream.fault.None? && cacheFaultAt.None? ==> n == |body| && !failed
    {
      n, failed := downstream.Write(body);
      if n > 0 && enabled && !overflow {
        if limit >= 0 && n > limit - written {
          overflow := true;
        } else {
          cacheWrites := cacheWrites + 1;
          if cacheFaultAt == Some(cacheWrites - 1) {
            return n, true;
          }
          cached := cached + body[..n];
        }
        written := written + n;
      }
    }
  }

  /** No write before chunk i goes wrong. */
  ghost predicate Smooth(fault: Option<Fault>, first: nat, faultAt: Option<nat>, limit: int, chunks: seq<seq<Byte>>,
                         i: nat)
    requires i <= |chunks|
  {
    forall j :: 0 <= j < i ==> !TripsAt(fault, first, chunks, j) && !CacheTripsAt(faultAt, limit, chunks, j)
  }

  lemma SmoothStep(fault: Option<Fault>, first: nat, faultAt: Option<nat>, limit: int, chunks: seq<seq<Byte>>, i: nat,
                   next: nat)
    requires i < |chunks| && next == i + 1 && Smooth(fault, first, faultAt, limit, chunks, i)
    requires !TripsAt(fault, first, chunks, i) && !CacheTripsAt(faultAt, limit, chunks, i)
    ensures Smooth(fault, first, faultAt, limit, chunks, next)
  {
  }

  lemma SmoothToTheEnd(source: Source, fault: Option<Fault>, first: nat, faultAt: Option<nat>, limit: int)
    requires Smooth(fault, first, faultAt, limit, source.chunks, |source.chunks|)
    ensures Arrives(source, fault, first, faultAt, limit) == !source.fails
  {
  }

  /** What one write through the bounded writer answers, from what was written before. */
  lemma TripDecides(fault: Option<Fault>, first: nat, faultAt: Option<nat>, limit: int, chunks: seq<seq<Byte>>, i: nat,
                    sent: seq<Byte>, cacheWrites: nat, n: nat, failed: bool)
    requires i < |chunks| && chunks[i] != [] && n <= |chunks[i]| && sent == Flatten(chunks[..i])
    requires !(limit >= 0 && |sent| > limit) ==> cacheWrites == Writes(chunks[..i])
    requires n < |chunks[i]| ==>
               fault.Some? && fault.value.at == first + Writes(chunks[..i]) && fault.value.accepted < |chunks[i]|
    requires failed || n < |chunks[i]| <==>
               || (fault.Some? && fault.value.at == first + Writes(chunks[..i])
                   && (!fault.value.silent || fault.value.accepted < |chunks[i]|))
               || (n > 0 && !(limit >= 0 && |sent| + n > limit) && faultAt == Some(cacheWrites))
    ensures failed || n < |chunks[i]| <==>
              TripsAt(fault, first, chunks, i) || CacheTripsAt(faultAt, limit, chunks, i)
  {
    FlattenStep(chunks, i);
  }

  lemma PartOfChunk(before: seq<Byte>, sent: seq<Byte>, chunk: seq<Byte>, n: nat)
    requires n <= |chunk|
    ensures before + sent + chunk[..n] == before + (sent + chunk[..n])
    ensures sent + chunk[..n] <= sent + chunk && (n == |chunk| ==> chunk[..n] == chunk)
  {
  }

  /** The stream arrives exactly if the source ends well and no write goes wrong. */
  predicate Arrives(source: Source, fault: Option<Fault>, first: nat, cacheFaultAt: Option<nat>, limit: int) {
    !source.fails && !Trips(fault, first, source.chunks) && !CacheTrips(cacheFaultAt, limit, source.chunks)
  }

  /** One read that returned something, written on: the copy goes on exactly if no write of it
      goes wrong. */
  method CopyChunk(chunk: seq<Byte>, sink: BoundedCacheWriter, ghost chunks: seq<seq<Byte>>, ghost i: nat,
                   ghost sent: seq<Byte>, ghost first: nat) returns (n: nat, ok: bool)
    requires i < |chunks| && chunk == chunks[i] && chunk != [] && sent == Flatten(chunks[..i])
    requires sink.enabled && sink.Tracks(sent) && sink.downstream.writes == first + Writes(chunks[..i])
    requires !sink.overflow ==> sink.cacheWrites == Writes(chunks[..i])
    modifies sink, sink.downstream
    ensures n <= |chunk| && sink.downstream.received == old(sink.downstream.received) + chunk[..n]
    ensures ok ==> n == |chunk| && sink.Tracks(sent + chunk)
                   && sink.downstream.writes == first + Writes(chunks[..i + 1])
                   && (!sink.overflow ==> sink.cacheWrites == Writes(chunks[..i + 1]))
    ensures ok <==> !TripsAt(sink.downstream.fault, first, chunks, i)
                    && !CacheTripsAt(sink.cacheFaultAt, sink.limit, chunks, i)
    ensures sink.limit >= 0 ==> |sink.cached| <= sink.limit
  {
    ghost var cacheWrites := sink.cacheWrites;
    var failed: bool;
    n, failed := sink.Write(chunk, sent);
    ok := !failed && n == |chunk|;
    TripDecides(sink.downstream.fault, first, sink.cacheFaultAt, sink.limit, chunks, i, sent, cacheWrites, n, failed);
    WritesStep(chunks, i);
    assert ok ==> chunk[..n] == chunk;
  }

  /** Stream fidelity, for every source, chunking and fault: success means that the client got
      exactly the source, and comes exactly if the source ends without an error and neither the
      client nor the cache file refuses a write; overflow means exactly that the source is longer
      than the limit, however it was chunked; without overflow the cache holds exactly the source.
      The hasher of a tee reader sees what is read, so on success it saw the source too. */
  method CopyThrough(source: Source, sink: BoundedCacheWriter) returns (written: nat, hashed: seq<Byte>, ok: bool)
    requires sink.Tracks([]) && sink.cacheWrites == 0 && sink.enabled
    modifies sink, sink.downstream
    ensures ok ==> sink.downstream.received == old(sink.downstream.received) + source.Content()
    ensures ok ==> written == |source.Content()| && hashed == source.Content()
    ensures ok ==> sink.Tracks(source.Content())
    ensures sink.limit >= 0 ==> |sink.cached| <= sink.limit
    ensures old(sink.downstream.received) <= sink.downstream.received
    ensures sink.downstream.received[|old(sink.downstream.received)|..] <= source.Content()
    ensures ok <==> Arrives(source, sink.downstream.fault, old(sink.downstream.writes), sink.cacheFaultAt, sink.limit)
  {
    written, hashed, ok := 0, [], true;
    ghost var before, first, fault := sink.downstream.received, sink.downstream.writes, sink.downstream.fault;
    ghost var sent: seq<Byte> := [];
    var i := 0;
    assert before == before + [];
    while i < |source.chunks|
      invariant i <= |source.chunks|
      invariant sent == Flatten(source.chunks[..i]) == hashed && written == |sent|
      invariant sink.downstream.received == before + sent
      invariant sink.Tracks(sent)
      invariant sink.downstream.writes == first + Writes(source.chunks[..i])
      invariant !sink.overflow ==> sink.cacheWrites == Writes(source.chunks[..i])
      invariant Smooth(fault, first, sink.cacheFaultAt, sink.limit, source.chunks, i) == true
    {
      var chunk := source.chunks[i];
      FlattenStep(source.chunks, i);
      WritesStep(source.chunks, i);
      FlattenPrefix(source.chunks, i + 1);
      hashed := hashed + chunk;
      if |chunk| > 0 {
        var n: nat;
        n, ok := CopyChunk(chunk, sink, source.chunks, i, sent, first);
        written := written + n;
        PartOfChunk(before, sent, chunk, n);
        if !ok {
          return;
        }
      }
      PartOfChunk(before, sent, chunk, |chunk|);
      sent := sent + chunk;
      ghost var next: nat := i + 1;
      SmoothStep(fault, first, sink.cacheFaultAt, sink.limit, source.chunks, i, next);
      i := i + 1;
    }
    assert source.chunks[..i] == source.chunks;
    SmoothToTheEnd(source, fault, first, sink.cacheFaultAt, sink.limit);
    ok := !source.fails;
  }

  /** io.Copy straight to the client: the path of a response that is not admitted to the cache. */
  method CopyPlain(source: Source, client: Client) returns (ok: bool)
    modifies client
    ensures ok ==> client.received == old(client.received) + source.Content()
    ensures ok <==> !source.fails && !Trips(client.fault, old(client.writes), source.chunks)
    ensures !Trips(client.fault, old(client.writes), source.chunks) ==>
              client.received == old(client.received) + source.Content()
  {
    ghost var sent: seq<Byte> := [];
    assert client.received == client.received + sent;
    var i := 0;
    while i < |source.chunks|
      invariant i <= |source.chunks|
      invariant sent == Flatten(source.chunks[..i])
      invariant client.received == old(client.received) + sent
      invariant client.writes == old(client.writes) + Writes(source.chunks[..i])
      invariant forall j :: 0 <= j < i ==> !TripsAt(client.fault, old(client.writes), source.chunks, j)
    {
      var chunk := source.chunks[i];
      FlattenStep(source.chunks, i);
      WritesStep(source.chunks, i);
      if |chunk| > 0 {
        var n, failed := client.Write(chunk);
        if failed || n != |chunk| {
          assert TripsAt(client.fault, old(client.writes), source.chunks, i);
          return false;
        }
        assert chunk[..n] == chunk;
        assert old(client.received) + sent + chunk == old(client.received) + (sent + chunk);
      }
      sent := sent + chunk;
      i := i + 1;
    }
    assert source.chunks[..i] == source.chunks;
    return !source.fails;
  }

  /** A client that takes every write never trips a stream, nor does a cache file that does. */
  lemma NoFaultNoTrip(first: nat, limit: int, chunks: seq<seq<Byte>>)
    ensures !Trips(None, first, chunks) && !CacheTrips(None, limit, chunks)
  {
  }
}
