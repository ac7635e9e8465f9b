/** Capturing the output of a process, `read_bounded` in crates/hotki-engine/src/repeater.rs. */
module BoundedCapture {
  import opened Wrappers

  type Byte = bv8

  const LIMIT: nat := 32768   // PROCESS_STREAM_LIMIT_BYTES
  const CHUNK: nat := 4096

  datatype Captured = Captured(bytes: seq<Byte>, truncated: bool)

  /**
   What a reader yields, call by call: some bytes, at most a buffer full, or an
   error.  No bytes at all is the end of the stream.
   */
  datatype Read = Bytes(chunk: seq<Byte>) | Failed

  ghost predicate FitsBuffer(calls: seq<Read>) {
    forall i | 0 <= i < |calls| && calls[i].Bytes? :: |calls[i].chunk| <= CHUNK
  }

  predicate Ends(read: Read) {
    read == Failed || read.chunk == []
  }

  /** The bytes before the first end of stream or error. */
  function Stream(calls: seq<Read>): seq<Byte> {
    if calls == [] || Ends(calls[0]) then [] else calls[0].chunk + Stream(calls[1..])
  }

  /** Does the stream break off with an error? */
  predicate Breaks(calls: seq<Read>) {
    calls != [] && (calls[0] == Failed || (!Ends(calls[0]) && Breaks(calls[1..])))
  }

  function Kept(stream: seq<Byte>): Captured {
    if |stream| <= LIMIT then Captured(stream, false) else Captured(stream[..LIMIT], true)
  }

  /** The result depends on the stream alone, not on how it was cut into reads. */
  method ReadBounded(calls: seq<Read>) returns (r: Result<Captured, ()>)
    requires FitsBuffer(calls)
    ensures r.Err? <==> Breaks(calls)
    ensures r.Ok? ==>
              && r.value.bytes <= Stream(calls)
              && |r.value.bytes| == (if |Stream(calls)| < LIMIT then |Stream(calls)| else LIMIT)
              && (r.value.truncated <==> |Stream(calls)| > LIMIT)
  {
    hide Kept;
    KeptIs(Stream(calls));
    var bytes: seq<Byte>, truncated := [], false;
    var i := 0;
    ghost var seen: seq<Byte> := [];
    NothingKept();
    while i < |calls|
      invariant i <= |calls|
      invariant Breaks(calls) == Breaks(calls[i..]) && Stream(calls) == seen + Stream(calls[i..])
      invariant Captured(bytes, truncated) == Kept(seen)
    {
      OneCall(calls, i, seen);
      if calls[i] == Failed {
        return Err(());
      }
      var chunk := calls[i].chunk;
      if |chunk| == 0 {
        return Ok(Captured(bytes, truncated));
      }
      KeepMore(seen, chunk);
      var remaining := if |bytes| > LIMIT then 0 else LIMIT - |bytes|;
      var retained := if remaining < |chunk| then remaining else |chunk|;
      bytes := bytes + chunk[..retained];
      truncated := truncated || retained < |chunk|;
      seen := seen + chunk;
      i := i + 1;
    }
    assert calls[i..] == [] && seen + Stream([]) == seen;
    r := Ok(Captured(bytes, truncated));
  }

  lemma NothingKept()
    ensures Kept([]) == Captured([], false)
  {
  }

  /** What one more call adds to what has been seen. */
  lemma OneCall(calls: seq<Read>, i: nat, seen: seq<Byte>)
    requires i < |calls|
    ensures Breaks(calls[i..]) == (calls[i] == Failed || (!Ends(calls[i]) && Breaks(calls[i + 1..])))
    ensures Ends(calls[i]) ==> seen + Stream(calls[i..]) == seen
    ensures !Ends(calls[i]) ==> seen + Stream(calls[i..]) == (seen + calls[i].chunk) + Stream(calls[i + 1..])
  {
    assert calls[i..][0] == calls[i] && calls[i..][1..] == calls[i + 1..];
  }

  lemma KeepMore(seen: seq<Byte>, chunk: seq<Byte>)
    ensures |Kept(seen).bytes| <= LIMIT
    ensures var k := Kept(seen);
            var room := LIMIT - |k.bytes|;
            var retained := if room < |chunk| then room else |chunk|;
            Kept(seen + chunk) == Captured(k.bytes + chunk[..retained], k.truncated || retained < |chunk|)
  {
  }

  lemma KeptIs(stream: seq<Byte>)
    ensures var k := Kept(stream);
            && k.bytes <= stream && |k.bytes| == (if |stream| < LIMIT then |stream| else LIMIT)
            && (k.truncated <==> |stream| > LIMIT)
  {
  }

  /**
   Cutting one read into two, anywhere in any sequence of reads, changes neither
   the stream nor whether it breaks off; so no way of cutting does.
   */
  lemma {:induction false} CuttingIsUnobservable(before: seq<Read>, a: seq<Byte>, b: seq<Byte>, after: seq<Read>)
    requires a != [] && b != []
    ensures var one, two := before + [Bytes(a + b)] + after, before + [Bytes(a), Bytes(b)] + after;
            Stream(one) == Stream(two) && Breaks(one) == Breaks(two)
    decreases |before|
  {
    var one, two := before + [Bytes(a + b)] + after, before + [Bytes(a), Bytes(b)] + after;
    if before == [] {
      assert one[1..] == after && two[1..] == [Bytes(b)] + after && two[1..][1..] == after;
      assert (a + b) + Stream(after) == a + (b + Stream(after));
    } else {
      assert one[1..] == before[1..] + [Bytes(a + b)] + after;
      assert two[1..] == before[1..] + [Bytes(a), Bytes(b)] + after;
      CuttingIsUnobservable(before[1..], a, b, after);
    }
  }
}
