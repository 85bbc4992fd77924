/** Uploading the cloud-init image: the stream asks for chunks, a callback reads them from the buffer. */
module Upload {
  import opened Base
  import opened IPv4

  /** The callback's reader over the image bytes. */
  class Source {
    const data: seq<byte>
    var pos: nat

    constructor (data: seq<byte>)
      ensures this.data == data && pos == 0
    {
      this.data, pos := data, 0;
    }

    /** What the callback hands to the stream for a request of n bytes; nothing means end of data. */
    method Next(n: nat) returns (chunk: seq<byte>)
      requires pos <= |data|
      modifies this`pos
      ensures old(pos) <= pos <= |data| && chunk == data[old(pos)..pos]
      ensures |chunk| == Min(n, |data| - old(pos))
    {
      var nr := Min(n, |data| - pos);
      chunk := data[pos..pos + nr];
      pos := pos + nr;
    }
  }

  /** The bytes that arrive when the i-th request asks for want(i) bytes, counted from request i on. */
  function Arriving(data: seq<byte>, want: nat -> nat, i: nat): seq<byte>
    decreases |data|
  {
    if data == [] || want(i) == 0 then []
    else data[..Min(want(i), |data|)] + Arriving(data[Min(want(i), |data|)..], want, i + 1)
  }

  lemma ArrivingStep(left: seq<byte>, want: nat -> nat, i: nat, k: nat)
    requires k == Min(want(i), |left|)
    ensures Arriving(left, want, i) == if k == 0 then [] else left[..k] + Arriving(left[k..], want, i + 1)
  {
  }

  lemma SendNext(sent: seq<byte>, all: seq<byte>, chunk: seq<byte>, rest: seq<byte>)
    requires all == chunk + rest
    ensures sent + all == sent + chunk + rest
  {
  }

  /** stream.SendAll: ask, send, until the callback has nothing more. */
  method SendAll(data: seq<byte>, want: nat -> nat) returns (sent: seq<byte>)
    ensures sent == Arriving(data, want, 0)
  {
    var source := new Source(data);
    sent := [];
    var i := 0;
    ghost var left := data;
    ghost var all := Arriving(data, want, 0);
    while true
      invariant source.data == data && source.pos <= |data| && left == data[source.pos..]
      invariant all == Arriving(left, want, i)
      invariant sent + all == Arriving(data, want, 0)
      decreases |data| - source.pos
    {
      var chunk := source.Next(want(i));
      ArrivingStep(left, want, i, |chunk|);
      if chunk == [] {
        break;
      }
      ghost var rest := left[|chunk|..];
      assert left[..|chunk|] == chunk && rest == data[source.pos..];
      SendNext(sent, all, chunk, Arriving(rest, want, i + 1));
      sent, i := sent + chunk, i + 1;
      left, all := rest, Arriving(rest, want, i);
    }
  }

  /** The bytes asked for by the requests from i up to, not including, z. */
  function Asked(want: nat -> nat, i: nat, z: nat): nat
    decreases z - i
  {
    if z <= i then 0 else want(i) + Asked(want, i + 1, z)
  }

  /**
   The whole buffer arrives exactly when no request for zero bytes comes before the requests add up to
   its length: the callback answers such a request like the end of the data.
   */
  lemma {:induction false} EverythingArrivesIff(data: seq<byte>, want: nat -> nat, i: nat)
    ensures Arriving(data, want, i) == data <==> forall z: nat :: i <= z && want(z) == 0 ==> |data| <= Asked(want, i, z)
    decreases |data|
  {
    if data != [] {
      if want(i) == 0 {
        assert Asked(want, i, i) == 0;
      } else {
        var k := Min(want(i), |data|);
        var rest := data[k..];
        EverythingArrivesIff(rest, want, i + 1);
        assert data == data[..k] + rest;
        assert Arriving(data, want, i) == data <==> Arriving(rest, want, i + 1) == rest;
        assert forall z: nat :: i + 1 <= z ==> Asked(want, i, z) == want(i) + Asked(want, i + 1, z);
      }
    }
  }

  /** In particular, whatever positive sizes the stream asks for, the whole buffer arrives. */
  lemma EverythingArrives(data: seq<byte>, want: nat -> nat)
    requires forall j: nat :: want(j) > 0
    ensures Arriving(data, want, 0) == data
  {
    EverythingArrivesIff(data, want, 0);
  }
}
