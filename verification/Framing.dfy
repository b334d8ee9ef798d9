// Length-prefixed frames over a stream the transport cuts as it likes:
// receipt.py, lines 69-83.
module Framing {
  import opened Options
  import opened Bytes

  const MAX_RECEIPT: nat := 8 * 1024 * 1024

  function Frame(body: bytes): bytes {
    Little(|body|, 4) + body
  }

  // The first frame of a stream and what is left of the stream.
  function TakeFrame(stream: bytes): Option<(bytes, bytes)> {
    if |stream| < 4 then None
    else
      var length := FromLittle(stream[..4]);
      if length > MAX_RECEIPT || |stream| - 4 < length then None
      else Some((stream[4..4 + length], stream[4 + length..]))
  }

  // A connected socket. Each recv delivers a non-empty piece of the pending bytes,
  // whose size is the transport's choice; `cuts` holds those choices.
  class Connection {
    var inbound: bytes
    var cuts: seq<nat>
    var outbound: bytes

    constructor (pending: bytes, choices: seq<nat>)
      ensures inbound == pending && cuts == choices && outbound == []
    {
      inbound, cuts, outbound := pending, choices, [];
    }

    // An empty answer means that the peer closed.
    method Recv(limit: nat) returns (part: bytes)
      requires limit > 0
      modifies this
      ensures part + inbound == old(inbound) && outbound == old(outbound)
      ensures |part| <= limit
      ensures part == [] <==> old(inbound) == []
    {
      var size := if cuts == [] then 1 else 1 + cuts[0];
      if cuts != [] { cuts := cuts[1..]; }
      if size > limit { size := limit; }
      if size > |inbound| { size := |inbound|; }
      part, inbound := inbound[..size], inbound[size..];
    }

    method SendAll(data: bytes)
      modifies this`outbound
      ensures outbound == old(outbound) + data
    {
      outbound := outbound + data;
    }

    method Exact(length: nat) returns (r: Option<bytes>)
      modifies this
      ensures outbound == old(outbound)
      ensures if length <= |old(inbound)|
              then r == Some(old(inbound)[..length]) && inbound == old(inbound)[length..]
              else r == None
    {
      var data: bytes := [];
      while |data| < length
        invariant |data| <= length && data + inbound == old(inbound)
        invariant outbound == old(outbound)
        decreases length - |data|
      {
        var part := Recv(length - |data|);
        if part == [] { return None; }
        assert data + (part + inbound) == (data + part) + inbound;
        data := data + part;
      }
      return Some(data);
    }

    // One recv_frame call does what TakeFrame says, for every sequence of cuts.
    method RecvFrame() returns (r: Option<bytes>)
      modifies this
      ensures outbound == old(outbound)
      ensures var spec := TakeFrame(old(inbound));
              if spec.Some? then r == Some(spec.value.0) && inbound == spec.value.1 else r == None
    {
      var head := Exact(4);
      if head == None { return None; }
      var length := FromLittle(head.value);
      if length > MAX_RECEIPT { return None; }
      r := Exact(length);
      ghost var body := old(inbound)[4..];
      assert length <= |body| ==>
          && body[..length] == old(inbound)[4..4 + length]
          && body[length..] == old(inbound)[4 + length..];
    }

    // struct.pack refuses a length over 32 bits.
    method SendFrame(body: bytes) returns (ok: bool)
      modifies this`outbound
      ensures ok <==> |body| < Pow256(4)
      ensures outbound == if ok then old(outbound) + Frame(body) else old(outbound)
    {
      Pow256Values();
      if |body| >= 0x1_0000_0000 { return false; }
      SendAll(Little(|body|, 4) + body);
      return true;
    }
  }

  // ---- Frames in a stream ----

  function Frames(bodies: seq<bytes>): bytes {
    if bodies == [] then [] else Frame(bodies[0]) + Frames(bodies[1..])
  }

  // What `count` successive recv_frame calls return, and the stream they leave.
  function TakeFrames(stream: bytes, count: nat): Option<(seq<bytes>, bytes)> {
    if count == 0 then Some(([], stream))
    else
      var (body, left) :- TakeFrame(stream);
      var (more, rest) :- TakeFrames(left, count - 1);
      Some(([body] + more, rest))
  }

  // A sent body comes back unless it exceeds the receiver's limit.
  lemma FrameRoundTrip(body: bytes, rest: bytes)
    requires |body| < Pow256(4)
    ensures TakeFrame(Frame(body) + rest) == if |body| <= 8388608 then Some((body, rest)) else None
  {
    var stream := Frame(body) + rest;
    LittleDecodes(|body|, 4);
    assert stream[..4] == Little(|body|, 4);
    assert stream[4..4 + |body|] == body;
    assert stream[4 + |body|..] == rest;
  }

  lemma {:induction false} FramesRoundTrip(bodies: seq<bytes>, rest: bytes)
    requires forall i | 0 <= i < |bodies| :: |bodies[i]| <= 8388608
    ensures TakeFrames(Frames(bodies) + rest, |bodies|) == Some((bodies, rest))
  {
    if bodies == [] {
      assert Frames(bodies) + rest == rest;
    } else {
      Pow256Values();
      assert Frames(bodies) + rest == Frame(bodies[0]) + (Frames(bodies[1..]) + rest);
      FrameRoundTrip(bodies[0], Frames(bodies[1..]) + rest);
      FramesRoundTrip(bodies[1..], rest);
      assert [bodies[0]] + bodies[1..] == bodies;
    }
  }

  // Conversely, frames are read only from their own encoding.
  lemma {:induction false} FramesExact(stream: bytes, count: nat)
    requires TakeFrames(stream, count).Some?
    ensures var (bodies, rest) := TakeFrames(stream, count).value;
            |bodies| == count && stream == Frames(bodies) + rest
  {
    if count > 0 {
      var (body, left) := TakeFrame(stream).value;
      LittleEncodes(stream[..4]);
      assert stream == Frame(body) + left;
      FramesExact(left, count - 1);
      var (bodies, rest) := TakeFrames(stream, count).value;
      assert bodies[1..] == TakeFrames(left, count - 1).value.0;
      assert Frame(body) + (Frames(bodies[1..]) + rest) == Frames(bodies) + rest;
    } else {
      assert stream == Frames([]) + stream;
    }
  }
}
