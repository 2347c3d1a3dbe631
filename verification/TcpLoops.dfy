// tcp_send and tcp_recv by themselves: the loops that turn partial transfers
// into whole messages.

module TcpLoops {
  import opened Wire

  // One direction of a connection: the bytes sent and not yet read.
  class Channel {
    var bytes: seq<Byte>

    constructor ()
      ensures bytes == []
    {
      bytes := [];
    }

    // send(): the kernel takes `answer` of the bytes from `at` on, but no more
    // than there are, or reports an error.
    method SendSome(data: array<Byte>, at: nat, answer: int) returns (sent: int)
      requires at < data.Length
      modifies this
      ensures sent == if answer <= data.Length - at then answer else data.Length - at
      ensures sent > 0 ==> bytes == old(bytes) + data[at..at + sent]
      ensures sent <= 0 ==> bytes == old(bytes)
    {
      sent := answer;
      if sent > data.Length - at { sent := data.Length - at; }
      if sent > 0 { bytes := bytes + data[at..at + sent]; }
    }

    // recv(): the kernel gives `answer` of the bytes that are there, but no more
    // than the room left from `at` on, or reports an error.
    method RecvSome(data: array<Byte>, at: nat, answer: int) returns (received: int)
      requires at < data.Length && bytes != []
      modifies this, data
      ensures received <= data.Length - at && received <= |old(bytes)| && received <= answer
      ensures received == answer || received == data.Length - at || received == |old(bytes)|
      ensures data[..at] == old(data[..at])
      ensures received > 0 ==> data[at..at + received] == old(bytes)[..received] && bytes == old(bytes)[received..]
      ensures received <= 0 ==> bytes == old(bytes) && data[..] == old(data[..])
    {
      received := answer;
      var room := data.Length - at;
      if received > room { received := room; }
      if received > |bytes| { received := |bytes|; }
      if received > 0 {
        for i := 0 to received
          invariant bytes == old(bytes) && received <= |bytes|
          invariant data[..at] == old(data[..at]) && data[at..at + i] == bytes[..i]
        {
          data[at + i] := bytes[i];
          assert data[at..at + i + 1] == data[at..at + i] + [bytes[i]];
        }
        bytes := bytes[received..];
      }
    }
  }

  // The loop made this many calls, and stopped short exactly if the last one was
  // answered with an error.
  predicate StoppedByError(answer: nat -> int, calls: nat, ok: bool)
  {
    (!ok ==> calls > 0) && forall i :: 0 <= i < calls ==> (answer(i) <= 0 <==> !ok && i == calls - 1)
  }

  // tcp_send: all of the data, in order, however it was cut; only an error ends
  // it early, with a prefix sent. answer(i) is what the i-th call is told.
  method TcpSend(c: Channel, data: array<Byte>, answer: nat -> int) returns (ok: bool, ghost total: nat,
                                                                             ghost calls: nat)
    modifies c
    ensures total <= data.Length && c.bytes == old(c.bytes) + data[..total]
    ensures ok <==> total == data.Length
    ensures StoppedByError(answer, calls, ok)
  {
    var totalSent, i := 0, 0;
    total, calls := 0, 0;
    assert data[..0] == [];
    while totalSent < data.Length
      invariant totalSent == total <= data.Length && c.bytes == old(c.bytes) + data[..totalSent]
      invariant i == calls && StoppedByError(answer, calls, true)
    {
      var sent := c.SendSome(data, totalSent, answer(i));
      i, calls := i + 1, calls + 1;
      if sent <= 0 { return false, total, calls; }
      assert data[..totalSent] + data[totalSent..totalSent + sent] == data[..totalSent + sent];
      totalSent := totalSent + sent;
      total := totalSent;
    }
    ok := true;
  }

  // tcp_recv of a message that has been sent in full: exactly its bytes, and
  // whatever was sent after it stays.
  method TcpRecv(c: Channel, data: array<Byte>, answer: nat -> int) returns (ok: bool, ghost total: nat,
                                                                             ghost calls: nat)
    requires data.Length <= |c.bytes|
    modifies c, data
    ensures total <= data.Length && data[..total] == old(c.bytes)[..total] && c.bytes == old(c.bytes)[total..]
    ensures ok <==> total == data.Length
    ensures StoppedByError(answer, calls, ok)
  {
    var totalReceived, i := 0, 0;
    total, calls := 0, 0;
    while totalReceived < data.Length
      invariant totalReceived == total <= data.Length
      invariant i == calls && StoppedByError(answer, calls, true)
      invariant data[..totalReceived] == old(c.bytes)[..totalReceived] && c.bytes == old(c.bytes)[totalReceived..]
    {
      ghost var before := data[..totalReceived];
      var received := c.RecvSome(data, totalReceived, answer(i));
      i, calls := i + 1, calls + 1;
      if received <= 0 { return false, total, calls; }
      assert data[..totalReceived + received] == before + data[totalReceived..totalReceived + received];
      totalReceived := totalReceived + received;
      total := totalReceived;
    }
    ok := true;
  }

  // Two messages sent one after the other are read back one after the other,
  // although the reader never sees where one ends; without an error, both are.
  method SendTwoReadTwo(c: Channel, a: array<Byte>, b: array<Byte>, x: array<Byte>, y: array<Byte>,
                        answer: nat -> nat -> int) returns (ok: bool)
    requires c.bytes == [] && x.Length == a.Length && y.Length == b.Length && x != y && a != x && a != y && b != x
    requires b != y
    modifies c, x, y
    ensures ok ==> x[..] == a[..] && y[..] == b[..] && c.bytes == []
    ensures (forall n: nat, i: nat :: answer(n)(i) > 0) ==> ok
  {
    ghost var n, i;
    ok, n, i := TcpSend(c, a, answer(0));
    assert !ok ==> answer(0)(i - 1) <= 0;
    if !ok { return; }
    ok, n, i := TcpSend(c, b, answer(1));
    assert !ok ==> answer(1)(i - 1) <= 0;
    if !ok { return; }
    assert c.bytes == a[..] + b[..];
    ok, n, i := TcpRecv(c, x, answer(2));
    assert !ok ==> answer(2)(i - 1) <= 0;
    if !ok { return; }
    assert x[..] == a[..] && c.bytes == b[..];
    ok, n, i := TcpRecv(c, y, answer(3));
    assert !ok ==> answer(3)(i - 1) <= 0;
    if !ok { return; }
    assert y[..] == b[..];
  }
}
