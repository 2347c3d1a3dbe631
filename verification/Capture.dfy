// The packet capture buffer: packet_handler appends header and data while they
// fit, print_captured_packets walks the buffer by the lengths in the headers.

module Capture {
  type Byte = x: int | 0 <= x < 256

  const HEADER: nat := 24   // sizeof(struct pcap_pkthdr): two longs, two ints

  // A packet as pcap delivers it; caplen is the number of data bytes.
  datatype Packet = Packet(sec: nat, usec: nat, len: nat, data: seq<Byte>)

  // What fits the header's fields.
  predicate Fits(p: Packet)
  {
    p.sec < Pow256(8) && p.usec < Pow256(8) && |p.data| < Pow256(4) && p.len < Pow256(4)
  }

  function Pow256(n: nat): (r: nat)
    ensures r > 0
  {
    if n == 0 then 1 else 256 * Pow256(n - 1)
  }

  // ---------------------------------------------------------------- bytes

  // An n-byte field, least significant byte first.
  function Field(x: nat, n: nat): (s: seq<Byte>)
    ensures |s| == n
  {
    if n == 0 then [] else [x % 256] + Field(x / 256, n - 1)
  }

  function Value(s: seq<Byte>): nat
  {
    if s == [] then 0 else s[0] + 256 * Value(s[1..])
  }

  lemma {:induction false} FieldValue(x: nat, n: nat)
    requires x < Pow256(n)
    ensures Value(Field(x, n)) == x
    decreases n
  {
    if n > 0 {
      FieldValue(x / 256, n - 1);
      assert Field(x, n)[1..] == Field(x / 256, n - 1);
    }
  }

  function Header(p: Packet): (h: seq<Byte>)
    ensures |h| == HEADER
  {
    Field(p.sec, 8) + Field(p.usec, 8) + Field(|p.data|, 4) + Field(p.len, 4)
  }

  function Record(p: Packet): seq<Byte>
  {
    Header(p) + p.data
  }

  function Records(ps: seq<Packet>): seq<Byte>
  {
    if ps == [] then [] else Records(ps[..|ps| - 1]) + Record(ps[|ps| - 1])
  }

  // ---------------------------------------------------------------- the writer

  // The packets kept of those seen: each one that still fits, up to the limit
  // (no limit when max is not positive). A packet that does not fit is dropped
  // and a later, smaller one may still be kept.
  function Kept(seen: seq<Packet>, size: nat, max: int): (k: seq<Packet>)
    ensures |Records(k)| <= size && (max > 0 ==> |k| <= max)
    decreases |seen|
  {
    if seen == [] then []
    else
      var k := Kept(seen[..|seen| - 1], size, max);
      var p := seen[|seen| - 1];
      if Takes(k, p, size, max) then KeptMore(k, p); k + [p] else k
  }

  predicate Takes(k: seq<Packet>, p: Packet, size: nat, max: int)
  {
    !(max > 0 && |k| >= max) && |Records(k)| + HEADER + |p.data| <= size
  }

  lemma {:induction false} KeptMore(k: seq<Packet>, p: Packet)
    ensures Records(k + [p]) == Records(k) + Record(p) && |Record(p)| == HEADER + |p.data|
  {
    assert (k + [p])[..|k|] == k;
  }

  lemma {:induction false} KeptTakes(seen: seq<Packet>, p: Packet, size: nat, max: int)
    ensures var k := Kept(seen, size, max); Kept(seen + [p], size, max) == if Takes(k, p, size, max) then k + [p] else k
  {
    assert (seen + [p])[..|seen|] == seen;
  }

  // ---------------------------------------------------------------- which packets those are

  function Bytes(ps: seq<Packet>): nat
  {
    if ps == [] then 0 else Bytes(ps[..|ps| - 1]) + HEADER + |ps[|ps| - 1].data|
  }

  lemma {:induction false} RecordsAreBytes(ps: seq<Packet>)
    ensures |Records(ps)| == Bytes(ps)
    decreases |ps|
  {
    if ps != [] { RecordsAreBytes(ps[..|ps| - 1]); }
  }

  // Packet k came when n packets had been kept, and was kept exactly if the
  // limit was not reached and there was room for its header and data.
  predicate DealtWith(seen: seq<Packet>, size: nat, max: int, kept: seq<Packet>, at: seq<nat>, k: nat, n: nat)
  {
    && k < |seen| && n <= |at| == |kept|
    && (forall i :: 0 <= i < n ==> at[i] < k) && (forall i :: n <= i < |at| ==> at[i] >= k)
    && (k in at <==> (max <= 0 || n < max) && Bytes(kept[..n]) + HEADER + |seen[k].data| <= size)
  }

  ghost predicate KeptIfRoom(seen: seq<Packet>, size: nat, max: int, kept: seq<Packet>, at: seq<nat>, k: nat)
  {
    exists n: nat :: DealtWith(seen, size, max, kept, at, k, n)
  }

  // The kept packets are those at positions `at`, in order, and each packet seen
  // was kept exactly if it fitted when it came.
  ghost predicate Greedy(seen: seq<Packet>, size: nat, max: int, kept: seq<Packet>, at: seq<nat>)
  {
    && |at| == |kept| && (forall i, j :: 0 <= i < j < |at| ==> at[i] < at[j])
    && (forall i :: 0 <= i < |at| ==> at[i] < |seen| && kept[i] == seen[at[i]])
    && (forall k :: 0 <= k < |seen| ==> KeptIfRoom(seen, size, max, kept, at, k))
  }

  lemma {:induction false} KeptIsGreedy(seen: seq<Packet>, size: nat, max: int)
    returns (kept: seq<Packet>, at: seq<nat>)
    ensures kept == Kept(seen, size, max) && Greedy(seen, size, max, kept, at)
    decreases |seen|
  {
    kept, at := [], [];
    if seen != [] {
      var init, p := seen[..|seen| - 1], seen[|seen| - 1];
      kept, at := KeptIsGreedy(init, size, max);
      RecordsAreBytes(kept);
      var takes := Takes(kept, p, size, max);
      OneMoreSeen(init, p, size, max, kept, at, takes);
      KeptTakes(init, p, size, max);
      assert seen == init + [p];
      kept, at := kept + (if takes then [p] else []), at + (if takes then [|init|] else []);
    }
  }

  lemma {:induction false} OneMoreSeen(init: seq<Packet>, p: Packet, size: nat, max: int, kept: seq<Packet>,
                                       at: seq<nat>, takes: bool)
    requires Greedy(init, size, max, kept, at)
    requires takes <==> (max <= 0 || |kept| < max) && Bytes(kept) + HEADER + |p.data| <= size
    ensures Greedy(init + [p], size, max, kept + (if takes then [p] else []), at + (if takes then [|init|] else []))
  {
    var seen, kept', at' := init + [p], kept + (if takes then [p] else []), at + (if takes then [|init|] else []);
    forall k | 0 <= k < |seen| ensures KeptIfRoom(seen, size, max, kept', at', k) {
      if k < |init| {
        assert KeptIfRoom(init, size, max, kept, at, k);
        var n: nat :| DealtWith(init, size, max, kept, at, k, n);
        assert kept'[..n] == kept[..n];
        assert k in at' <==> k in at;
        assert DealtWith(seen, size, max, kept', at', k, n);
      } else {
        assert kept'[..|at|] == kept;
        assert |init| !in at;
        assert DealtWith(seen, size, max, kept', at', k, |at|);
      }
    }
  }

  class CaptureContext {
    const buffer: array<Byte>
    const maxPackets: int
    var offset: nat
    var packetCount: nat
    ghost var seen: seq<Packet>

    ghost predicate Valid()
      reads this, buffer
    {
      var k := Kept(seen, buffer.Length, maxPackets);
      offset == |Records(k)| && offset <= buffer.Length && packetCount == |k| && buffer[..offset] == Records(k)
    }

    constructor (buffer: array<Byte>, maxPackets: int)
      ensures Valid() && this.buffer == buffer && this.maxPackets == maxPackets && seen == []
    {
      this.buffer, this.maxPackets, offset, packetCount, seen := buffer, maxPackets, 0, 0, [];
    }

    // packet_handler
    method Handle(p: Packet)
      requires Valid()
      modifies this, buffer
      ensures Valid() && seen == old(seen) + [p]
      ensures offset >= old(offset) && buffer[..old(offset)] == old(buffer[..offset])
    {
      ghost var k := Kept(seen, buffer.Length, maxPackets);
      KeptTakes(seen, p, buffer.Length, maxPackets);
      seen := seen + [p];
      if maxPackets > 0 && packetCount >= maxPackets { return; }
      if offset + HEADER + |p.data| > buffer.Length { return; }
      KeptMore(k, p);
      CopyRecord(buffer, offset, p);
      offset := offset + HEADER;
      offset := offset + |p.data|;
      packetCount := packetCount + 1;
    }
  }

  // Header and data, one after the other.
  method CopyRecord(a: array<Byte>, at: nat, p: Packet)
    requires at + HEADER + |p.data| <= a.Length
    modifies a
    ensures a[..at] == old(a[..at]) && a[..at + HEADER + |p.data|] == old(a[..at]) + Record(p)
  {
    Copy(a, at, Header(p));
    ghost var before := a[..at + HEADER];
    assert before == old(a[..at]) + Header(p);
    Copy(a, at + HEADER, p.data);
    assert a[..at] == before[..at];
    assert a[..at + HEADER + |p.data|] == before + p.data;
  }

  // memcpy into the buffer
  method Copy(a: array<Byte>, at: nat, s: seq<Byte>)
    requires at + |s| <= a.Length
    modifies a
    ensures a[..at] == old(a[..at]) && a[at..at + |s|] == s && a[at + |s|..] == old(a[at + |s|..])
  {
    for i := 0 to |s|
      invariant a[..at] == old(a[..at]) && a[at..at + i] == s[..i] && a[at + |s|..] == old(a[at + |s|..])
    {
      a[at + i] := s[i];
      assert a[at..at + i + 1] == a[at..at + i] + [s[i]];
    }
  }

  // ---------------------------------------------------------------- the reader

  // One record at the front of the bytes.
  function ReadRecord(s: seq<Byte>): Packet
    requires |s| >= HEADER && |s| >= HEADER + Value(s[16..20])
  {
    Packet(Value(s[0..8]), Value(s[8..16]), Value(s[20..24]), s[24..24 + Value(s[16..20])])
  }

  lemma {:induction false} RecordReadsBack(p: Packet, rest: seq<Byte>)
    requires Fits(p)
    ensures var s := Record(p) + rest;
      |s| >= HEADER && Value(s[16..20]) == |p.data| && |s| >= HEADER + |p.data| && ReadRecord(s) == p
  {
    var s := Record(p) + rest;
    FieldValue(p.sec, 8);
    FieldValue(p.usec, 8);
    FieldValue(|p.data|, 4);
    FieldValue(p.len, 4);
    HeaderFields(p, s);
    assert s[24..24 + |p.data|] == p.data;
  }

  lemma {:induction false} HeaderFields(p: Packet, s: seq<Byte>)
    requires |s| >= HEADER && s[..HEADER] == Header(p)
    ensures s[0..8] == Field(p.sec, 8) && s[8..16] == Field(p.usec, 8) && s[16..20] == Field(|p.data|, 4)
    ensures s[20..24] == Field(p.len, 4)
  {
    var h := Header(p);
    assert s[0..8] == h[0..8] && s[8..16] == h[8..16] && s[16..20] == h[16..20] && s[20..24] == h[20..24];
  }

  // The bytes of the packets from number i on follow those of the ones before.
  lemma {:induction false} RecordsFrom(ps: seq<Packet>, i: nat)
    requires i < |ps|
    ensures |Records(ps[..i + 1])| == |Records(ps[..i])| + |Record(ps[i])| <= |Records(ps)|
    ensures Records(ps)[|Records(ps[..i])|..|Records(ps[..i + 1])|] == Record(ps[i])
    decreases |ps|
  {
    var init := ps[..|ps| - 1];
    assert ps[..i + 1][..i] == ps[..i];
    if i < |init| {
      RecordsFrom(init, i);
      assert init[..i] == ps[..i] && init[..i + 1] == ps[..i + 1];
    } else {
      assert ps[..i] == init && ps[..i + 1] == ps;
    }
  }

  // print_captured_packets: the packets it visits and where it stops.
  method ReadPackets(buffer: array<Byte>, packetCount: nat, ghost kept: seq<Packet>) returns (ps: seq<Packet>, ptr: nat)
    requires packetCount == |kept| && (forall i :: 0 <= i < |kept| ==> Fits(kept[i]))
    requires |Records(kept)| <= buffer.Length && buffer[..|Records(kept)|] == Records(kept)
    ensures ps == kept && ptr == |Records(kept)|
  {
    ps, ptr := [], 0;
    for i := 0 to packetCount
      invariant ps == kept[..i] && ptr == |Records(kept[..i])| <= |Records(kept)|
    {
      RecordThere(buffer[..], kept, i);
      var caplen := Value(buffer[ptr + 16..ptr + 20]);
      ps := ps + [ReadRecord(buffer[ptr..])];
      ptr := ptr + HEADER;
      ptr := ptr + caplen;
    }
    assert kept[..packetCount] == kept;
  }

  lemma {:induction false} RecordThere(b: seq<Byte>, kept: seq<Packet>, i: nat)
    requires i < |kept| && Fits(kept[i]) && |Records(kept)| <= |b| && b[..|Records(kept)|] == Records(kept)
    ensures var at := |Records(kept[..i])|;
      && at + HEADER + |kept[i].data| == |Records(kept[..i + 1])| <= |Records(kept)|
      && Value(b[at + 16..at + 20]) == |kept[i].data| && |b[at..]| >= HEADER + |kept[i].data|
      && Value(b[at..][16..20]) == |kept[i].data| && ReadRecord(b[at..]) == kept[i]
  {
    var at, next := |Records(kept[..i])|, |Records(kept[..i + 1])|;
    RecordsFrom(kept, i);
    var tail := b[at..];
    assert tail[..next - at] == Records(kept)[at..next];
    assert tail == Record(kept[i]) + tail[next - at..];
    RecordReadsBack(kept[i], tail[next - at..]);
    assert b[at + 16..at + 20] == tail[16..20];
  }

  // Capture any packets into any buffer, then walk it with the count returned:
  // exactly the packets that fitted when they came come back, in order, and the
  // walk ends at the writer's offset.
  method CaptureThenRead(packets: seq<Packet>, buffer: array<Byte>,
                         maxPackets: int) returns (ps: seq<Packet>, ptr: nat, offset: nat, ghost at: seq<nat>)
    requires forall i :: 0 <= i < |packets| ==> Fits(packets[i])
    modifies buffer
    ensures Greedy(packets, buffer.Length, maxPackets, ps, at) && ptr == offset == Bytes(ps) <= buffer.Length
  {
    var ctx := new CaptureContext(buffer, maxPackets);
    for i := 0 to |packets|
      invariant ctx.Valid() && ctx.seen == packets[..i] && ctx.buffer == buffer && ctx.maxPackets == maxPackets
      invariant fresh(ctx)
    {
      ctx.Handle(packets[i]);
      assert packets[..i] + [packets[i]] == packets[..i + 1];
    }
    assert packets[..|packets|] == packets;
    KeptFit(packets, buffer.Length, maxPackets);
    offset := ctx.offset;
    ps, ptr := ReadPackets(buffer, ctx.packetCount, Kept(packets, buffer.Length, maxPackets));
    RecordsAreBytes(ps);
    ghost var kept;
    kept, at := KeptIsGreedy(packets, buffer.Length, maxPackets);
  }

  lemma {:induction false} KeptFit(seen: seq<Packet>, size: nat, max: int)
    requires forall i :: 0 <= i < |seen| ==> Fits(seen[i])
    ensures forall p :: p in Kept(seen, size, max) ==> Fits(p)
    decreases |seen|
  {
    if seen != [] { KeptFit(seen[..|seen| - 1], size, max); }
  }
}
