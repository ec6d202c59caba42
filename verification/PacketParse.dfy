/**
 * Header parsing of the packet program: which byte buffers yield a flow key, and which key.
 *
 * The reference is a description of frames by their header fields and an encoder of those headers; the parser is
 * proved to accept exactly the buffers that start with some encoded headers and whose declared lengths fit the packet.
 */
module PacketParse {
  import opened Common

  predicate Sized(s: seq<Byte>, n: nat) {
    |s| == n
  }

  function Be16(high: Byte, low: Byte): (n: nat)
    ensures n < 0x10000
  {
    high * 256 + low
  }

  /** The buffer holds `bytes` at `offset`, all of it inside the linear area. */
  predicate At(data: seq<Byte>, offset: nat, bytes: seq<Byte>) {
    offset + |bytes| <= |data| && data[offset..offset + |bytes|] == bytes
  }

  /** Every byte of a field that sits in the buffer. */
  lemma AtIndex(data: seq<Byte>, offset: nat, bytes: seq<Byte>, i: nat)
    requires At(data, offset, bytes) && i < |bytes|
    ensures data[offset + i] == bytes[i]
  {
    assert data[offset..offset + |bytes|][i] == bytes[i];
  }

  lemma AtSlice(data: seq<Byte>, offset: nat, bytes: seq<Byte>, i: nat, j: nat)
    requires At(data, offset, bytes) && i <= j <= |bytes|
    ensures data[offset + i..offset + j] == bytes[i..j]
  {
    var s := data[offset..offset + |bytes|];
    forall k | 0 <= k < j - i
      ensures s[i..j][k] == data[offset + i..offset + j][k]
    {
      assert s[i..j][k] == s[i + k];
    }
    assert s[i..j] == data[offset + i..offset + j];
  }

  /** Fields that follow each other. */
  lemma AtConcat(data: seq<Byte>, offset: nat, a: seq<Byte>, b: seq<Byte>)
    ensures At(data, offset, a + b) <==> At(data, offset, a) && At(data, offset + |a|, b)
  {
    if At(data, offset, a + b) {
      AtSlice(data, offset, a + b, 0, |a|);
      AtSlice(data, offset, a + b, |a|, |a + b|);
      assert (a + b)[..|a|] == a && (a + b)[|a|..] == b;
    }
    if At(data, offset, a) && At(data, offset + |a|, b) {
      assert data[offset..offset + |a + b|] == data[offset..offset + |a|] + data[offset + |a|..offset + |a| + |b|];
    }
  }

  // ----- Ethernet with at most two VLAN tags -----

  datatype Tag = Tag(service: bool, tci: seq<Byte>)

  function TagBytes(t: Tag): seq<Byte> {
    [if t.service then 0x88 else 0x81, if t.service then 0xa8 else 0x00] + t.tci
  }

  datatype Link = Link(destination: seq<Byte>, source: seq<Byte>, tags: seq<Tag>, v6: bool)

  predicate TagsOk(tags: seq<Tag>) {
    tags == [] || (TagsOk(tags[..|tags| - 1]) && Sized(tags[|tags| - 1].tci, 2))
  }

  predicate LinkOk(l: Link) {
    Sized(l.destination, 6) && Sized(l.source, 6) && |l.tags| <= 2 && TagsOk(l.tags)
  }

  function TypeBytes(v6: bool): seq<Byte> {
    if v6 then [0x86, 0xdd] else [0x08, 0x00]
  }

  function TagsBytes(tags: seq<Tag>): seq<Byte> {
    if tags == [] then [] else TagsBytes(tags[..|tags| - 1]) + TagBytes(tags[|tags| - 1])
  }

  function LinkBytes(l: Link): seq<Byte> {
    l.destination + l.source + TagsBytes(l.tags) + TypeBytes(l.v6)
  }

  predicate LinkAt(data: seq<Byte>, l: Link) {
    LinkOk(l) && At(data, 0, LinkBytes(l))
  }

  function TypeAt(data: seq<Byte>, offset: nat): nat
    requires offset + 2 <= |data|
  {
    Be16(data[offset], data[offset + 1])
  }

  predicate IsVlan(proto: nat) {
    proto == 0x8100 || proto == 0x88a8
  }

  /** The `i`-th type field after the addresses announces a VLAN tag. */
  predicate VlanAt(data: seq<Byte>, offset: nat, i: nat) {
    offset + 4 * i + 2 <= |data| && IsVlan(TypeAt(data, offset + 4 * i))
  }

  /** Tags in the buffer are a VLAN type and two bytes each, four bytes apart. */
  lemma {:induction false} TagsLayout(data: seq<Byte>, offset: nat, tags: seq<Tag>)
    requires TagsOk(tags) && At(data, offset, TagsBytes(tags))
    ensures |TagsBytes(tags)| == 4 * |tags| && offset + 4 * |tags| <= |data|
    ensures forall i :: 0 <= i < |tags| ==> VlanAt(data, offset, i)
  {
    if tags != [] {
      var n := |tags| - 1;
      AtConcat(data, offset, TagsBytes(tags[..n]), TagBytes(tags[n]));
      TagsLayout(data, offset, tags[..n]);
      AtIndex(data, offset + 4 * n, TagBytes(tags[n]), 0);
      AtIndex(data, offset + 4 * n, TagBytes(tags[n]), 1);
    }
  }

  /** Where the encoded link header of a description puts its fields. */
  lemma LinkLayout(data: seq<Byte>, l: Link)
    requires LinkAt(data, l)
    ensures |LinkBytes(l)| == 14 + 4 * |l.tags| <= |data| && data[6..12] == l.source
    ensures TypeAt(data, 12 + 4 * |l.tags|) == if l.v6 then 0x86dd else 0x0800
    ensures forall i :: 0 <= i < |l.tags| ==> VlanAt(data, 12, i)
  {
    var tags, kind := TagsBytes(l.tags), TypeBytes(l.v6);
    assert At(data, 0, l.destination + l.source + tags + kind);
    hide TagsBytes, VlanAt, TagsOk, At;
    AtConcat(data, 0, l.destination + l.source + tags, kind);
    AtConcat(data, 0, l.destination + l.source, tags);
    AtConcat(data, 0, l.destination, l.source);
    TagsLayout(data, 12, l.tags);
    AtIndex(data, 12 + |tags|, kind, 0);
    AtIndex(data, 12 + |tags|, kind, 1);
  }

  function TagFrom(data: seq<Byte>, offset: nat): Tag
    requires offset + 4 <= |data|
  {
    Tag(TypeAt(data, offset) == 0x88a8, data[offset + 2..offset + 4])
  }

  ghost function TagsFrom(data: seq<Byte>, offset: nat, n: nat): (tags: seq<Tag>)
    requires n <= 2 && offset + 4 * n <= |data|
    ensures |tags| == n
  {
    if n == 0 then []
    else if n == 1 then [TagFrom(data, offset)]
    else [TagFrom(data, offset), TagFrom(data, offset + 4)]
  }

  lemma TypeSplits(high: Byte, low: Byte)
    ensures Be16(high, low) / 256 == high && Be16(high, low) % 256 == low
  {
  }

  lemma TagReadBack(data: seq<Byte>, offset: nat)
    requires offset + 4 <= |data| && IsVlan(TypeAt(data, offset))
    ensures var tag := TagFrom(data, offset);
            At(data, offset, TagBytes(tag)) && |TagBytes(tag)| == 4 && Sized(tag.tci, 2)
  {
    TypeSplits(data[offset], data[offset + 1]);
    assert TagBytes(TagFrom(data, offset)) == data[offset..offset + 4];
  }

  lemma TypeReadBack(data: seq<Byte>, offset: nat)
    requires offset + 2 <= |data| && (TypeAt(data, offset) == 0x86dd || TypeAt(data, offset) == 0x0800)
    ensures At(data, offset, TypeBytes(TypeAt(data, offset) == 0x86dd))
  {
    TypeSplits(data[offset], data[offset + 1]);
    assert TypeBytes(TypeAt(data, offset) == 0x86dd) == data[offset..offset + 2];
  }

  lemma TagsReadBack(data: seq<Byte>, offset: nat, n: nat)
    requires n <= 2 && offset + 4 * n <= |data| && forall i :: 0 <= i < n ==> VlanAt(data, offset, i)
    ensures var tags := TagsFrom(data, offset, n);
            At(data, offset, TagsBytes(tags)) && |TagsBytes(tags)| == 4 * n && TagsOk(tags)
  {
    var tags := TagsFrom(data, offset, n);
    if n >= 1 {
      assert VlanAt(data, offset, 0);
      TagReadBack(data, offset);
      assert tags[..1] == [tags[0]] && [tags[0]][..0] == [];
      assert TagsBytes([tags[0]]) == TagBytes(tags[0]);
    }
    if n == 2 {
      assert VlanAt(data, offset, 1);
      TagReadBack(data, offset + 4);
      AtConcat(data, offset, TagBytes(tags[0]), TagBytes(tags[1]));
    }
  }

  /** The link description read back from the buffer. */
  ghost function LinkFrom(data: seq<Byte>, tags: nat): Link
    requires tags <= 2 && 14 + 4 * tags <= |data|
  {
    Link(data[0..6], data[6..12], TagsFrom(data, 12, tags), TypeAt(data, 12 + 4 * tags) == 0x86dd)
  }

  lemma LinkReadBack(data: seq<Byte>, tags: nat)
    requires tags <= 2 && 14 + 4 * tags <= |data|
    requires forall i :: 0 <= i < tags ==> VlanAt(data, 12, i)
    requires TypeAt(data, 12 + 4 * tags) == 0x86dd || TypeAt(data, 12 + 4 * tags) == 0x0800
    ensures LinkAt(data, LinkFrom(data, tags)) && |LinkBytes(LinkFrom(data, tags))| == 14 + 4 * tags
  {
    var l := LinkFrom(data, tags);
    var end := 12 + 4 * tags;
    TagsReadBack(data, 12, tags);
    TypeReadBack(data, end);
    assert At(data, 0, l.destination) && At(data, 6, l.source);
    LinkPieces(data, l);
  }

  lemma LinkPieces(data: seq<Byte>, l: Link)
    requires Sized(l.destination, 6) && Sized(l.source, 6)
    requires At(data, 0, l.destination) && At(data, 6, l.source) && At(data, 12, TagsBytes(l.tags))
    requires At(data, 12 + |TagsBytes(l.tags)|, TypeBytes(l.v6))
    ensures At(data, 0, LinkBytes(l)) && |LinkBytes(l)| == 14 + |TagsBytes(l.tags)|
  {
    hide At, TagsBytes;
    AtConcat(data, 0, l.destination, l.source);
    AtConcat(data, 0, l.destination + l.source, TagsBytes(l.tags));
    AtConcat(data, 0, l.destination + l.source + TagsBytes(l.tags), TypeBytes(l.v6));
  }

  datatype LinkResult = NoEthernet | LinkUnsupported(mac: seq<Byte>) | LinkParsed(mac: seq<Byte>, v6: bool, offset: nat)

  /** What any link header in the buffer says of the bytes there. */
  predicate LinkFields(data: seq<Byte>, l: Link) {
    && |LinkBytes(l)| == 14 + 4 * |l.tags| <= |data| && |l.tags| <= 2 && data[6..12] == l.source
    && TypeAt(data, 12 + 4 * |l.tags|) == (if l.v6 then 0x86dd else 0x0800)
    && forall i :: 0 <= i < |l.tags| ==> VlanAt(data, 12, i)
  }

  lemma AnyLinkLayout(data: seq<Byte>)
    ensures forall l :: LinkAt(data, l) ==> LinkFields(data, l)
  {
    forall l | LinkAt(data, l)
      ensures LinkFields(data, l)
    {
      LinkLayout(data, l);
    }
  }

  /** The Ethernet part: the source address, the network protocol, and where its header starts. */
  method ParseLink(data: seq<Byte>) returns (r: LinkResult, ghost link: Link)
    ensures r.NoEthernet? <==> |data| < 14
    ensures !r.NoEthernet? ==> r.mac == data[6..12]
    ensures r.LinkParsed? ==> LinkAt(data, link) && r == LinkParsed(link.source, link.v6, |LinkBytes(link)|)
    ensures forall l :: LinkAt(data, l) ==> r == LinkParsed(l.source, l.v6, |LinkBytes(l)|)
  {
    link := Link([], [], [], false);
    AnyLinkLayout(data);
    hide LinkAt, LinkBytes;
    if |data| < 14 { return NoEthernet, link; }
    var mac := data[6..12];
    var proto := TypeAt(data, 12);
    var tags := 0;
    while tags < 2 && IsVlan(proto)
      invariant tags <= 2 && 14 + 4 * tags <= |data| && proto == TypeAt(data, 12 + 4 * tags)
      invariant forall i :: 0 <= i < tags ==> VlanAt(data, 12, i)
      invariant forall l :: LinkAt(data, l) ==> tags <= |l.tags|
      decreases 2 - tags
    {
      if |data| < 18 + 4 * tags { return LinkUnsupported(mac), link; }
      tags := tags + 1;
      proto := TypeAt(data, 12 + 4 * tags);
    }
    assert tags < 2 ==> !VlanAt(data, 12, tags);
    if proto != 0x0800 && proto != 0x86dd { return LinkUnsupported(mac), link; }
    LinkReadBack(data, tags);
    link := LinkFrom(data, tags);
    r := LinkParsed(mac, proto == 0x86dd, 14 + 4 * tags);
  }

  // ----- IPv4 and IPv6 -----

  /** The network layer by its fields; lengths and protocol stand apart. IPv4 is never a fragment here. */
  datatype Net =
    | V4(tos: Byte, identification: seq<Byte>, flags: Byte, ttl: Byte, checksum: seq<Byte>, source: seq<Byte>,
         destination: seq<Byte>, options: seq<Byte>)
    | V6(classHigh: Byte, flow: seq<Byte>, hops: Byte, source: seq<Byte>, destination: seq<Byte>)

  predicate IsExtension(protocol: Byte) {
    protocol in [0, 43, 44, 50, 51, 60]
  }

  /** `declared` is the total length field of IPv4 or the payload length field of IPv6. */
  predicate NetOk(n: Net, declared: nat, protocol: Byte) {
    declared < 0x10000 &&
    match n
    case V4(_, identification, flags, _, checksum, source, destination, options) =>
      && Sized(identification, 2) && flags < 4 && Sized(checksum, 2) && Sized(source, 4) && Sized(destination, 4)
      && |options| % 4 == 0 && |options| <= 40 && 20 + |options| <= declared
    case V6(classHigh, flow, _, source, destination) =>
      && classHigh < 16 && Sized(flow, 3) && Sized(source, 16) && Sized(destination, 16)
      && declared > 0 && !IsExtension(protocol)
  }

  function NetBytes(n: Net, declared: nat, protocol: Byte): (b: seq<Byte>)
    requires NetOk(n, declared, protocol)
    ensures |b| == HeaderLength(n)
  {
    match n
    case V4(tos, identification, flags, ttl, checksum, source, destination, options) =>
      [0x40 + 5 + |options| / 4, tos, declared / 256, declared % 256] + identification + [flags * 64, 0, ttl, protocol]
      + checksum + source + destination + options
    case V6(classHigh, flow, hops, source, destination) =>
      [0x60 + classHigh] + flow + [declared / 256, declared % 256, protocol, hops] + source + destination
  }

  function HeaderLength(n: Net): nat {
    if n.V4? then 20 + |n.options| else 40
  }

  /** What is left for the transport layer. */
  function TransportLength(n: Net, declared: nat): int {
    if n.V4? then declared - HeaderLength(n) else declared
  }

  function PacketEnd(n: Net, offset: nat, declared: nat): nat {
    if n.V4? then offset + declared else offset + 40 + declared
  }

  predicate NetAt(data: seq<Byte>, offset: nat, packetLen: nat, n: Net, declared: nat, protocol: Byte) {
    && NetOk(n, declared, protocol) && At(data, offset, NetBytes(n, declared, protocol))
    && PacketEnd(n, offset, declared) <= packetLen
  }

  lemma V4Layout(data: seq<Byte>, offset: nat, packetLen: nat, n: Net, declared: nat, protocol: Byte)
    requires n.V4? && NetAt(data, offset, packetLen, n, declared, protocol)
    ensures offset + 20 <= offset + HeaderLength(n) <= |data|
    ensures data[offset] / 16 == 4 && data[offset] % 16 * 4 == HeaderLength(n)
    ensures Be16(data[offset + 2], data[offset + 3]) == declared
    ensures data[offset + 6] % 64 == 0 && data[offset + 7] == 0 && data[offset + 9] == protocol
    ensures data[offset + 12..offset + 16] == n.source && data[offset + 16..offset + 20] == n.destination
  {
    V4Pieces(data, offset, n, declared, protocol);
    V4Numbers(n, declared);
    hide NetBytes, NetOk;
    var length := [0x40 + 5 + |n.options| / 4, n.tos, declared / 256, declared % 256];
    var middle := [n.flags * 64, 0, n.ttl, protocol];
    AtIndex(data, offset, length, 0);
    AtIndex(data, offset, length, 2);
    AtIndex(data, offset, length, 3);
    AtIndex(data, offset + 6, middle, 0);
    AtIndex(data, offset + 6, middle, 1);
    AtIndex(data, offset + 6, middle, 3);
  }

  lemma V4Numbers(n: Net, declared: nat)
    requires n.V4? && NetOk(n, declared, 0)
    ensures (0x45 + |n.options| / 4) / 16 == 4 && (0x45 + |n.options| / 4) % 16 * 4 == HeaderLength(n)
    ensures n.flags * 64 % 64 == 0 && Be16(declared / 256, declared % 256) == declared
  {
  }

  lemma V4Pieces(data: seq<Byte>, offset: nat, n: Net, declared: nat, protocol: Byte)
    requires n.V4? && NetOk(n, declared, protocol) && At(data, offset, NetBytes(n, declared, protocol))
    ensures At(data, offset, [0x40 + 5 + |n.options| / 4, n.tos, declared / 256, declared % 256])
    ensures At(data, offset + 6, [n.flags * 64, 0, n.ttl, protocol])
    ensures At(data, offset + 12, n.source) && At(data, offset + 16, n.destination)
  {
    var length := [0x40 + 5 + |n.options| / 4, n.tos, declared / 256, declared % 256];
    var middle := [n.flags * 64, 0, n.ttl, protocol];
    var a := length + n.identification;
    var b := a + middle + n.checksum;
    assert NetBytes(n, declared, protocol) == b + n.source + n.destination + n.options;
    AtConcat(data, offset, b + n.source + n.destination, n.options);
    AtConcat(data, offset, b + n.source, n.destination);
    AtConcat(data, offset, b, n.source);
    AtConcat(data, offset, a + middle, n.checksum);
    AtConcat(data, offset, a, middle);
    AtConcat(data, offset, length, n.identification);
  }

  lemma DeclaredSplits(declared: nat)
    requires declared < 0x10000
    ensures Be16(declared / 256, declared % 256) == declared
  {
  }

  ghost function V4From(data: seq<Byte>, offset: nat, length: nat): Net
    requires offset + length <= |data| && length >= 20
  {
    V4(data[offset + 1], data[offset + 4..offset + 6], data[offset + 6] / 64, data[offset + 8],
       data[offset + 10..offset + 12], data[offset + 12..offset + 16], data[offset + 16..offset + 20],
       data[offset + 20..offset + length])
  }

  lemma V4ReadBack(data: seq<Byte>, offset: nat, packetLen: nat, length: nat)
    requires 20 <= length <= 60 && length % 4 == 0 && offset + length <= |data|
    requires data[offset] / 16 == 4 && data[offset] % 16 * 4 == length
    requires length <= Be16(data[offset + 2], data[offset + 3])
    requires offset + Be16(data[offset + 2], data[offset + 3]) <= packetLen
    requires data[offset + 6] % 64 == 0 && data[offset + 7] == 0
    ensures NetAt(data, offset, packetLen, V4From(data, offset, length), Be16(data[offset + 2], data[offset + 3]),
                  data[offset + 9])
  {
    var n, declared, protocol := V4From(data, offset, length), Be16(data[offset + 2], data[offset + 3]), data[offset + 9];
    TypeSplits(data[offset + 2], data[offset + 3]);
    var b := NetBytes(n, declared, protocol);
    V4FirstByte(data[offset], length, |n.options|);
    assert b[0] == data[offset];
    assert forall i :: 0 <= i < |b| ==> b[i] == data[offset + i];
    assert data[offset..offset + |b|] == b;
  }

  lemma V4FirstByte(first: Byte, length: nat, options: nat)
    requires first / 16 == 4 && first % 16 * 4 == length == 20 + options
    ensures 0x40 + 5 + options / 4 == first && options % 4 == 0
  {
  }

  lemma V6Layout(data: seq<Byte>, offset: nat, packetLen: nat, n: Net, declared: nat, protocol: Byte)
    requires n.V6? && NetAt(data, offset, packetLen, n, declared, protocol)
    ensures offset + 40 <= |data| && data[offset] / 16 == 6
    ensures Be16(data[offset + 4], data[offset + 5]) == declared && data[offset + 6] == protocol
    ensures data[offset + 8..offset + 24] == n.source && data[offset + 24..offset + 40] == n.destination
  {
    var b := NetBytes(n, declared, protocol);
    AtIndex(data, offset, b, 0);
    AtIndex(data, offset, b, 4);
    AtIndex(data, offset, b, 5);
    AtIndex(data, offset, b, 6);
    AtSlice(data, offset, b, 8, 24);
    AtSlice(data, offset, b, 24, 40);
    assert b[8..24] == n.source && b[24..40] == n.destination;
    DeclaredSplits(declared);
  }

  ghost function V6From(data: seq<Byte>, offset: nat): Net
    requires offset + 40 <= |data|
  {
    V6(data[offset] % 16, data[offset + 1..offset + 4], data[offset + 7], data[offset + 8..offset + 24],
       data[offset + 24..offset + 40])
  }

  lemma V6ReadBack(data: seq<Byte>, offset: nat, packetLen: nat)
    requires offset + 40 <= |data| && data[offset] / 16 == 6
    requires Be16(data[offset + 4], data[offset + 5]) > 0 && !IsExtension(data[offset + 6])
    requires offset + 40 + Be16(data[offset + 4], data[offset + 5]) <= packetLen
    ensures NetAt(data, offset, packetLen, V6From(data, offset), Be16(data[offset + 4], data[offset + 5]), data[offset + 6])
  {
    var n, declared, protocol := V6From(data, offset), Be16(data[offset + 4], data[offset + 5]), data[offset + 6];
    TypeSplits(data[offset + 4], data[offset + 5]);
    var b := NetBytes(n, declared, protocol);
    assert forall i :: 0 <= i < |b| ==> b[i] == data[offset + i];
    assert data[offset..offset + |b|] == b;
  }

  datatype NetResult = NetUnsupported | NetParsed(protocol: Byte, source: seq<Byte>, destination: seq<Byte>, offset: nat,
                                                  transportLen: nat)

  function NetParsedFrom(offset: nat, n: Net, declared: nat, protocol: Byte): NetResult
    requires NetOk(n, declared, protocol)
  {
    NetParsed(protocol, n.source, n.destination, offset + HeaderLength(n), TransportLength(n, declared))
  }

  /** What any IPv4 header at the offset says of the bytes there. */
  predicate V4Fields(data: seq<Byte>, offset: nat, m: Net, d: nat, p: Byte) {
    && m.V4? && offset + 20 <= offset + HeaderLength(m) <= |data|
    && data[offset] / 16 == 4 && data[offset] % 16 * 4 == HeaderLength(m)
    && Be16(data[offset + 2], data[offset + 3]) == d && data[offset + 6] % 64 == 0 && data[offset + 7] == 0
    && data[offset + 9] == p
    && data[offset + 12..offset + 16] == m.source && data[offset + 16..offset + 20] == m.destination
  }

  lemma AnyV4Layout(data: seq<Byte>, offset: nat, packetLen: nat)
    ensures forall m: Net, d: nat, p: Byte :: m.V4? && NetAt(data, offset, packetLen, m, d, p) ==>
              V4Fields(data, offset, m, d, p) && HeaderLength(m) <= d && offset + d <= packetLen
  {
    forall m: Net, d: nat, p: Byte | m.V4? && NetAt(data, offset, packetLen, m, d, p)
      ensures V4Fields(data, offset, m, d, p) && HeaderLength(m) <= d && offset + d <= packetLen
    {
      V4Layout(data, offset, packetLen, m, d, p);
    }
  }

  /** The IPv4 branch. */
  method ParseV4(data: seq<Byte>, offset: nat, packetLen: nat) returns (r: NetResult, ghost n: Net, ghost declared: nat)
    requires offset <= |data|
    ensures r.NetParsed? ==> n.V4? && NetAt(data, offset, packetLen, n, declared, r.protocol)
                             && r == NetParsedFrom(offset, n, declared, r.protocol)
    ensures forall m: Net, d: nat, p: Byte :: m.V4? && NetAt(data, offset, packetLen, m, d, p) ==>
              r == NetParsedFrom(offset, m, d, p)
  {
    n, declared := V6(0, [], 0, [], []), 0;
    AnyV4Layout(data, offset, packetLen);
    hide NetAt;
    if offset + 20 > |data| || data[offset] / 16 != 4 { return NetUnsupported, n, declared; }
    var length := data[offset] % 16 * 4;
    if length < 20 || offset + length > |data| { return NetUnsupported, n, declared; }
    var total := Be16(data[offset + 2], data[offset + 3]);
    if total < length || offset + total > packetLen { return NetUnsupported, n, declared; }
    if data[offset + 6] % 64 != 0 || data[offset + 7] != 0 { return NetUnsupported, n, declared; }
    V4ReadBack(data, offset, packetLen, length);
    n, declared := V4From(data, offset, length), total;
    r := NetParsed(data[offset + 9], data[offset + 12..offset + 16], data[offset + 16..offset + 20], offset + length,
                   total - length);
  }

  /** The IPv6 branch. */
  method ParseV6(data: seq<Byte>, offset: nat, packetLen: nat) returns (r: NetResult, ghost n: Net, ghost declared: nat)
    requires offset <= |data|
    ensures r.NetParsed? ==> n.V6? && NetAt(data, offset, packetLen, n, declared, r.protocol)
                             && r == NetParsedFrom(offset, n, declared, r.protocol)
    ensures forall m: Net, d: nat, p: Byte :: m.V6? && NetAt(data, offset, packetLen, m, d, p) ==>
              r == NetParsedFrom(offset, m, d, p)
  {
    n, declared := V6(0, [], 0, [], []), 0;
    forall m: Net, d: nat, p: Byte | m.V6? && NetAt(data, offset, packetLen, m, d, p)
      ensures offset + 40 <= |data| && data[offset] / 16 == 6 && data[offset + 6] == p
      ensures Be16(data[offset + 4], data[offset + 5]) == d
      ensures data[offset + 8..offset + 24] == m.source && data[offset + 24..offset + 40] == m.destination
    {
      V6Layout(data, offset, packetLen, m, d, p);
    }
    hide NetBytes, At;
    if offset + 40 > |data| || data[offset] / 16 != 6 { return NetUnsupported, n, declared; }
    var payload := Be16(data[offset + 4], data[offset + 5]);
    if payload == 0 || offset + 40 + payload > packetLen { return NetUnsupported, n, declared; }
    if IsExtension(data[offset + 6]) { return NetUnsupported, n, declared; }
    V6ReadBack(data, offset, packetLen);
    n, declared := V6From(data, offset), payload;
    r := NetParsed(data[offset + 6], data[offset + 8..offset + 24], data[offset + 24..offset + 40], offset + 40, payload);
  }

  // ----- TCP and UDP -----

  datatype Transport =
    | Tcp(srcPort: seq<Byte>, dstPort: seq<Byte>, numbers: seq<Byte>, low: Byte, control: seq<Byte>, options: seq<Byte>)
    | Udp(srcPort: seq<Byte>, dstPort: seq<Byte>, length: nat, checksum: seq<Byte>)
    | Other(protocol: Byte)

  function ProtocolOf(t: Transport): Byte {
    match t
    case Tcp(_, _, _, _, _, _) => IPPROTO_TCP
    case Udp(_, _, _, _) => IPPROTO_UDP
    case Other(p) => p
  }

  predicate TransportOk(t: Transport, available: nat) {
    match t
    case Tcp(srcPort, dstPort, numbers, low, control, options) =>
      && Sized(srcPort, 2) && Sized(dstPort, 2) && Sized(numbers, 8) && low < 16 && Sized(control, 7)
      && |options| % 4 == 0 && |options| <= 40 && 20 + |options| <= available
    case Udp(srcPort, dstPort, length, checksum) =>
      && Sized(srcPort, 2) && Sized(dstPort, 2) && Sized(checksum, 2) && 8 <= length <= available && length < 0x10000
    case Other(p) => p != IPPROTO_TCP && p != IPPROTO_UDP
  }

  function TransportBytes(t: Transport, available: nat): (b: seq<Byte>)
    requires TransportOk(t, available)
  {
    match t
    case Tcp(srcPort, dstPort, numbers, low, control, options) =>
      srcPort + dstPort + numbers + [(5 + |options| / 4) * 16 + low] + control + options
    case Udp(srcPort, dstPort, length, checksum) => srcPort + dstPort + [length / 256, length % 256] + checksum
    case Other(_) => []
  }

  predicate TransportAt(data: seq<Byte>, offset: nat, available: nat, t: Transport) {
    TransportOk(t, available) && At(data, offset, TransportBytes(t, available))
  }

  /** Ports are kept as sent; a protocol without ports leaves them zero. */
  function PortsOf(t: Transport): (seq<Byte>, seq<Byte>) {
    if t.Other? then ([0, 0], [0, 0]) else (t.srcPort, t.dstPort)
  }

  lemma TcpLayout(data: seq<Byte>, offset: nat, available: nat, t: Transport)
    requires t.Tcp? && TransportAt(data, offset, available, t)
    ensures 20 <= |TransportBytes(t, available)| <= available && offset + |TransportBytes(t, available)| <= |data|
    ensures data[offset + 12] / 16 * 4 == |TransportBytes(t, available)|
    ensures data[offset..offset + 2] == t.srcPort && data[offset + 2..offset + 4] == t.dstPort
  {
    var b := TransportBytes(t, available);
    AtIndex(data, offset, b, 12);
    AtSlice(data, offset, b, 0, 2);
    AtSlice(data, offset, b, 2, 4);
    assert b[0..2] == t.srcPort && b[2..4] == t.dstPort;
  }

  lemma UdpLayout(data: seq<Byte>, offset: nat, available: nat, t: Transport)
    requires t.Udp? && TransportAt(data, offset, available, t)
    ensures |TransportBytes(t, available)| == 8 && offset + 8 <= |data|
    ensures Be16(data[offset + 4], data[offset + 5]) == t.length
    ensures data[offset..offset + 2] == t.srcPort && data[offset + 2..offset + 4] == t.dstPort
  {
    var b := TransportBytes(t, available);
    AtIndex(data, offset, b, 4);
    AtIndex(data, offset, b, 5);
    AtSlice(data, offset, b, 0, 2);
    AtSlice(data, offset, b, 2, 4);
    assert b[0..2] == t.srcPort && b[2..4] == t.dstPort;
    DeclaredSplits(t.length);
  }

  ghost function TcpFrom(data: seq<Byte>, offset: nat, length: nat): Transport
    requires 20 <= length && offset + length <= |data|
  {
    Tcp(data[offset..offset + 2], data[offset + 2..offset + 4], data[offset + 4..offset + 12], data[offset + 12] % 16,
        data[offset + 13..offset + 20], data[offset + 20..offset + length])
  }

  lemma TcpReadBack(data: seq<Byte>, offset: nat, available: nat, length: nat)
    requires 20 <= length <= available && offset + length <= |data| && data[offset + 12] / 16 * 4 == length
    ensures TransportAt(data, offset, available, TcpFrom(data, offset, length))
    ensures |TransportBytes(TcpFrom(data, offset, length), available)| == length
  {
    var t := TcpFrom(data, offset, length);
    var b := TransportBytes(t, available);
    assert b[12] == data[offset + 12];
    assert forall i :: 0 <= i < |b| ==> b[i] == data[offset + i];
    assert data[offset..offset + |b|] == b;
  }

  ghost function UdpFrom(data: seq<Byte>, offset: nat): Transport
    requires offset + 8 <= |data|
  {
    Udp(data[offset..offset + 2], data[offset + 2..offset + 4], Be16(data[offset + 4], data[offset + 5]),
        data[offset + 6..offset + 8])
  }

  lemma UdpReadBack(data: seq<Byte>, offset: nat, available: nat)
    requires offset + 8 <= |data| && 8 <= Be16(data[offset + 4], data[offset + 5]) <= available
    ensures TransportAt(data, offset, available, UdpFrom(data, offset))
  {
    var t := UdpFrom(data, offset);
    TypeSplits(data[offset + 4], data[offset + 5]);
    var b := TransportBytes(t, available);
    assert forall i :: 0 <= i < |b| ==> b[i] == data[offset + i];
    assert data[offset..offset + |b|] == b;
  }

  datatype PortResult = PortsUnsupported | Ports(srcPort: seq<Byte>, dstPort: seq<Byte>, offset: nat)

  function PortsParsed(offset: nat, t: Transport, available: nat): PortResult
    requires TransportOk(t, available)
  {
    Ports(PortsOf(t).0, PortsOf(t).1, offset + |TransportBytes(t, available)|)
  }

  method ParseTcp(data: seq<Byte>, offset: nat, available: nat) returns (r: PortResult, ghost t: Transport)
    requires offset <= |data|
    ensures r.Ports? ==> t.Tcp? && TransportAt(data, offset, available, t) && r == PortsParsed(offset, t, available)
    ensures forall u: Transport :: u.Tcp? && TransportAt(data, offset, available, u) ==> r == PortsParsed(offset, u, available)
  {
    t := Other(0);
    forall u: Transport | u.Tcp? && TransportAt(data, offset, available, u)
      ensures 20 <= |TransportBytes(u, available)| <= available && offset + |TransportBytes(u, available)| <= |data|
      ensures data[offset + 12] / 16 * 4 == |TransportBytes(u, available)|
      ensures data[offset..offset + 2] == u.srcPort && data[offset + 2..offset + 4] == u.dstPort
    {
      TcpLayout(data, offset, available, u);
    }
    hide TransportBytes, At;
    if available < 20 || offset + 20 > |data| || data[offset + 12] / 16 < 5 { return PortsUnsupported, t; }
    var length := data[offset + 12] / 16 * 4;
    if length > available || offset + length > |data| { return PortsUnsupported, t; }
    TcpReadBack(data, offset, available, length);
    t := TcpFrom(data, offset, length);
    r := Ports(data[offset..offset + 2], data[offset + 2..offset + 4], offset + length);
  }

  method ParseUdp(data: seq<Byte>, offset: nat, available: nat) returns (r: PortResult, ghost t: Transport)
    requires offset <= |data|
    ensures r.Ports? ==> t.Udp? && TransportAt(data, offset, available, t) && r == PortsParsed(offset, t, available)
    ensures forall u: Transport :: u.Udp? && TransportAt(data, offset, available, u) ==> r == PortsParsed(offset, u, available)
  {
    t := Other(0);
    forall u: Transport | u.Udp? && TransportAt(data, offset, available, u)
      ensures |TransportBytes(u, available)| == 8 && offset + 8 <= |data|
      ensures Be16(data[offset + 4], data[offset + 5]) == u.length
      ensures data[offset..offset + 2] == u.srcPort && data[offset + 2..offset + 4] == u.dstPort
    {
      UdpLayout(data, offset, available, u);
    }
    if available < 8 || offset + 8 > |data| { return PortsUnsupported, t; }
    var length := Be16(data[offset + 4], data[offset + 5]);
    if length < 8 || length > available { return PortsUnsupported, t; }
    UdpReadBack(data, offset, available);
    t := UdpFrom(data, offset);
    r := Ports(data[offset..offset + 2], data[offset + 2..offset + 4], offset + 8);
  }

  // ----- The whole frame -----

  datatype Frame = Frame(link: Link, net: Net, declared: nat, transport: Transport)

  /** The key fields the parser fills in. */
  datatype Key = Key(v6: bool, protocol: Byte, srcPort: seq<Byte>, dstPort: seq<Byte>, source: seq<Byte>, destination: seq<Byte>)

  datatype ParseOutcome = NoFrame | Unsupported(mac: seq<Byte>) | Parsed(mac: seq<Byte>, key: Key, examined: nat)

  /** The headers of the frame open the buffer, and its declared lengths fit the packet. */
  predicate Carries(data: seq<Byte>, packetLen: nat, f: Frame) {
    && LinkAt(data, f.link) && f.net.V6? == f.link.v6
    && NetAt(data, |LinkBytes(f.link)|, packetLen, f.net, f.declared, ProtocolOf(f.transport))
    && TransportAt(data, |LinkBytes(f.link)| + HeaderLength(f.net), TransportLength(f.net, f.declared), f.transport)
  }

  /** What the frame was built from. */
  function Describes(f: Frame): Key {
    Key(f.link.v6, ProtocolOf(f.transport), PortsOf(f.transport).0, PortsOf(f.transport).1, f.net.source, f.net.destination)
  }

  function HeaderBytes(f: Frame): nat
    requires NetOk(f.net, f.declared, ProtocolOf(f.transport)) && TransportOk(f.transport, TransportLength(f.net, f.declared))
  {
    |LinkBytes(f.link)| + HeaderLength(f.net) + |TransportBytes(f.transport, TransportLength(f.net, f.declared))|
  }

  method ParseNet(data: seq<Byte>, link: LinkResult, packetLen: nat) returns (r: NetResult, ghost n: Net, ghost declared: nat)
    requires link.LinkParsed? && link.offset <= |data|
    ensures r.NetParsed? ==> n.V6? == link.v6 && NetAt(data, link.offset, packetLen, n, declared, r.protocol)
                             && r == NetParsedFrom(link.offset, n, declared, r.protocol)
    ensures forall m: Net, d: nat, p: Byte :: m.V6? == link.v6 && NetAt(data, link.offset, packetLen, m, d, p) ==>
              r == NetParsedFrom(link.offset, m, d, p)
  {
    hide NetAt;
    if link.v6 {
      r, n, declared := ParseV6(data, link.offset, packetLen);
    } else {
      r, n, declared := ParseV4(data, link.offset, packetLen);
    }
  }

  method ParseTransport(data: seq<Byte>, offset: nat, available: nat, protocol: Byte)
    returns (r: PortResult, ghost t: Transport)
    requires offset <= |data|
    ensures r.Ports? ==> ProtocolOf(t) == protocol && TransportAt(data, offset, available, t)
                         && r == PortsParsed(offset, t, available)
    ensures forall u: Transport :: ProtocolOf(u) == protocol && TransportAt(data, offset, available, u) ==>
              r == PortsParsed(offset, u, available)
  {
    hide At;
    if protocol == IPPROTO_TCP {
      r, t := ParseTcp(data, offset, available);
    } else if protocol == IPPROTO_UDP {
      r, t := ParseUdp(data, offset, available);
    } else {
      t := Other(protocol);
      r := Ports([0, 0], [0, 0], offset);
      NoBytesAt(data, offset);
    }
  }

  lemma NoBytesAt(data: seq<Byte>, offset: nat)
    requires offset <= |data|
    ensures At(data, offset, [])
  {
  }

  /**
   * ca_parse_flow. A buffer yields a key exactly when it opens with the headers of some frame whose lengths fit, and
   * then the key, the source address and the number of header bytes are those of that frame. Every access lies in the
   * linear area.
   */
  method ParseFlow(data: seq<Byte>, packetLen: nat) returns (r: ParseOutcome, ghost frame: Frame)
    ensures r.NoFrame? <==> |data| < 14
    ensures !r.NoFrame? ==> r.mac == data[6..12]
    ensures r.Parsed? ==> Carries(data, packetLen, frame)
                          && r == Parsed(frame.link.source, Describes(frame), HeaderBytes(frame))
    ensures forall f :: Carries(data, packetLen, f) ==> r == Parsed(f.link.source, Describes(f), HeaderBytes(f))
  {
    hide LinkAt, NetAt, TransportAt, LinkBytes, TransportBytes, TransportLength;
    var link, linkSeen := ParseLink(data);
    frame := Frame(linkSeen, V6(0, [], 0, [], []), 0, Other(0));
    if link.NoEthernet? { return NoFrame, frame; }
    if link.LinkUnsupported? { return Unsupported(link.mac), frame; }
    LinkInside(data, linkSeen);
    var net, netSeen, declared := ParseNet(data, link, packetLen);
    if net.NetUnsupported? { return Unsupported(link.mac), frame; }
    NetInside(data, link.offset, packetLen, netSeen, declared, net.protocol);
    var ports, transportSeen := ParseTransport(data, net.offset, net.transportLen, net.protocol);
    if ports.PortsUnsupported? { return Unsupported(link.mac), frame; }
    frame := Frame(linkSeen, netSeen, declared, transportSeen);
    r := Parsed(link.mac, Key(link.v6, net.protocol, ports.srcPort, ports.dstPort, net.source, net.destination), ports.offset);
  }

  lemma LinkInside(data: seq<Byte>, l: Link)
    requires LinkAt(data, l)
    ensures |LinkBytes(l)| <= |data|
  {
  }

  lemma NetInside(data: seq<Byte>, offset: nat, packetLen: nat, n: Net, declared: nat, protocol: Byte)
    requires NetAt(data, offset, packetLen, n, declared, protocol)
    ensures offset + HeaderLength(n) <= |data|
  {
  }
}
