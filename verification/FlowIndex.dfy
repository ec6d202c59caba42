/**
 * client-access-sfoctl: correlating flow records with conntrack entries through a chained hash index.
 *
 * Multi-byte fields are kept as the raw bytes both sides hash and compare.
 */
module FlowIndex {
  import opened Common

  const NIL := 0xFFFF_FFFF
  const AF_INET := 2
  const AF_INET6 := 10
  /** A flow key of the datapath; the address union is 32 bytes, of which IPv4 uses the first eight. */
  datatype FlowKey = FlowKey(subjectId: nat, ethProto: seq<Byte>, ipProto: Byte, srcPort: seq<Byte>, dstPort: seq<Byte>,
                             addr: seq<Byte>)

  predicate ValidKey(k: FlowKey) {
    |k.ethProto| == 2 && |k.srcPort| == 2 && |k.dstPort| == 2 && |k.addr| == 32
  }

  /** A conntrack entry; each attribute may be unset. */
  datatype Conntrack = Conntrack(
    l3: Option<nat>, l4: Option<Byte>, srcPort: Option<seq<Byte>>, dstPort: Option<seq<Byte>>,
    v4Src: Option<seq<Byte>>, v4Dst: Option<seq<Byte>>, v6Src: Option<seq<Byte>>, v6Dst: Option<seq<Byte>>,
    offloaded: bool, hwOffloaded: bool)

  predicate IsIpv4(k: FlowKey) {
    k.ethProto == [0x08, 0x00]
  }

  /** supported_flow */
  predicate SupportedFlow(k: FlowKey) {
    (IsIpv4(k) || k.ethProto == [0x86, 0xdd]) && (k.ipProto == IPPROTO_TCP || k.ipProto == IPPROTO_UDP)
  }

  predicate HasTuple(ct: Conntrack) {
    ct.l3.Some? && ct.l4.Some? && ct.srcPort.Some? && ct.dstPort.Some?
  }

  /** tuple_matches */
  predicate TupleMatches(k: FlowKey, ct: Conntrack)
    requires ValidKey(k)
  {
    && HasTuple(ct)
    && ct.l4.value == k.ipProto && ct.srcPort.value == k.srcPort && ct.dstPort.value == k.dstPort
    && (if IsIpv4(k) then
          && ct.l3.value == AF_INET && ct.v4Src.Some? && ct.v4Dst.Some?
          && ct.v4Src.value == k.addr[0..4] && ct.v4Dst.value == k.addr[4..8]
        else
          && ct.l3.value == AF_INET6 && ct.v6Src.Some? && ct.v6Dst.Some?
          && ct.v6Src.value == k.addr[0..16] && ct.v6Dst.value == k.addr[16..32])
  }

  /** supported_conntrack_tuple */
  predicate SupportedTuple(ct: Conntrack) {
    && HasTuple(ct)
    && (ct.l4.value == IPPROTO_TCP || ct.l4.value == IPPROTO_UDP)
    && (if ct.l3.value == AF_INET then ct.v4Src.Some? && ct.v4Dst.Some?
        else ct.l3.value == AF_INET6 && ct.v6Src.Some? && ct.v6Dst.Some?)
  }

  // ----- Hashing -----

  function XorBits(a: nat, b: nat, bits: nat): nat {
    if bits == 0 then 0 else 2 * XorBits(a / 2, b / 2, bits - 1) + if a % 2 == b % 2 then 0 else 1
  }

  /** One FNV-1a round: the byte is folded into the low eight bits, then the hash is multiplied modulo 2^32. */
  function Round(hash: nat, b: Byte): nat {
    ((hash - hash % 256 + XorBits(hash % 256, b, 8)) * 16777619) % 0x1_0000_0000
  }

  function HashBytes(hash: nat, bytes: seq<Byte>): nat {
    if bytes == [] then hash else Round(HashBytes(hash, bytes[..|bytes| - 1]), bytes[|bytes| - 1])
  }

  const SEED := 2166136261

  /** The bytes that identify a flow to both hash functions. */
  function TupleBytes(family: Byte, protocol: Byte, srcPort: seq<Byte>, dstPort: seq<Byte>, src: seq<Byte>,
                      dst: seq<Byte>): seq<Byte>
  {
    [family] + [protocol] + srcPort + dstPort + src + dst
  }

  function KeyBytes(k: FlowKey): seq<Byte>
    requires ValidKey(k)
  {
    if IsIpv4(k) then TupleBytes(4, k.ipProto, k.srcPort, k.dstPort, k.addr[0..4], k.addr[4..8])
    else TupleBytes(6, k.ipProto, k.srcPort, k.dstPort, k.addr[0..16], k.addr[16..32])
  }

  function ConntrackBytes(ct: Conntrack): seq<Byte>
    requires SupportedTuple(ct)
  {
    if ct.l3.value == AF_INET then
      TupleBytes(4, ct.l4.value, ct.srcPort.value, ct.dstPort.value, ct.v4Src.value, ct.v4Dst.value)
    else
      TupleBytes(6, ct.l4.value, ct.srcPort.value, ct.dstPort.value, ct.v6Src.value, ct.v6Dst.value)
  }

  /** Hashing field after field is hashing the fields joined. */
  lemma {:induction false} HashJoin(hash: nat, a: seq<Byte>, b: seq<Byte>)
    ensures HashBytes(hash, a + b) == HashBytes(HashBytes(hash, a), b)
  {
    if b == [] {
      assert a + b == a;
    } else {
      HashJoin(hash, a, b[..|b| - 1]);
      assert (a + b)[..|a + b| - 1] == a + b[..|b| - 1];
    }
  }

  /** Whatever a supported flow matches is a supported tuple that hashes the same bytes. */
  lemma MatchingTuplesHashAlike(k: FlowKey, ct: Conntrack)
    requires ValidKey(k) && SupportedFlow(k) && TupleMatches(k, ct)
    ensures SupportedTuple(ct) && ConntrackBytes(ct) == KeyBytes(k)
  {
  }

  /** hash_bytes */
  method HashField(hash: nat, bytes: seq<Byte>) returns (r: nat)
    ensures r == HashBytes(hash, bytes)
  {
    r := hash;
    for i := 0 to |bytes|
      invariant r == HashBytes(hash, bytes[..i])
    {
      assert bytes[..i + 1][..i] == bytes[..i];
      r := Round(r, bytes[i]);
    }
    assert bytes[..|bytes|] == bytes;
  }

  /** candidate_hash and conntrack_hash, field by field. */
  method HashFields(family: Byte, protocol: Byte, srcPort: seq<Byte>, dstPort: seq<Byte>, src: seq<Byte>,
                    dst: seq<Byte>) returns (r: nat)
    ensures r == HashBytes(SEED, TupleBytes(family, protocol, srcPort, dstPort, src, dst))
  {
    r := HashField(SEED, [family]);
    r := HashField(r, [protocol]);
    HashJoin(SEED, [family], [protocol]);
    r := HashField(r, srcPort);
    HashJoin(SEED, [family] + [protocol], srcPort);
    r := HashField(r, dstPort);
    HashJoin(SEED, [family] + [protocol] + srcPort, dstPort);
    r := HashField(r, src);
    HashJoin(SEED, [family] + [protocol] + srcPort + dstPort, src);
    r := HashField(r, dst);
    HashJoin(SEED, [family] + [protocol] + srcPort + dstPort + src, dst);
  }

  // ----- The chained index -----

  /** The bucket of some tuple bytes; the table size is a power of two, so its low bits are the remainder. */
  function Bucket(bytes: seq<Byte>, size: nat): (b: nat)
    requires size > 0
    ensures b < size
  {
    HashBytes(SEED, bytes) % size
  }

  ghost predicate PowerOfTwo(n: nat) {
    n == 1 || (n > 1 && n % 2 == 0 && PowerOfTwo(n / 2))
  }

  predicate Candidate(k: FlowKey) {
    ValidKey(k) && SupportedFlow(k)
  }

  /** A record of the flow map. */
  datatype Flow = Flow(key: FlowKey, classId: nat, lastSeenNs: nat)

  predicate AllCandidates(flows: seq<Flow>) {
    forall i :: 0 <= i < |flows| ==> Candidate(flows[i].key)
  }

  /** The bucket of every candidate. */
  function Buckets(flows: seq<Flow>, size: nat): (bs: seq<nat>)
    requires AllCandidates(flows) && size > 0
    ensures |bs| == |flows|
  {
    if flows == [] then []
    else
      var n := |flows| - 1;
      Buckets(flows[..n], size) + [Bucket(KeyBytes(flows[n].key), size)]
  }

  lemma {:induction false} BucketAt(flows: seq<Flow>, size: nat, i: nat)
    requires AllCandidates(flows) && size > 0 && i < |flows|
    ensures Buckets(flows, size)[i] == Bucket(KeyBytes(flows[i].key), size)
  {
    hide Bucket, KeyBytes;
    var n := |flows| - 1;
    if i < n { BucketAt(flows[..n], size, i); }
  }

  /** The newest of the first `n` candidates in bucket `b`, or NIL. */
  function Head(bs: seq<nat>, b: nat, n: nat): nat
    requires n <= |bs|
  {
    if n == 0 then NIL else if bs[n - 1] == b then n - 1 else Head(bs, b, n - 1)
  }

  lemma {:induction false} HeadIsNewest(bs: seq<nat>, b: nat, n: nat)
    requires n <= |bs| < NIL
    ensures var h := Head(bs, b, n);
            && (h != NIL ==> h < n && bs[h] == b)
            && (forall k :: 0 <= k < n && bs[k] == b ==> h != NIL && k <= h)
  {
    if n > 0 { HeadIsNewest(bs, b, n - 1); }
  }

  predicate Matches(flows: seq<Flow>, i: nat, ct: Conntrack)
    requires AllCandidates(flows) && i < |flows|
  {
    TupleMatches(flows[i].key, ct)
  }

  /** Some candidate matches the entry: what testing every candidate would find. */
  predicate MatchesAny(flows: seq<Flow>, ct: Conntrack)
    requires AllCandidates(flows)
  {
    exists i :: 0 <= i < |flows| && Matches(flows, i, ct)
  }

  /** A match is only ever found in the entry's own bucket. */
  lemma MatchesShareBucket(flows: seq<Flow>, size: nat, ct: Conntrack, i: nat)
    requires AllCandidates(flows) && size > 0 && i < |flows| && Matches(flows, i, ct)
    ensures SupportedTuple(ct) && Buckets(flows, size)[i] == Bucket(ConntrackBytes(ct), size)
  {
    MatchingTuplesHashAlike(flows[i].key, ct);
    BucketAt(flows, size, i);
  }

  /** Which candidates match; all of them lie in the entry's bucket. */
  ghost function Hits(flows: seq<Flow>, ct: Conntrack): (hits: seq<bool>)
    requires AllCandidates(flows)
    ensures |hits| == |flows| && forall k :: 0 <= k < |flows| ==> hits[k] == Matches(flows, k, ct)
  {
    seq(|flows|, k requires 0 <= k < |flows| => Matches(flows, k, ct))
  }

  lemma HitsShareBucket(flows: seq<Flow>, size: nat, ct: Conntrack)
    requires AllCandidates(flows) && size > 0
    ensures MatchesAny(flows, ct) == (true in Hits(flows, ct))
    ensures true in Hits(flows, ct) ==> SupportedTuple(ct)
    ensures SupportedTuple(ct) ==>
              forall k :: 0 <= k < |flows| && Hits(flows, ct)[k] ==>
                            Buckets(flows, size)[k] == Bucket(ConntrackBytes(ct), size)
  {
    var hits := Hits(flows, ct);
    forall k | 0 <= k < |flows| && hits[k]
      ensures SupportedTuple(ct) && Buckets(flows, size)[k] == Bucket(ConntrackBytes(ct), size)
    {
      MatchesShareBucket(flows, size, ct, k);
    }
  }

  /** The candidate set: records, chain links, bucket heads and presence flags, all written in place. */
  class Candidates {
    const items: array<Flow>
    const next: array<nat>
    const present: array<bool>
    var count: nat
    var heads: array<nat>

    ghost predicate Valid()
      reads this, items
    {
      && next.Length == items.Length == present.Length && count <= items.Length < NIL
      && AllCandidates(items[..count])
    }

    ghost function Flows(): (fs: seq<Flow>)
      requires Valid()
      reads this, items
      ensures AllCandidates(fs) && |fs| == count
    {
      items[..count]
    }

    /** Every bucket head and every link leads to the newest older candidate of its bucket. */
    ghost predicate Indexed()
      reads this, items, next, heads
      ensures Indexed() ==> Valid()
    {
      Valid() && PowerOfTwo(heads.Length) && Linked(Buckets(Flows(), heads.Length), count)
    }

    /** The first `n` candidates, with buckets `bs`, are linked in. */
    ghost predicate Linked(bs: seq<nat>, n: nat)
      reads this, next, heads
    {
      && heads != next && n <= |bs| && n <= next.Length
      && (forall b :: 0 <= b < heads.Length ==> heads[b] == Head(bs, b, n))
      && (forall i :: 0 <= i < n ==> next[i] == Head(bs, bs[i], i))
    }

    constructor (capacity: nat)
      requires capacity < NIL
      ensures Valid() && count == 0 && items.Length == capacity
      ensures fresh(items) && fresh(next) && fresh(present) && fresh(heads)
    {
      var zero := FlowKey(0, [0, 0], 0, [0, 0], [0, 0], seq(32, i => 0));
      items := new Flow[capacity](i => Flow(zero, 0, 0));
      next := new nat[capacity];
      present := new bool[capacity](i => false);
      heads := new nat[0];
      count := 0;
    }

    /** One record of the collection loop: kept unless the set is full. */
    method Append(flow: Flow) returns (ok: bool)
      requires Valid() && Candidate(flow.key)
      modifies this`count, items
      ensures Valid() && ok == (old(count) < items.Length)
      ensures Flows() == old(Flows()) + if ok then [flow] else []
    {
      ok := count < items.Length;
      if ok {
        items[count] := flow;
        count := count + 1;
        assert items[..count] == old(items[..count]) + [flow];
      }
    }

    method KeyBucket(i: nat, size: nat) returns (b: nat)
      requires Valid() && i < count && size > 0
      ensures b == Buckets(Flows(), size)[i] < size
    {
      var k := items[i].key;
      assert k == Flows()[i].key;
      BucketAt(Flows(), size, i);
      var hash;
      if IsIpv4(k) {
        hash := HashFields(4, k.ipProto, k.srcPort, k.dstPort, k.addr[0..4], k.addr[4..8]);
      } else {
        hash := HashFields(6, k.ipProto, k.srcPort, k.dstPort, k.addr[0..16], k.addr[16..32]);
      }
      b := hash % size;
    }

    method TableSize() returns (size: nat)
      ensures PowerOfTwo(size) && size >= items.Length * 2
    {
      size := 1;
      while size < items.Length * 2
        invariant PowerOfTwo(size)
        decreases items.Length * 2 - size
      {
        size := size * 2;
      }
    }

    /** One turn of the filling loop: the candidate becomes the head of its bucket. */
    method Link(i: nat, bucket: nat, ghost bs: seq<nat>)
      requires Linked(bs, i) && i < next.Length && i < |bs| && bs[i] == bucket < heads.Length
      modifies next, heads
      ensures Linked(bs, i + 1)
    {
      next[i] := heads[bucket];
      heads[bucket] := i;
    }

    /** The filling loop over a table whose buckets are all empty. */
    method LinkAll(size: nat)
      requires Valid() && 0 < size == heads.Length && heads != next && forall b :: 0 <= b < size ==> heads[b] == NIL
      modifies next, heads
      ensures Linked(Buckets(Flows(), size), count)
    {
      hide Buckets, Bucket, KeyBytes, AllCandidates;
      ghost var fs := Flows();
      var i := 0;
      while i < count
        invariant 0 <= i <= count && Linked(Buckets(fs, size), i)
      {
        var bucket := KeyBucket(i, size);
        Link(i, bucket, Buckets(fs, size));
        i := i + 1;
      }
    }

    /** index_candidates: a power-of-two table of at least twice the capacity, filled oldest first. */
    method Index()
      requires Valid()
      modifies this`heads, next
      ensures Indexed() && fresh(heads)
      ensures heads.Length >= items.Length * 2
    {
      hide Linked, Buckets, AllCandidates;
      var size := TableSize();
      heads := new nat[size](i => NIL);
      LinkAll(size);
    }

    method TupleBucket(ct: Conntrack, size: nat) returns (b: nat)
      requires SupportedTuple(ct) && size > 0
      ensures b == Bucket(ConntrackBytes(ct), size)
    {
      var hash;
      if ct.l3.value == AF_INET {
        hash := HashFields(4, ct.l4.value, ct.srcPort.value, ct.dstPort.value, ct.v4Src.value, ct.v4Dst.value);
      } else {
        hash := HashFields(6, ct.l4.value, ct.srcPort.value, ct.dstPort.value, ct.v6Src.value, ct.v6Dst.value);
      }
      b := hash % size;
    }

    /** The loop body of scan_cb for one candidate. */
    method Test(i: nat, ct: Conntrack) returns (hit: bool)
      requires Valid() && i < count
      modifies present
      ensures hit == Matches(Flows(), i, ct)
      ensures present[i] == (old(present[i]) || hit)
      ensures forall k :: 0 <= k < present.Length && k != i ==> present[k] == old(present[k])
    {
      assert items[i] == Flows()[i];
      hit := TupleMatches(items[i].key, ct);
      if hit { present[i] := true; }
    }

    /** Walking one chain finds exactly the matches among the candidates of its bucket. */
    method WalkChain(ct: Conntrack, bucket: nat, ghost bs: seq<nat>, ghost hits: seq<bool>) returns (matched: bool)
      requires Valid() && bucket < heads.Length && |hits| == |bs| == count && Linked(bs, count)
      requires forall k :: 0 <= k < count ==> hits[k] == Matches(Flows(), k, ct)
      requires forall k :: 0 <= k < count && hits[k] ==> bs[k] == bucket
      modifies present
      ensures matched == (true in hits)
      ensures forall k :: 0 <= k < count ==> present[k] == (old(present[k]) || hits[k])
    {
      ghost var m: nat := count;
      matched := false;
      var i := heads[bucket];
      HeadIsNewest(bs, bucket, m);
      while i != NIL
        invariant m <= count && i == Head(bs, bucket, m)
        invariant i != NIL ==> i < m && bs[i] == bucket
        invariant forall k :: 0 <= k < m && bs[k] == bucket ==> i != NIL && k <= i
        invariant forall k :: 0 <= k < m ==> present[k] == old(present[k])
        invariant forall k :: m <= k < count ==> present[k] == (old(present[k]) || hits[k])
        invariant matched == (true in hits[m..])
        decreases m
      {
        var hit := Test(i, ct);
        matched := matched || hit;
        forall k | i < k < m
          ensures !hits[k]
        {
        }
        StretchFound(hits, i, m);
        m := i;
        i := next[i];
        HeadIsNewest(bs, bucket, m);
      }
      forall k | 0 <= k < m
        ensures !hits[k]
      {
      }
    }

    /**
     * The matching part of scan_cb. One bucket chain sets the same presence flags and gives the same answer as
     * testing every candidate.
     */
    method Mark(ct: Conntrack) returns (matched: bool)
      requires Indexed()
      modifies present
      ensures matched == MatchesAny(Flows(), ct)
      ensures forall i :: 0 <= i < count ==> present[i] == (old(present[i]) || Matches(Flows(), i, ct))
    {
      ghost var fs := Flows();
      HitsShareBucket(fs, heads.Length, ct);
      matched := false;
      if count > 0 && SupportedTuple(ct) {
        var bucket := TupleBucket(ct, heads.Length);
        matched := WalkChain(ct, bucket, Buckets(fs, heads.Length), Hits(fs, ct));
      }
    }
  }

  /** A stretch of misses below one tested position adds only that position's result. */
  lemma StretchFound(hits: seq<bool>, i: nat, m: nat)
    requires i < m <= |hits| && forall k :: i < k < m ==> !hits[k]
    ensures (true in hits[i..]) == (hits[i] || true in hits[m..])
  {
  }
}
