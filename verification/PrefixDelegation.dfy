// IPv6 prefix delegation: the /64 subnets that downstream interfaces get out of
// a delegated prefix (src/dros/plugins/network_ipv6pd.py:194-246, 274-316 and
// 531-537; prefix delegation as in section 6.3 of RFC 8415).
module PrefixDelegation {
  import opened Wrappers
  import opened Sequences

  datatype Downstream = Downstream(iface: string, subnetId: int, prefixLength: int, delegated: bool)

  // prefixLengthHint is 60 unless the object says otherwise; null is None.
  datatype Config = Config(prefixLengthHint: Option<int>, delegatedPrefixLength: Option<int>, downstream: seq<Downstream>)

  // _delegated_prefix_length
  function DelegatedLength(c: Config): int {
    if c.delegatedPrefixLength.Some? then c.delegatedPrefixLength.value
    else if c.prefixLengthHint.Some? then c.prefixLengthHint.value
    else 60
  }

  // The length that was delegated goes before the one that is asked for; 60 is
  // expected when neither is known.
  lemma DelegatedLengthIs(hint: int, length: int, ds: seq<Downstream>)
    ensures DelegatedLength(Config(Some(hint), Some(length), ds)) == length
    ensures DelegatedLength(Config(None, Some(length), ds)) == length
    ensures DelegatedLength(Config(Some(hint), None, ds)) == hint
    ensures DelegatedLength(Config(None, None, ds)) == 60
  {
  }

  function Pow2(n: nat): (p: nat)
    ensures p > 0
  {
    if n == 0 then 1 else 2 * Pow2(n - 1)
  }

  // --------------------------------------------------------------- validation

  datatype ConfigError = HintRange | LengthRange | NotSlash64(index: nat) | NegativeSubnet(index: nat) | SubnetTooBig(index: nat)

  predicate LengthOk(length: Option<int>) {
    length.Some? ==> 1 <= length.value <= 64
  }

  predicate DownstreamOk(d: Downstream, length: int) {
    && d.prefixLength == 64 && d.subnetId >= 0
    && (d.delegated && length <= 64 ==> d.subnetId < Pow2(64 - length))
  }

  predicate Valid(c: Config) {
    && LengthOk(c.prefixLengthHint) && LengthOk(c.delegatedPrefixLength)
    && forall i :: 0 <= i < |c.downstream| ==> DownstreamOk(c.downstream[i], DelegatedLength(c))
  }

  lemma ValidIff(c: Config)
    ensures Valid(c) <==>
              && (c.prefixLengthHint.Some? ==> 1 <= c.prefixLengthHint.value <= 64)
              && (c.delegatedPrefixLength.Some? ==> 1 <= c.delegatedPrefixLength.value <= 64)
              && 1 <= DelegatedLength(c) <= 64
              && forall d :: d in c.downstream ==>
                   d.prefixLength == 64 && 0 <= d.subnetId && (d.delegated ==> d.subnetId < Pow2(64 - DelegatedLength(c)))
  {
    hide Pow2;
    var ds := c.downstream;
    assert forall i :: 0 <= i < |ds| ==> ds[i] in ds;
    assert forall d :: d in ds ==> exists i :: 0 <= i < |ds| && ds[i] == d;
  }

  // _validate_downstream, as far as it is about numbers
  method ValidateDownstream(d: Downstream, index: nat, length: int, errors: seq<ConfigError>) returns (more: seq<ConfigError>)
    ensures errors <= more && (more == errors <==> DownstreamOk(d, length))
  {
    more := errors;
    if d.prefixLength != 64 {
      more := more + [NotSlash64(index)];
    }
    if d.subnetId < 0 {
      more := more + [NegativeSubnet(index)];
    } else if d.delegated && length <= d.prefixLength {
      var maxSubnet := Pow2(d.prefixLength - length) - 1;
      if d.subnetId > maxSubnet {
        more := more + [SubnetTooBig(index)];
      }
    }
  }

  // _validate_config, as far as it is about numbers
  method ValidateConfig(c: Config) returns (errors: seq<ConfigError>)
    ensures errors == [] <==> Valid(c)
  {
    hide DownstreamOk;
    errors := [];
    if !LengthOk(c.prefixLengthHint) {
      errors := errors + [HintRange];
    }
    if !LengthOk(c.delegatedPrefixLength) {
      errors := errors + [LengthRange];
    }
    var length := DelegatedLength(c);
    for i := 0 to |c.downstream|
      invariant errors == [] <==>
        && LengthOk(c.prefixLengthHint) && LengthOk(c.delegatedPrefixLength)
        && forall k :: 0 <= k < i ==> DownstreamOk(c.downstream[k], length)
    {
      errors := ValidateDownstream(c.downstream[i], i, length, errors);
    }
  }

  // -------------------------------------------------------- generated blocks

  // A prefix-interface block of dhcp6c.conf.
  datatype Block = Block(iface: string, slaId: int, slaLen: nat)

  function IsDelegated(d: Downstream): bool {
    d.delegated
  }

  function BlockOf(d: Downstream, length: int): Block {
    Block(d.iface, d.subnetId, if d.prefixLength > length then d.prefixLength - length else 0)
  }

  function Blocks(ds: seq<Downstream>, length: int): seq<Block> {
    if ds == [] then [] else Blocks(ds[..|ds| - 1], length) + [BlockOf(ds[|ds| - 1], length)]
  }

  // The loop of _render_dhcp6c_conf.
  method RenderBlocks(c: Config) returns (blocks: seq<Block>)
    ensures blocks == Blocks(Filter(c.downstream, IsDelegated), DelegatedLength(c))
  {
    blocks := [];
    var length := DelegatedLength(c);
    for i := 0 to |c.downstream|
      invariant blocks == Blocks(Filter(c.downstream[..i], IsDelegated), length)
    {
      var d := c.downstream[i];
      FilterNext(c.downstream, i, IsDelegated);
      ghost var before := Filter(c.downstream[..i], IsDelegated);
      if d.delegated {
        assert (before + [d])[..|before|] == before;
        blocks := blocks + [BlockOf(d, length)];
      } else {
        assert before + [] == before;
      }
    }
    assert c.downstream[..|c.downstream|] == c.downstream;
  }

  // ---------------------------------------------------------------- addresses

  const BITS := 128

  // How many addresses a prefix of the length has.
  function Size(length: nat): nat
    requires length <= BITS
  {
    Pow2(BITS - length)
  }

  // A prefix is its leading bits, read as a number, and how many they are.
  datatype Prefix = Prefix(bits: nat, length: nat)

  predicate IsPrefix(p: Prefix) {
    p.length <= BITS && p.bits < Pow2(p.length)
  }

  function Start(p: Prefix): nat
    requires p.length <= BITS
  {
    p.bits * Size(p.length)
  }

  predicate Has(p: Prefix, address: int)
    requires p.length <= BITS
  {
    Start(p) <= address < Start(p) + Size(p.length)
  }

  // What the client makes of a block and a delegated prefix: it adds the subnet
  // id at the place of the slaLen bits that follow the prefix.
  function Subnet(p: Prefix, b: Block): Prefix
    requires p.length + b.slaLen <= BITS && b.slaId >= 0
  {
    Prefix(p.bits * Pow2(b.slaLen) + b.slaId, p.length + b.slaLen)
  }

  lemma {:induction false} Pow2Sum(a: nat, b: nat)
    ensures Pow2(a + b) == Pow2(a) * Pow2(b)
  {
    if a > 0 {
      Pow2Sum(a - 1, b);
    }
  }

  lemma Distribute(a: nat, b: nat, s: nat)
    ensures (a + b) * s == a * s + b * s && b * s >= 0
  {
  }

  // Of the blocks of size s, the k-th ends within the first m if and only if k < m.
  lemma PlaceFits(k: nat, m: nat, s: nat)
    requires s > 0
    ensures k * s + s <= m * s <==> k < m
  {
    Distribute(k, 1, s);
    if k < m {
      Distribute(k + 1, m - k - 1, s);
    } else {
      Distribute(m, k - m, s);
    }
  }

  ghost predicate InsidePrefix(q: Prefix, p: Prefix)
    requires q.length <= BITS && p.length <= BITS
  {
    forall a :: Has(q, a) ==> Has(p, a)
  }

  // A prefix that starts at an offset inside another one.
  lemma RangeInside(p: Prefix, q: Prefix, offset: nat)
    requires p.length <= BITS && q.length <= BITS && Start(q) == Start(p) + offset && Size(q.length) > 0
    ensures InsidePrefix(q, p) <==> offset + Size(q.length) <= Size(p.length)
  {
    hide Size, Start;
    if offset + Size(q.length) > Size(p.length) {
      var last := Start(q) + Size(q.length) - 1;
      assert Has(q, last) && !Has(p, last);
    }
  }

  // Where a subnet starts, and how many of its size the prefix holds.
  lemma SubnetPlace(p: Prefix, b: Block)
    requires p.length + b.slaLen <= BITS && b.slaId >= 0
    ensures Size(p.length + b.slaLen) > 0 && Size(p.length) == Pow2(b.slaLen) * Size(p.length + b.slaLen)
    ensures Start(Subnet(p, b)) == Start(p) + b.slaId * Size(p.length + b.slaLen)
  {
    hide Pow2;
    var m, s := Pow2(b.slaLen), Size(p.length + b.slaLen);
    assert BITS - p.length == b.slaLen + (BITS - (p.length + b.slaLen));
    Pow2Sum(b.slaLen, BITS - (p.length + b.slaLen));
    Distribute(p.bits * m, b.slaId, s);
    assert (p.bits * m) * s == p.bits * (m * s);
  }

  // A subnet id lies inside the delegated prefix, and makes a prefix there, if
  // and only if it passes the validation for that prefix length.
  lemma InsideIffValid(p: Prefix, b: Block)
    requires IsPrefix(p) && p.length + b.slaLen <= BITS && b.slaId >= 0
    ensures b.slaId < Pow2(b.slaLen) <==> InsidePrefix(Subnet(p, b), p)
    ensures b.slaId < Pow2(b.slaLen) ==> IsPrefix(Subnet(p, b))
  {
    hide Pow2, Size, Start, InsidePrefix;
    var m, s, q := Pow2(b.slaLen), Size(p.length + b.slaLen), Subnet(p, b);
    SubnetPlace(p, b);
    PlaceFits(b.slaId, m, s);
    RangeInside(p, q, b.slaId * s);
    Pow2Sum(p.length, b.slaLen);
    PlaceFits(p.bits, Pow2(p.length), m);
  }

  // Two subnets of a prefix share no address if and only if their ids differ.
  lemma DisjointIffDifferent(p: Prefix, a: Block, b: Block)
    requires p.length + a.slaLen <= BITS && a.slaLen == b.slaLen && a.slaId >= 0 && b.slaId >= 0
    ensures a.slaId != b.slaId <==> forall x :: !(Has(Subnet(p, a), x) && Has(Subnet(p, b), x))
  {
    hide Pow2, Size, Start;
    var s := Size(p.length + a.slaLen);
    SubnetPlace(p, a);
    SubnetPlace(p, b);
    if a.slaId == b.slaId {
      assert Has(Subnet(p, a), Start(Subnet(p, a)));
    } else {
      PlaceFits(a.slaId, b.slaId, s);
      PlaceFits(b.slaId, a.slaId, s);
    }
  }

  // Every block of a validated configuration comes from a delegated downstream
  // and splits its /64 as the prefix length says.
  lemma {:induction false} BlockAt(ds: seq<Downstream>, length: int, i: nat)
    requires i < |ds|
    ensures |Blocks(ds, length)| == |ds| && Blocks(ds, length)[i] == BlockOf(ds[i], length)
  {
    if i < |ds| - 1 {
      BlockAt(ds[..|ds| - 1], length, i);
    } else if |ds| > 1 {
      BlockAt(ds[..|ds| - 1], length, 0);
    }
  }

  // For every validated configuration and every delegated prefix of the length
  // it expects, each block yields a proper /64 inside the prefix, and the blocks
  // of different subnet ids yield disjoint ones.
  lemma SubnetsFit(c: Config, p: Prefix, i: nat, j: nat)
    requires Valid(c) && IsPrefix(p) && p.length == DelegatedLength(c)
    requires i < |Filter(c.downstream, IsDelegated)| && j < |Filter(c.downstream, IsDelegated)|
    ensures var ds, blocks := Filter(c.downstream, IsDelegated), Blocks(Filter(c.downstream, IsDelegated), DelegatedLength(c));
            && |blocks| == |ds| && blocks[i].iface == ds[i].iface && blocks[i].slaId == ds[i].subnetId
            && p.length + blocks[i].slaLen == 64 == p.length + blocks[j].slaLen
            && 0 <= blocks[i].slaId < Pow2(blocks[i].slaLen) && blocks[j].slaId >= 0
            && IsPrefix(Subnet(p, blocks[i])) && InsidePrefix(Subnet(p, blocks[i]), p)
            && (ds[i].subnetId != ds[j].subnetId
                <==> forall x :: !(Has(Subnet(p, blocks[i]), x) && Has(Subnet(p, blocks[j]), x)))
  {
    hide Pow2, IsPrefix, Subnet, InsidePrefix, Has;
    var ds, length := Filter(c.downstream, IsDelegated), DelegatedLength(c);
    var blocks := Blocks(ds, length);
    BlockAt(ds, length, i);
    BlockAt(ds, length, j);
    FilterMember(c.downstream, IsDelegated, ds[i]);
    FilterMember(c.downstream, IsDelegated, ds[j]);
    assert 1 <= length <= 64;
    InsideIffValid(p, blocks[i]);
    DisjointIffDifferent(p, blocks[i], blocks[j]);
  }
}
