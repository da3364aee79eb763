/** checkBlockedIP of internal/metrics/scraper.go: which addresses a scrape may not reach. */
module AddressGuard {
  import opened Helpers

  const P16 := 0x1_0000
  const P24 := 0x100_0000
  const P32 := 0x1_0000_0000
  const P96 := P32 * P32 * P32
  const P112 := P96 * P16
  const P118 := P112 * 64
  const P128 := P112 * P16

  /** An address as an unsigned number of 32 or 128 bits. */
  datatype Address = V4(bits: nat) | V6(bits: nat, zone: string)

  predicate Proper(a: Address) { if a.V4? then a.bits < P32 else a.bits < P128 }

  /** A network is its base address and its size, a power of two; membership compares the
      bits above the size, as masking does. */
  datatype Network = Net4(base: nat, size: nat) | Net6(base: nat, size: nat)

  const MAPPED := 0xffff * P32
  const NAT64 := 0x64ff9b * P96
  const COMPATIBLE := 0

  /** The 128-bit prefixes that carry an IPv4 address: NAT64 and IPv4-compatible. */
  const EMBEDDED: seq<nat> := [NAT64, COMPATIBLE]

  const LOOPBACK6 := Net6(1, 1)
  const UNSPECIFIED6 := Net6(0, 1)

  const BLOCKED: seq<Network> :=
    [Net4(0, P24),                        // 0.0.0.0/8
     Net4(0x7f00_0000, P24),              // 127.0.0.0/8
     LOOPBACK6,                           // ::1/128
     UNSPECIFIED6,                        // ::/128
     Net4(0xa9fe_0000, P16),              // 169.254.0.0/16
     Net6(0xfe80 * P112, P118),           // fe80::/10
     Net6(0xfd00_0ec2 * P96 + 0x254, 1)]  // fd00:ec2::254/128

  predicate Contains(n: Network, a: Address)
    requires n.size > 0
  {
    (n.Net4? <==> a.V4?) && a.bits / n.size == n.base / n.size
  }

  function Unmap(a: Address): Address {
    if a.V6? && a.bits / P32 == MAPPED / P32 then V4(a.bits % P32) else a
  }

  /** The address looked up: no zone, and IPv4 taken out of whatever IPv6 form carries it. */
  function Carried(a: Address): Address {
    var u := Unmap(if a.V6? then a.(zone := "") else a);
    if u.V6? && exists p | p in EMBEDDED :: u.bits / P32 == p / P32 then V4(u.bits % P32) else u
  }

  predicate AllSized(table: seq<Network>) { forall i | 0 <= i < |table| :: table[i].size > 0 }

  predicate InTable(table: seq<Network>, a: Address)
    requires AllSized(table)
  {
    exists i :: 0 <= i < |table| && Contains(table[i], a)
  }

  /** checkBlockedIP on the parsed host; a host that is no address literal passes. */
  method CheckBlockedIP(host: Option<Address>) returns (blocked: bool)
    ensures blocked <==> host.Some? && InTable(BLOCKED, Carried(host.value))
  {
    if host.None? { return false; }
    var addr := host.value;
    if addr.V6? { addr := addr.(zone := ""); }
    addr := Unmap(addr);
    ghost var unmapped := addr;
    for i := 0 to |EMBEDDED|
      invariant addr == unmapped
      invariant forall k | 0 <= k < i :: !(addr.V6? && addr.bits / P32 == EMBEDDED[k] / P32)
    {
      if addr.V6? && addr.bits / P32 == EMBEDDED[i] / P32 {
        addr := V4(addr.bits % P32);
        assert EMBEDDED[i] in EMBEDDED;
        break;
      }
    }
    assert addr == Carried(host.value);
    for i := 0 to |BLOCKED|
      invariant forall k | 0 <= k < i :: !Contains(BLOCKED[k], addr)
    {
      if Contains(BLOCKED[i], addr) { return true; }
    }
    return false;
  }

  predicate Forbidden(a: Address) { InTable(BLOCKED, Carried(a)) }

  // ---- Which addresses those are ----

  predicate Forbidden4(x: int) {
    0 <= x < 0x0100_0000 || 0x7f00_0000 <= x < 0x8000_0000 || 0xa9fe_0000 <= x < 0xa9ff_0000
  }

  lemma TableIs(a: Address)
    requires Proper(a)
    ensures InTable(BLOCKED, a) <==>
      if a.V4? then Forbidden4(a.bits)
      else a.bits <= 1 || 0xfe80 * P112 <= a.bits < 0xfec0 * P112 || a.bits == 0xfd00_0ec2 * P96 + 0x254
  {
    assert InTable(BLOCKED, a) <==>
      (Contains(BLOCKED[0], a) || Contains(BLOCKED[1], a) || Contains(BLOCKED[2], a) || Contains(BLOCKED[3], a)
       || Contains(BLOCKED[4], a) || Contains(BLOCKED[5], a) || Contains(BLOCKED[6], a));
  }

  lemma EmbeddedIs(u: Address)
    ensures (exists p | p in EMBEDDED :: u.bits / P32 == p / P32) <==>
      (u.bits / P32 == NAT64 / P32 || u.bits / P32 == COMPATIBLE / P32)
  {
    assert EMBEDDED[0] == NAT64 && EMBEDDED[1] == COMPATIBLE;
    assert NAT64 in EMBEDDED && COMPATIBLE in EMBEDDED;
  }

  lemma CarriedIs(x: nat, zone: string)
    requires x < P128
    ensures Carried(V6(x, zone)) ==
      if 0 <= x - MAPPED < P32 then V4(x - MAPPED)
      else if 0 <= x - NAT64 < P32 then V4(x - NAT64)
      else if x < P32 then V4(x)
      else V6(x, "")
  {
    EmbeddedIs(V6(x, ""));
    EmbeddedIs(Unmap(V6(x, "")));
  }

  /** In IPv6 the classifier is membership in one union of 128-bit ranges: the three IPv4
      ranges in each of the three embeddings, fe80::/10 and fd00:ec2::254. */
  lemma ForbiddenRanges(x: nat, zone: string)
    requires x < P128
    ensures Forbidden(V6(x, zone)) <==>
      // ::/96, ::ffff:0:0/96 and 64:ff9b::/96
      || Forbidden4(x) || Forbidden4(x - 0xffff_0000_0000) || Forbidden4(x - 0x0064_ff9b_0000_0000_0000_0000_0000_0000)
      // fe80::/10
      || 0xfe80_0000_0000_0000_0000_0000_0000_0000 <= x < 0xfec0_0000_0000_0000_0000_0000_0000_0000
      || x == 0xfd00_0ec2_0000_0000_0000_0000_0000_0254
  {
    CarriedIs(x, zone);
    TableIs(Carried(V6(x, zone)));
  }

  lemma EmbeddingIs(x: nat, base: nat, zone: string)
    requires x < P32 && (base == MAPPED || base == COMPATIBLE || base == NAT64)
    ensures Carried(V6(base + x, zone)) == V4(x)
  {
    assert (base + x) / P32 == base / P32 && (base + x) % P32 == x;
    EmbeddedIs(Unmap(V6(base + x, "")));
  }

  /** An IPv4 address and its mapped, compatible (section 2.5.5 of RFC 4291) and NAT64
      (section 2.1 of RFC 6052) forms get one verdict. */
  lemma EmbeddingsAgree(x: nat, zone: string)
    requires x < P32
    ensures Forbidden(V4(x)) <==> Forbidden4(x)
    ensures Forbidden(V6(MAPPED + x, zone)) <==> Forbidden(V4(x))
    ensures Forbidden(V6(COMPATIBLE + x, zone)) <==> Forbidden(V4(x))
    ensures Forbidden(V6(NAT64 + x, zone)) <==> Forbidden(V4(x))
  {
    TableIs(V4(x));
    assert Carried(V4(x)) == V4(x);
    EmbeddingIs(x, MAPPED, zone);
    EmbeddingIs(x, COMPATIBLE, zone);
    EmbeddingIs(x, NAT64, zone);
  }

  /** The table without its entries for ::1 and ::. */
  const WITHOUT_LOCAL6: seq<Network> := [BLOCKED[0], BLOCKED[1], BLOCKED[4], BLOCKED[5], BLOCKED[6]]

  /** Those two entries are redundant: both addresses are looked up as IPv4. */
  lemma Local6EntriesAreRedundant(a: Address)
    requires Proper(a)
    ensures InTable(WITHOUT_LOCAL6, Carried(a)) <==> Forbidden(a)
  {
    var c := Carried(a);
    if a.V6? { EmbeddedIs(Unmap(V6(a.bits, ""))); }
    assert c.V6? ==> c.bits > 1;
    assert WITHOUT_LOCAL6[0] == BLOCKED[0] && WITHOUT_LOCAL6[1] == BLOCKED[1] && WITHOUT_LOCAL6[2] == BLOCKED[4]
      && WITHOUT_LOCAL6[3] == BLOCKED[5] && WITHOUT_LOCAL6[4] == BLOCKED[6];
    if i :| 0 <= i < |BLOCKED| && Contains(BLOCKED[i], c) {
      assert i != 2 && i != 3;
      assert Contains(WITHOUT_LOCAL6[if i < 2 then i else i - 2], c);
    }
  }
}
