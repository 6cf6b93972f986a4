/**
 * The four families of deterministic transfer IDs. The program hashes a byte string and keeps
 * sixteen bytes of it; with a hash that does not collide and is never zero, an ID is as good as
 * the event it was derived from, which is how the rest of the model uses it.
 */
module TransferIds {
  import opened Domain

  datatype TransferId =
    | UsageId(cluster: Uuid, seqNo: nat, ledger: Resource)
    | AllocationId(tenant: Uuid, seqNo: nat, ledger: Resource)
    | GaugePendingId(tenant: Uuid, seqNo: nat, cluster: Uuid, ledger: Resource)
    | GaugeVoidId(tenant: Uuid, seqNo: nat, cluster: Uuid, ledger: Resource)
  {
    /** What the program's types guarantee: 16-byte UUIDs and a 64-bit sequence number. */
    predicate Valid() {
      && seqNo < TWO_64
      && match this
         case UsageId(c, _, _) => c.Valid()
         case AllocationId(t, _, _) => t.Valid()
         case GaugePendingId(t, _, c, _) => t.Valid() && c.Valid()
         case GaugeVoidId(t, _, c, _) => t.Valid() && c.Valid()
    }
  }

  /** Little-endian encoding in a fixed number of bytes. */
  function LittleEndian(n: nat, width: nat): (bs: seq<byte>)
    ensures |bs| == width
  {
    if width == 0 then [] else [n % 256] + LittleEndian(n / 256, width - 1)
  }

  function FromLittleEndian(bs: seq<byte>): nat {
    if bs == [] then 0 else bs[0] + 256 * FromLittleEndian(bs[1..])
  }

  function Power256(width: nat): nat {
    if width == 0 then 1 else 256 * Power256(width - 1)
  }

  lemma {:induction false} LittleEndianRoundTrip(n: nat, width: nat)
    requires n < Power256(width)
    ensures FromLittleEndian(LittleEndian(n, width)) == n
  {
    if width > 0 {
      LittleEndianRoundTrip(n / 256, width - 1);
      assert LittleEndian(n, width)[1..] == LittleEndian(n / 256, width - 1);
    }
  }

  // ASCII of the domain separators.
  const ALLOC: seq<byte> := [97, 108, 108, 111, 99]                                          // "alloc"
  const GAUGE_PENDING: seq<byte> := [103, 97, 117, 103, 101, 45, 112, 101, 110, 100, 105, 110, 103] // "gauge-pending"
  const GAUGE_VOID: seq<byte> := [103, 97, 117, 103, 101, 45, 118, 111, 105, 100]            // "gauge-void"

  /** The bytes written to the hasher, in writing order. */
  function Preimage(id: TransferId): seq<byte> {
    match id
    case UsageId(c, n, r) => c.bytes + LittleEndian(n, 8) + LittleEndian(r.LedgerId(), 4)
    case AllocationId(t, n, r) => ALLOC + t.bytes + LittleEndian(n, 8) + LittleEndian(r.LedgerId(), 4)
    case GaugePendingId(t, n, c, r) =>
      GAUGE_PENDING + t.bytes + LittleEndian(n, 8) + c.bytes + LittleEndian(r.LedgerId(), 4)
    case GaugeVoidId(t, n, c, r) =>
      GAUGE_VOID + t.bytes + LittleEndian(n, 8) + c.bytes + LittleEndian(r.LedgerId(), 4)
  }

  function ResourceFromLedger(n: nat): Option<Resource> {
    if n == 1 then Some(CpuHours)
    else if n == 2 then Some(MemoryGBHours)
    else if n == 3 then Some(ActiveNodes)
    else None
  }

  function ParseUsage(bs: seq<byte>, r: Resource): TransferId
    requires |bs| == 28
  {
    UsageId(Uuid(bs[..16]), FromLittleEndian(bs[16..24]), r)
  }

  function ParseAllocation(bs: seq<byte>, r: Resource): TransferId
    requires |bs| == 33
  {
    AllocationId(Uuid(bs[5..21]), FromLittleEndian(bs[21..29]), r)
  }

  function ParseGaugePending(bs: seq<byte>, r: Resource): TransferId
    requires |bs| == 57
  {
    GaugePendingId(Uuid(bs[13..29]), FromLittleEndian(bs[29..37]), Uuid(bs[37..53]), r)
  }

  function ParseGaugeVoid(bs: seq<byte>, r: Resource): TransferId
    requires |bs| == 54
  {
    GaugeVoidId(Uuid(bs[10..26]), FromLittleEndian(bs[26..34]), Uuid(bs[34..50]), r)
  }

  predicate Begins(bs: seq<byte>, text: string) {
    |text| <= |bs| && forall i :: 0 <= i < |text| ==> bs[i] == text[i] as int
  }

  /** Reads an event back from a preimage; lengths and domain separators tell the families apart. */
  function Parse(bs: seq<byte>): Option<TransferId> {
    if |bs| < 4 then None
    else
      match ResourceFromLedger(FromLittleEndian(bs[|bs| - 4..]))
      case None => None
      case Some(r) =>
        if |bs| == 28 then Some(ParseUsage(bs, r))
        else if |bs| == 33 && Begins(bs, "alloc") then Some(ParseAllocation(bs, r))
        else if |bs| == 57 && Begins(bs, "gauge-pending") then Some(ParseGaugePending(bs, r))
        else if |bs| == 54 && Begins(bs, "gauge-void") then Some(ParseGaugeVoid(bs, r))
        else None
  }

  lemma {:induction false} FieldWidths(n: nat, r: Resource)
    requires n < TWO_64
    ensures FromLittleEndian(LittleEndian(n, 8)) == n
    ensures FromLittleEndian(LittleEndian(r.LedgerId(), 4)) == r.LedgerId()
    ensures ResourceFromLedger(r.LedgerId()) == Some(r)
  {
    assert Power256(4) == 0x1_0000_0000 && Power256(8) == TWO_64 by {
      assert Power256(2) == 0x1_0000;
      assert Power256(4) == 0x1_0000_0000;
      assert Power256(6) == 0x1_0000_0000_0000;
    }
    LittleEndianRoundTrip(n, 8);
    LittleEndianRoundTrip(r.LedgerId(), 4);
  }

  /** The parts of a layout, read back by their lengths. */
  lemma {:induction false} PartsOf(p: seq<byte>, a: seq<byte>, b: seq<byte>, c: seq<byte>, d: seq<byte>)
    ensures var bs, i, j, k := p + a + b + c + d, |p| + |a|, |p| + |a| + |b|, |p| + |a| + |b| + |c|;
            bs[..|p|] == p && bs[|p|..i] == a && bs[i..j] == b && bs[j..k] == c && bs[k..] == d
  {
  }

  lemma {:induction false} BeginsWithPart(bs: seq<byte>, p: seq<byte>, text: string)
    requires |p| == |text| <= |bs| && bs[..|p|] == p && forall i :: 0 <= i < |text| ==> p[i] == text[i] as int
    ensures Begins(bs, text)
  {
    forall i | 0 <= i < |text| ensures bs[i] == text[i] as int {
      assert bs[i] == bs[..|p|][i];
    }
  }

  lemma {:induction false} UsageRoundTrip(c: Uuid, n: nat, r: Resource)
    requires c.Valid() && n < TWO_64
    ensures Parse(Preimage(UsageId(c, n, r))) == Some(UsageId(c, n, r))
  {
    FieldWidths(n, r);
    PartsOf([], c.bytes, LittleEndian(n, 8), [], LittleEndian(r.LedgerId(), 4));
    var bs := Preimage(UsageId(c, n, r));
    assert bs == [] + c.bytes + LittleEndian(n, 8) + [] + LittleEndian(r.LedgerId(), 4);
  }

  lemma {:induction false} AllocationRoundTrip(t: Uuid, n: nat, r: Resource)
    requires t.Valid() && n < TWO_64
    ensures Parse(Preimage(AllocationId(t, n, r))) == Some(AllocationId(t, n, r))
  {
    FieldWidths(n, r);
    PartsOf(ALLOC, t.bytes, LittleEndian(n, 8), [], LittleEndian(r.LedgerId(), 4));
    var bs := Preimage(AllocationId(t, n, r));
    assert bs == ALLOC + t.bytes + LittleEndian(n, 8) + [] + LittleEndian(r.LedgerId(), 4);
    BeginsWithPart(bs, ALLOC, "alloc");
  }

  lemma {:induction false} GaugePendingRoundTrip(t: Uuid, n: nat, c: Uuid, r: Resource)
    requires t.Valid() && c.Valid() && n < TWO_64
    ensures Parse(Preimage(GaugePendingId(t, n, c, r))) == Some(GaugePendingId(t, n, c, r))
  {
    FieldWidths(n, r);
    PartsOf(GAUGE_PENDING, t.bytes, LittleEndian(n, 8), c.bytes, LittleEndian(r.LedgerId(), 4));
    BeginsWithPart(Preimage(GaugePendingId(t, n, c, r)), GAUGE_PENDING, "gauge-pending");
  }

  lemma {:induction false} GaugeVoidRoundTrip(t: Uuid, n: nat, c: Uuid, r: Resource)
    requires t.Valid() && c.Valid() && n < TWO_64
    ensures Parse(Preimage(GaugeVoidId(t, n, c, r))) == Some(GaugeVoidId(t, n, c, r))
  {
    FieldWidths(n, r);
    PartsOf(GAUGE_VOID, t.bytes, LittleEndian(n, 8), c.bytes, LittleEndian(r.LedgerId(), 4));
    BeginsWithPart(Preimage(GaugeVoidId(t, n, c, r)), GAUGE_VOID, "gauge-void");
  }

  /** The layout loses nothing: every event can be read back from the bytes that are hashed. */
  lemma {:induction false} PreimageRoundTrip(id: TransferId)
    requires id.Valid()
    ensures Parse(Preimage(id)) == Some(id)
  {
    match id {
      case UsageId(c, n, r) => UsageRoundTrip(c, n, r);
      case AllocationId(t, n, r) => AllocationRoundTrip(t, n, r);
      case GaugePendingId(t, n, c, r) => GaugePendingRoundTrip(t, n, c, r);
      case GaugeVoidId(t, n, c, r) => GaugeVoidRoundTrip(t, n, c, r);
    }
  }

  /** No two accounting events, of the same or of different families, hash the same bytes. */
  lemma {:induction false} PreimageInjective(a: TransferId, b: TransferId)
    requires a.Valid() && b.Valid()
    ensures Preimage(a) == Preimage(b) <==> a == b
  {
    PreimageRoundTrip(a);
    PreimageRoundTrip(b);
  }
}
