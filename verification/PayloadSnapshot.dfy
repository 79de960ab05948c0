/**
 * Canonical payload snapshots and their reclaim previews
 * (bench/continuation_object_payload_store.py). The tenant scope is that of the store grant.
 */
module PayloadSnapshot {
  import opened Bytes
  import opened Outbox
  import opened ObjectStore
  import opened ObjectStoreReclaim

  const PAYLOAD_MAGIC := Ascii("GLPAY01\0")
  const SCHEMA_VERSION := 1
  const PAYLOAD_HEADER_BYTES := 64
  const ENTRY_HEADER_BYTES := 40
  const MINIMUM_BYTES := 96
  const DEFAULT_CAPACITY := 16

  const PAYLOAD_BODY_DOMAIN := Ascii("glacier-continuation-object-payload-store-body-v1\0")
  const PAYLOAD_SNAPSHOT_DOMAIN := Ascii("glacier-continuation-object-payload-store-snapshot-v1\0")
  const PAYLOAD_PREVIEW_DOMAIN :=
    Ascii("glacier-continuation-object-payload-store-reclaim-preview-v1\0")

  datatype PayloadError =
    | ZeroTenant | TooManyEntries | BadEntry | NotCanonical | BadFraming | TenantMismatch
    | BadAccounting | FooterMismatch | BadTargets | TargetNotFound

  datatype Item = Item(blob: BlobRef, payload: Bytes)

  datatype Snapshot = Snapshot(
    items: seq<Item>, payloadBytes: nat, encodedBytes: nat, body: Digest, encoded: Digest,
    snapshotSha: Digest)

  predicate ValidItem(cfg: Config, e: Item) {
    Hashable(e.payload) && BlobOf(cfg, e.payload) == e.blob
  }

  /** Strictly ascending keys. */
  predicate Ascending(items: seq<Item>) {
    forall i, j | 0 <= i < j < |items| ::
      KeyLeq(items[i].blob, items[j].blob) && items[i].blob != items[j].blob
  }

  function PayloadTotal(items: seq<Item>): nat {
    if items == [] then 0 else items[0].blob.byteLength + PayloadTotal(items[1..])
  }

  predicate ValidItems(cfg: Config, items: seq<Item>) {
    && |items| <= DEFAULT_CAPACITY && Ascending(items) && PayloadTotal(items) <= U64_MAX
    && forall i | 0 <= i < |items| :: ValidItem(cfg, items[i])
  }

  // ---------------------------------------------------------------------------------------
  // Printing and parsing items
  // ---------------------------------------------------------------------------------------

  function PrintItem(e: Item): Bytes {
    Word(e.blob.byteLength) + e.blob.sha + e.payload
  }

  function Print(items: seq<Item>): Bytes {
    if items == [] then [] else PrintItem(items[0]) + Print(items[1..])
  }

  /** The first item of `b` and what follows it, if a whole item is there. */
  function ParseItem(b: Bytes): (r: Option<(Item, Bytes)>)
    ensures r.Some? ==> |r.value.1| < |b|
  {
    if |b| < ENTRY_HEADER_BYTES then None
    else
      var n := FromLE64(b[..8]);
      if |b| < ENTRY_HEADER_BYTES + n then None
      else
        Some((Item(BlobRef(n, b[8..40]), b[40..40 + n]), b[40 + n..]))
  }

  function Parse(b: Bytes, count: nat): Option<(seq<Item>, Bytes)> {
    if count == 0 then Some(([], b))
    else
      var first := ParseItem(b);
      if first.None? then None
      else
        var rest := Parse(first.value.1, count - 1);
        if rest.None? then None
        else Some(([first.value.0] + rest.value.0, rest.value.1))
  }

  predicate Sized(items: seq<Item>) {
    forall i | 0 <= i < |items| ::
      items[i].blob.byteLength == |items[i].payload| <= U64_MAX
  }

  lemma ParsePrintItem(e: Item, tail: Bytes)
    requires e.blob.byteLength == |e.payload| <= U64_MAX
    ensures ParseItem(PrintItem(e) + tail) == Some((e, tail))
  {
    hide FromLE64, LittleEndian;
    var b := PrintItem(e) + tail;
    var n := |e.payload|;
    LE64Inverse(n);
    assert b[..8] == LE64(n) && b[8..40] == e.blob.sha;
    assert b[40..40 + n] == e.payload && b[40 + n..] == tail;
  }

  lemma {:induction false} ParsePrint(items: seq<Item>, tail: Bytes)
    requires Sized(items)
    ensures Parse(Print(items) + tail, |items|) == Some((items, tail))
  {
    hide ParseItem, PrintItem;
    if items == [] {
      assert Print(items) + tail == tail;
    } else {
      assert Print(items) + tail == PrintItem(items[0]) + (Print(items[1..]) + tail);
      ParsePrintItem(items[0], Print(items[1..]) + tail);
      ParsePrint(items[1..], tail);
      assert items == [items[0]] + items[1..];
    }
  }

  lemma PrintParseItem(b: Bytes)
    requires ParseItem(b).Some?
    ensures var (e, rest) := ParseItem(b).value;
            b == PrintItem(e) + rest && e.blob.byteLength == |e.payload| <= U64_MAX
  {
    hide FromLE64, LittleEndian;
    FromLE64Inverse(b[..8]);
    var n := FromLE64(b[..8]);
    assert b == b[..8] + b[8..40] + b[40..40 + n] + b[40 + n..];
  }

  lemma {:induction false} PrintParse(b: Bytes, count: nat)
    requires Parse(b, count).Some?
    ensures var (items, rest) := Parse(b, count).value;
            b == Print(items) + rest && |items| == count && Sized(items)
    decreases count
  {
    hide ParseItem, PrintItem;
    if count > 0 {
      PrintParseItem(b);
      PrintParse(ParseItem(b).value.1, count - 1);
      var (items, rest) := Parse(b, count).value;
      assert items[1..] == Parse(ParseItem(b).value.1, count - 1).value.0;
      assert b == PrintItem(items[0]) + (Print(items[1..]) + rest);
    }
  }

  lemma {:induction false} PrintLength(items: seq<Item>)
    requires Sized(items)
    ensures |Print(items)| == ENTRY_HEADER_BYTES * |items| + PayloadTotal(items)
  {
    hide Word;
    if items != [] {
      PrintLength(items[1..]);
    }
  }

  // ---------------------------------------------------------------------------------------
  // Whole snapshots
  // ---------------------------------------------------------------------------------------

  function Header(cfg: Config, count: nat, total: nat): (b: Bytes)
    ensures |b| == PAYLOAD_HEADER_BYTES
  {
    PAYLOAD_MAGIC + Word(SCHEMA_VERSION) + cfg.grant.tenant + Word(count) + Word(total)
  }

  function BodyRoot(cfg: Config, body: Bytes): Digest {
    cfg.sha(PAYLOAD_BODY_DOMAIN + body)
  }

  function Body(cfg: Config, items: seq<Item>): Bytes {
    Header(cfg, |items|, PayloadTotal(items)) + Print(items)
  }

  function Encode(cfg: Config, items: seq<Item>): Result<Bytes, PayloadError> {
    if cfg.grant.tenant == ZERO_DIGEST then Failure(ZeroTenant)
    else if |items| > DEFAULT_CAPACITY then Failure(TooManyEntries)
    else if !ValidItems(cfg, items) then Failure(BadEntry)
    else Success(Body(cfg, items) + BodyRoot(cfg, Body(cfg, items)))
  }

  function Describe(cfg: Config, items: seq<Item>, b: Bytes): Snapshot
    requires |b| >= 32
  {
    var n := |b| - 32;
    var root := cfg.sha(b);
    Snapshot(items, PayloadTotal(items), |b|, BodyRoot(cfg, b[..n]), root,
             cfg.sha(PAYLOAD_SNAPSHOT_DOMAIN + cfg.grant.tenant + Word(|items|)
                     + Word(PayloadTotal(items)) + Word(|b|) + root))
  }

  function Decode(cfg: Config, b: Bytes): Result<Snapshot, PayloadError> {
    if |b| < MINIMUM_BYTES then Failure(BadFraming)
    else if cfg.grant.tenant == ZERO_DIGEST then Failure(ZeroTenant)
    else if b[..8] != PAYLOAD_MAGIC || FromLE64(b[8..16]) != SCHEMA_VERSION then
      Failure(BadFraming)
    else if b[16..48] != cfg.grant.tenant then Failure(TenantMismatch)
    else
      var count, total := FromLE64(b[48..56]), FromLE64(b[56..64]);
      if count > DEFAULT_CAPACITY then Failure(TooManyEntries)
      else
        var parsed := Parse(b[64..], count);
        if parsed.None? then Failure(BadFraming)
        else if !ValidItems(cfg, parsed.value.0) then Failure(BadEntry)
        else if PayloadTotal(parsed.value.0) != total || |parsed.value.1| != 32 then
          Failure(BadAccounting)
        else if parsed.value.1 != BodyRoot(cfg, b[..|b| - 32]) then Failure(FooterMismatch)
        else Success(Describe(cfg, parsed.value.0, b))
  }

  lemma ItemsSized(cfg: Config, items: seq<Item>)
    requires ValidItems(cfg, items)
    ensures Sized(items)
  {
    hide KeyLeq;
    forall i | 0 <= i < |items|
      ensures items[i].blob.byteLength == |items[i].payload| <= U64_MAX
    {
      assert ValidItem(cfg, items[i]);
    }
  }

  lemma HeaderSlices(cfg: Config, count: nat, total: nat, rest: Bytes)
    requires count <= U64_MAX && total <= U64_MAX
    ensures var b := Header(cfg, count, total) + rest;
            && b[..8] == PAYLOAD_MAGIC && FromLE64(b[8..16]) == SCHEMA_VERSION
            && b[16..48] == cfg.grant.tenant && FromLE64(b[48..56]) == count
            && FromLE64(b[56..64]) == total && b[64..] == rest
  {
    hide FromLE64, LittleEndian;
    var b := Header(cfg, count, total) + rest;
    LE64Inverse(SCHEMA_VERSION);
    LE64Inverse(count);
    LE64Inverse(total);
    assert b[8..16] == LE64(SCHEMA_VERSION) && b[48..56] == LE64(count);
    assert b[56..64] == LE64(total) && b[..8] == PAYLOAD_MAGIC;
  }

  /** Decoding what was encoded gives exactly the items back. */
  lemma DecodeEncode(cfg: Config, items: seq<Item>)
    requires Encode(cfg, items).Success?
    ensures var b := Encode(cfg, items).value;
            Decode(cfg, b) == Success(Describe(cfg, items, b))
            && |b| == MINIMUM_BYTES + ENTRY_HEADER_BYTES * |items| + PayloadTotal(items)
  {
    hide ValidItem, Ascending, Print, Parse, Header, FromLE64, BodyRoot, PayloadTotal;
    var b := Encode(cfg, items).value;
    var root := BodyRoot(cfg, Body(cfg, items));
    ItemsSized(cfg, items);
    ParsePrint(items, root);
    PrintLength(items);
    assert b == Header(cfg, |items|, PayloadTotal(items)) + (Print(items) + root);
    HeaderSlices(cfg, |items|, PayloadTotal(items), Print(items) + root);
    assert b[..|b| - 32] == Body(cfg, items);
  }

  lemma HeaderRebuilds(cfg: Config, b: Bytes)
    requires |b| >= PAYLOAD_HEADER_BYTES && b[..8] == PAYLOAD_MAGIC
    requires FromLE64(b[8..16]) == SCHEMA_VERSION && b[16..48] == cfg.grant.tenant
    ensures b == Header(cfg, FromLE64(b[48..56]), FromLE64(b[56..64])) + b[64..]
  {
    hide FromLE64, LittleEndian;
    FromLE64Inverse(b[8..16]);
    FromLE64Inverse(b[48..56]);
    FromLE64Inverse(b[56..64]);
    assert b == b[..8] + b[8..16] + b[16..48] + b[48..56] + b[56..64] + b[64..];
  }

  /** Every accepted byte string is the encoding of what it decodes to. */
  lemma EncodeDecode(cfg: Config, b: Bytes)
    requires Decode(cfg, b).Success?
    ensures Encode(cfg, Decode(cfg, b).value.items) == Success(b)
    ensures Decode(cfg, b).value == Describe(cfg, Decode(cfg, b).value.items, b)
    ensures |b| == MINIMUM_BYTES + ENTRY_HEADER_BYTES * |Decode(cfg, b).value.items|
                   + PayloadTotal(Decode(cfg, b).value.items)
  {
    hide ValidItem, Ascending, Print, Parse, Header, FromLE64, BodyRoot, PayloadTotal;
    HeaderRebuilds(cfg, b);
    PrintParse(b[64..], FromLE64(b[48..56]));
    var (items, rest) := Parse(b[64..], FromLE64(b[48..56])).value;
    assert b == Body(cfg, items) + rest;
    assert b[..|b| - 32] == Body(cfg, items);
    PrintLength(items);
  }

  // ---------------------------------------------------------------------------------------
  // Reclaiming
  // ---------------------------------------------------------------------------------------

  datatype Preview = Preview(
    before: Snapshot, after: Snapshot, targets: Digest, freedEntries: nat, freedPayload: nat,
    candidate: Bytes, previewSha: Digest)

  function Retained(items: seq<Item>, targets: seq<BlobRef>): seq<Item> {
    if items == [] then []
    else
      var n := |items| - 1;
      Retained(items[..n], targets) + if items[n].blob in targets then [] else [items[n]]
  }

  function FreedPayload(items: seq<Item>, targets: seq<BlobRef>): nat {
    if items == [] then 0
    else
      var n := |items| - 1;
      FreedPayload(items[..n], targets)
      + if items[n].blob in targets then items[n].blob.byteLength else 0
  }

  predicate AllFound(items: seq<Item>, targets: seq<BlobRef>) {
    forall k | 0 <= k < |targets| :: exists i :: 0 <= i < |items| && items[i].blob == targets[k]
  }

  function PreviewRoot(cfg: Config, p: Preview): Digest {
    cfg.sha(PAYLOAD_PREVIEW_DOMAIN + p.before.snapshotSha + p.after.snapshotSha + p.targets
            + Word(p.freedEntries) + Word(p.freedPayload))
  }

  function PreviewReclaim(cfg: Config, active: Bytes, targets: seq<BlobRef>)
    : Result<Preview, PayloadError>
  {
    var before := Decode(cfg, active);
    if !CanonicalTargets(targets) then Failure(BadTargets)
    else if before.Failure? then Failure(before.error)
    else if !AllFound(before.value.items, targets) then Failure(TargetNotFound)
    else
      var candidate := Encode(cfg, Retained(before.value.items, targets));
      if candidate.Failure? then Failure(candidate.error)
      else
        var after := Decode(cfg, candidate.value);
        if after.Failure? then Failure(after.error)
        else
          var p := Preview(before.value, after.value, TargetsRoot(cfg, targets), |targets|,
                           FreedPayload(before.value.items, targets), candidate.value,
                           ZERO_DIGEST);
          Success(p.(previewSha := PreviewRoot(cfg, p)))
  }

  predicate DigestsNonZero(s: Snapshot) {
    s.body != ZERO_DIGEST && s.encoded != ZERO_DIGEST && s.snapshotSha != ZERO_DIGEST
  }

  /** The stand-alone verifier of a reclaim preview. */
  predicate VerifiedPreview(cfg: Config, p: Preview) {
    && p.freedEntries > 0 && cfg.grant.tenant != ZERO_DIGEST
    && DigestsNonZero(p.before) && DigestsNonZero(p.after) && p.targets != ZERO_DIGEST
    && p.before.encodedBytes >= MINIMUM_BYTES && p.after.encodedBytes >= MINIMUM_BYTES
    && p.before.encodedBytes
       == p.after.encodedBytes + p.freedEntries * ENTRY_HEADER_BYTES + p.freedPayload
    && |p.before.items| == |p.after.items| + p.freedEntries
    && p.before.payloadBytes == p.after.payloadBytes + p.freedPayload
    && p.previewSha == PreviewRoot(cfg, p)
  }

  /** Exactly the items that are no target are retained, in order. */
  lemma {:induction false} RetainedExact(items: seq<Item>, targets: seq<BlobRef>)
    ensures forall e :: e in Retained(items, targets) <==> e in items && e.blob !in targets
    ensures |Retained(items, targets)| <= |items|
  {
    if items != [] {
      var n := |items| - 1;
      RetainedExact(items[..n], targets);
      assert items == items[..n] + [items[n]];
    }
  }

  lemma {:induction false} RetainedAscends(items: seq<Item>, targets: seq<BlobRef>)
    requires Ascending(items)
    ensures Ascending(Retained(items, targets))
  {
    hide KeyLeq;
    if items != [] {
      var n := |items| - 1;
      RetainedAscends(items[..n], targets);
      RetainedExact(items[..n], targets);
      var kept := Retained(items[..n], targets);
      if items[n].blob !in targets {
        forall i | 0 <= i < |kept|
          ensures KeyLeq(kept[i].blob, items[n].blob) && kept[i].blob != items[n].blob
        {
          assert kept[i] in kept;
          var k :| 0 <= k < n && items[k] == kept[i];
        }
      }
    }
  }

  lemma {:induction false} TotalAppend(items: seq<Item>, e: Item)
    ensures PayloadTotal(items + [e]) == PayloadTotal(items) + e.blob.byteLength
  {
    if items != [] {
      assert (items + [e])[1..] == items[1..] + [e];
      TotalAppend(items[1..], e);
    }
  }

  /** What is freed and what is kept add up. */
  lemma {:induction false} RetainedTotals(items: seq<Item>, targets: seq<BlobRef>)
    ensures PayloadTotal(items)
            == PayloadTotal(Retained(items, targets)) + FreedPayload(items, targets)
    ensures |items| == |Retained(items, targets)| + |Hits(items, targets)|
  {
    if items != [] {
      var n := |items| - 1;
      RetainedTotals(items[..n], targets);
      assert items == items[..n] + [items[n]];
      TotalAppend(items[..n], items[n]);
      var kept := Retained(items[..n], targets);
      TotalAppend(kept, items[n]);
      assert kept + [] == kept;
    }
  }

  /** The blobs of the items that are targets. */
  function Hits(items: seq<Item>, targets: seq<BlobRef>): seq<BlobRef> {
    if items == [] then []
    else
      var n := |items| - 1;
      Hits(items[..n], targets) + if items[n].blob in targets then [items[n].blob] else []
  }

  lemma {:induction false} HitsExact(items: seq<Item>, targets: seq<BlobRef>)
    requires Ascending(items)
    ensures forall t | t in Hits(items, targets) :: t in targets
    ensures forall t | t in Hits(items, targets) ::
              exists i :: 0 <= i < |items| && items[i].blob == t
    ensures forall i | 0 <= i < |items| && items[i].blob in targets ::
              items[i].blob in Hits(items, targets)
    ensures Distinct(Hits(items, targets))
  {
    hide KeyLeq;
    if items != [] {
      var n := |items| - 1;
      HitsExact(items[..n], targets);
      var before := Hits(items[..n], targets);
      forall t | t in Hits(items, targets)
        ensures exists i :: 0 <= i < |items| && items[i].blob == t
      {
        if t in before {
          var i :| 0 <= i < n && items[..n][i].blob == t;
          assert items[i].blob == t;
        } else {
          assert items[n].blob == t;
        }
      }
      forall i | 0 <= i < |before| ensures before[i] != items[n].blob {
        assert before[i] in before;
        var k :| 0 <= k < n && items[..n][k].blob == before[i];
        assert items[k].blob != items[n].blob;
      }
      forall i | 0 <= i < |items| && items[i].blob in targets
        ensures items[i].blob in Hits(items, targets)
      {
        if i < n {
          assert items[..n][i].blob in before;
        }
      }
    }
  }

  lemma {:induction false} DistinctCardinality(s: seq<BlobRef>)
    requires Distinct(s)
    ensures |set x | x in s| == |s|
  {
    if s != [] {
      var n := |s| - 1;
      DistinctCardinality(s[..n]);
      assert (set x | x in s) == (set x | x in s[..n]) + {s[n]};
      assert s[n] !in s[..n];
    }
  }

  /** Every target names exactly one item. */
  lemma HitsCount(items: seq<Item>, targets: seq<BlobRef>)
    requires Ascending(items) && AllFound(items, targets) && Distinct(targets)
    ensures |Hits(items, targets)| == |targets|
  {
    hide KeyLeq;
    HitsExact(items, targets);
    var hits := Hits(items, targets);
    DistinctCardinality(hits);
    DistinctCardinality(targets);
    forall t | t in targets ensures t in hits {
      var k :| 0 <= k < |targets| && targets[k] == t;
      var i :| 0 <= i < |items| && items[i].blob == targets[k];
    }
    assert (set x | x in hits) == (set x | x in targets);
  }

  lemma RetainedValid(cfg: Config, items: seq<Item>, targets: seq<BlobRef>)
    requires ValidItems(cfg, items)
    ensures ValidItems(cfg, Retained(items, targets))
  {
    hide KeyLeq, ValidItem;
    RetainedExact(items, targets);
    RetainedAscends(items, targets);
    RetainedTotals(items, targets);
    var kept := Retained(items, targets);
    forall i | 0 <= i < |kept| ensures ValidItem(cfg, kept[i]) {
      assert kept[i] in kept;
      var k :| 0 <= k < |items| && items[k] == kept[i];
    }
  }

  lemma DecodedValid(cfg: Config, b: Bytes)
    requires Decode(cfg, b).Success?
    ensures cfg.grant.tenant != ZERO_DIGEST && ValidItems(cfg, Decode(cfg, b).value.items)
  {
    hide ValidItem, Ascending, Parse, FromLE64, BodyRoot;
  }

  /**
   * Exact reclaim. A preview fails only for targets that are not canonical, a snapshot that
   * does not decode, or a missing target; it keeps exactly the items that are no target, the
   * candidate is shorter by 40 bytes for each target and by the payload that is freed, and the
   * preview passes its verifier when none of its digests is zero.
   */
  lemma ReclaimExact(cfg: Config, active: Bytes, targets: seq<BlobRef>)
    requires CanonicalTargets(targets) && Decode(cfg, active).Success?
    requires AllFound(Decode(cfg, active).value.items, targets)
    ensures PreviewReclaim(cfg, active, targets).Success?
    ensures var p := PreviewReclaim(cfg, active, targets).value;
            var items := Decode(cfg, active).value.items;
            && p.after.items == Retained(items, targets)
            && |active| == |p.candidate| + ENTRY_HEADER_BYTES * |targets| + p.freedPayload
            && |items| == |p.after.items| + |targets|
            && (DigestsNonZero(p.before) && DigestsNonZero(p.after) && p.targets != ZERO_DIGEST
                ==> VerifiedPreview(cfg, p))
  {
    hide ValidItem, Ascending, Body, Decode, PayloadTotal, Retained, FreedPayload,
      KeyLeq, BodyRoot, AllFound, TargetsRoot, Hits;
    EncodeDecode(cfg, active);
    DecodedValid(cfg, active);
    var items := Decode(cfg, active).value.items;
    var kept := Retained(items, targets);
    RetainedValid(cfg, items, targets);
    CanonicalDistinct(targets);
    ItemsAscend(cfg, items);
    HitsCount(items, targets);
    RetainedTotals(items, targets);
    DecodeEncode(cfg, kept);
  }

  lemma ItemsAscend(cfg: Config, items: seq<Item>)
    requires ValidItems(cfg, items)
    ensures Ascending(items)
  {
  }

  // ---------------------------------------------------------------------------------------
  // The loops
  // ---------------------------------------------------------------------------------------

  lemma {:induction false} PrintAppend(items: seq<Item>, e: Item)
    ensures Print(items + [e]) == Print(items) + PrintItem(e)
  {
    hide PrintItem;
    if items != [] {
      assert (items + [e])[1..] == items[1..] + [e];
      PrintAppend(items[1..], e);
      assert Print(items + [e]) == PrintItem(items[0]) + Print(items[1..] + [e]);
    } else {
      assert (items + [e])[1..] == [];
    }
  }

  /** Extending the body item by item. */
  method EncodeItems(cfg: Config, items: seq<Item>) returns (r: Result<Bytes, PayloadError>)
    ensures r == Encode(cfg, items)
  {
    hide ValidItem, PrintItem, Header, BodyRoot, PayloadTotal, Print;
    if cfg.grant.tenant == ZERO_DIGEST {
      return Failure(ZeroTenant);
    }
    if |items| > DEFAULT_CAPACITY {
      return Failure(TooManyEntries);
    }
    if !ValidItems(cfg, items) {
      return Failure(BadEntry);
    }
    var total, body := 0, [];
    var i := 0;
    NothingPrinted(items);
    while i < |items|
      invariant 0 <= i <= |items|
      invariant total == PayloadTotal(items[..i]) && body == Print(items[..i])
    {
      assert items[..i + 1] == items[..i] + [items[i]];
      PrintAppend(items[..i], items[i]);
      TotalAppend(items[..i], items[i]);
      total, body := total + items[i].blob.byteLength, body + PrintItem(items[i]);
      i := i + 1;
    }
    assert items[..i] == items;
    var whole := Header(cfg, |items|, total) + body;
    return Success(whole + BodyRoot(cfg, whole));
  }

  lemma NothingPrinted(items: seq<Item>)
    ensures PayloadTotal(items[..0]) == 0 && Print(items[..0]) == []
  {
  }

  lemma {:induction false} ParseSplit(b: Bytes, n: nat, count: nat)
    requires n <= count
    ensures var first := Parse(b, n);
            Parse(b, count)
            == if first.None? then None
               else
                 var rest := Parse(first.value.1, count - n);
                 if rest.None? then None
                 else Some((first.value.0 + rest.value.0, rest.value.1))
    decreases n
  {
    hide ParseItem;
    if n == 0 {
      if Parse(b, count).Some? {
        assert [] + Parse(b, count).value.0 == Parse(b, count).value.0;
      }
    } else if ParseItem(b).Some? {
      var tail := ParseItem(b).value.1;
      ParseSplit(tail, n - 1, count - 1);
      var first := Parse(tail, n - 1);
      if first.Some? && Parse(first.value.1, count - n).Some? {
        var e := [ParseItem(b).value.0];
        var more := Parse(first.value.1, count - n).value.0;
        assert e + (first.value.0 + more) == (e + first.value.0) + more;
      }
    }
  }

  /** Advancing a cursor over the items. */
  method ParseItems(b: Bytes, count: nat) returns (r: Option<(seq<Item>, Bytes)>)
    ensures r == Parse(b, count)
  {
    hide FromLE64, Parse;
    var items: seq<Item> := [];
    var cursor, k := 0, 0;
    ParseNothing(b);
    while k < count
      invariant 0 <= k <= count && 0 <= cursor <= |b|
      invariant Parse(b, k) == Some((items, b[cursor..]))
    {
      ParseSplit(b, k, k + 1);
      ParseSplit(b, k + 1, count);
      ParseOne(b[cursor..]);
      if cursor + ENTRY_HEADER_BYTES > |b| {
        return None;
      }
      assert b[cursor..][..8] == b[cursor..cursor + 8];
      var n := FromLE64(b[cursor..cursor + 8]);
      if cursor + ENTRY_HEADER_BYTES + n > |b| {
        return None;
      }
      var at := cursor + ENTRY_HEADER_BYTES;
      assert b[cursor..][8..40] == b[cursor + 8..at];
      assert b[cursor..][40..40 + n] == b[at..at + n];
      assert b[cursor..][40 + n..] == b[at + n..];
      items := items + [Item(BlobRef(n, b[cursor + 8..at]), b[at..at + n])];
      cursor, k := at + n, k + 1;
    }
    return Some((items, b[cursor..]));
  }

  lemma ParseNothing(b: Bytes)
    ensures Parse(b, 0) == Some(([], b[0..]))
  {
  }

  lemma ParseOne(b: Bytes)
    ensures Parse(b, 1)
            == if ParseItem(b).None? then None
               else Some(([ParseItem(b).value.0], ParseItem(b).value.1))
  {
    hide ParseItem;
    if ParseItem(b).Some? {
      assert Parse(ParseItem(b).value.1, 0) == Some(([], ParseItem(b).value.1));
      var one := [ParseItem(b).value.0];
      assert one + [] == one;
    }
  }
}
