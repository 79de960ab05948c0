/**
 * The blob table of a continuation bundle: canonical ordinals and totals
 * (bench/continuation_bundle.py). Encoding numbers each distinct blob in order of first use;
 * decoding accepts exactly that numbering.
 */
module ContinuationBundle {
  import opened Bytes
  import opened ObjectStore

  datatype Entry = Entry(blob: BlobRef, ordinal: nat)

  datatype Totals = Totals(logicalBytes: nat, uniqueCount: nat, uniqueBytes: nat)

  /** An object of a bundle as it is encoded: its blob and the payload behind it. */
  datatype Item = Item(blob: BlobRef, payload: Bytes)

  /** One line of a decoded table. */
  datatype Row = Row(kind: nat, abi: u64, typed: Digest, entry: Entry)

  datatype BundleError =
    | DigestReused | TotalsOverflow | WrongKind | InvalidEntry | NoncanonicalOrdinal
    | TotalsMismatch

  const OBJECT_COUNT := 9

  /** The distinct blobs of `refs`, in order of first use. */
  function Uniques(refs: seq<BlobRef>): (u: seq<BlobRef>)
    ensures |u| <= |refs|
  {
    if refs == [] then []
    else
      var n := |refs| - 1;
      var before := Uniques(refs[..n]);
      if Mentions(before, refs[n].sha) then before else before + [refs[n]]
  }

  predicate Mentions(refs: seq<BlobRef>, sha: Digest) {
    exists k :: 0 <= k < |refs| && refs[k].sha == sha
  }

  function IndexOf(refs: seq<BlobRef>, sha: Digest): (i: nat)
    ensures i <= |refs|
    ensures i < |refs| ==> refs[i].sha == sha
    ensures i == |refs| <==> !Mentions(refs, sha)
  {
    if refs == [] then 0
    else if refs[0].sha == sha then 0
    else
      assert forall k :: 1 <= k < |refs| ==> refs[k] == refs[1..][k - 1];
      1 + IndexOf(refs[1..], sha)
  }

  /** The canonical number of the `i`-th blob: its place among the distinct ones. */
  function Ordinal(refs: seq<BlobRef>, i: nat): nat
    requires i < |refs|
  {
    IndexOf(Uniques(refs), refs[i].sha)
  }

  function TotalBytes(refs: seq<BlobRef>): nat {
    if refs == [] then 0 else TotalBytes(refs[..|refs| - 1]) + refs[|refs| - 1].byteLength
  }

  function Blobs(entries: seq<Entry>): (refs: seq<BlobRef>)
    ensures |refs| == |entries|
    ensures forall i | 0 <= i < |refs| :: refs[i] == entries[i].blob
  {
    seq(|entries|, i requires 0 <= i < |entries| => entries[i].blob)
  }

  /** Equal digests belong to equally long blobs. */
  predicate Consistent(refs: seq<BlobRef>) {
    forall i, j | 0 <= i < j < |refs| && refs[i].sha == refs[j].sha ::
      refs[i].byteLength == refs[j].byteLength
  }

  function TotalsOf(refs: seq<BlobRef>): Totals {
    Totals(TotalBytes(refs), |Uniques(refs)|, TotalBytes(Uniques(refs)))
  }

  function Refs(items: seq<Item>): (refs: seq<BlobRef>)
    ensures |refs| == |items| && forall i | 0 <= i < |refs| :: refs[i] == items[i].blob
  {
    seq(|items|, i requires 0 <= i < |items| => items[i].blob)
  }

  /** Equal digests belong to equal blobs with equal payloads. */
  predicate SameDigestSamePayload(items: seq<Item>) {
    forall i, j | 0 <= i < j < |items| && items[i].blob.sha == items[j].blob.sha ::
      items[i] == items[j]
  }

  function Entries(rows: seq<Row>): (entries: seq<Entry>)
    ensures |entries| == |rows| && forall i | 0 <= i < |rows| :: entries[i] == rows[i].entry
  {
    seq(|rows|, i requires 0 <= i < |rows| => rows[i].entry)
  }

  /** A line in its place: its kind is its index and none of its fields is empty. */
  predicate ProperRow(row: Row, i: nat) {
    && row.kind == i && row.abi != 0 && row.entry.blob.byteLength != 0
    && row.typed != ZERO_DIGEST && row.entry.blob.sha != ZERO_DIGEST
  }

  predicate ProperRows(rows: seq<Row>) {
    forall i | 0 <= i < |rows| :: ProperRow(rows[i], i)
  }

  predicate CanonicalTable(entries: seq<Entry>) {
    var refs := Blobs(entries);
    && Consistent(refs)
    && forall i | 0 <= i < |entries| :: entries[i].ordinal == Ordinal(refs, i)
  }

  // ---------------------------------------------------------------------------------------
  // Laws of the numbering
  // ---------------------------------------------------------------------------------------

  lemma {:induction false} IndexOfStable(u: seq<BlobRef>, more: seq<BlobRef>, sha: Digest)
    requires Mentions(u, sha)
    ensures IndexOf(u + more, sha) == IndexOf(u, sha)
  {
    if u[0].sha != sha {
      assert (u + more)[1..] == u[1..] + more;
      var k :| 0 <= k < |u| && u[k].sha == sha;
      assert u[1..][k - 1].sha == sha;
      IndexOfStable(u[1..], more, sha);
    }
  }

  lemma {:induction false} IndexOfLast(u: seq<BlobRef>, r: BlobRef)
    requires !Mentions(u, r.sha)
    ensures IndexOf(u + [r], r.sha) == |u|
  {
    if u != [] {
      assert u[0].sha != r.sha;
      assert (u + [r])[1..] == u[1..] + [r];
      assert forall k :: 0 <= k < |u| - 1 ==> u[1..][k] == u[k + 1];
      IndexOfLast(u[1..], r);
    }
  }

  lemma {:induction false} UniquesMention(refs: seq<BlobRef>, i: nat)
    requires i < |refs|
    ensures Mentions(Uniques(refs), refs[i].sha)
  {
    var n := |refs| - 1;
    var before := Uniques(refs[..n]);
    if i < n {
      UniquesMention(refs[..n], i);
      var k :| 0 <= k < |before| && before[k].sha == refs[i].sha;
      assert Uniques(refs)[k].sha == refs[i].sha;
    } else if !Mentions(before, refs[n].sha) {
      assert Uniques(refs)[|before|] == refs[n];
    }
  }

  lemma {:induction false} UniquesFromRefs(refs: seq<BlobRef>, k: nat)
    requires k < |Uniques(refs)|
    ensures Uniques(refs)[k] in refs
  {
    var n := |refs| - 1;
    var before := Uniques(refs[..n]);
    if k < |before| {
      UniquesFromRefs(refs[..n], k);
    }
  }

  lemma {:induction false} UniquesDistinct(refs: seq<BlobRef>)
    ensures forall i, j | 0 <= i < j < |Uniques(refs)| ::
              Uniques(refs)[i].sha != Uniques(refs)[j].sha
  {
    if refs != [] {
      UniquesDistinct(refs[..|refs| - 1]);
    }
  }

  /** Appending one blob keeps every earlier number and gives the new one its own. */
  lemma OrdinalsStable(refs: seq<BlobRef>, r: BlobRef, i: nat)
    requires i <= |refs|
    ensures Ordinal(refs + [r], i)
            == if i < |refs| then Ordinal(refs, i) else IndexOf(Uniques(refs), r.sha)
  {
    var all := refs + [r];
    assert all[..|refs|] == refs;
    if i < |refs| {
      UniquesMention(refs, i);
    }
    if Mentions(Uniques(refs), r.sha) {
    } else if i < |refs| {
      IndexOfStable(Uniques(refs), [r], refs[i].sha);
    } else {
      IndexOfLast(Uniques(refs), r);
    }
  }

  /** In a consistent table the number of an entry names exactly its blob. */
  lemma OrdinalNames(refs: seq<BlobRef>, i: nat)
    requires i < |refs| && Consistent(refs)
    ensures Ordinal(refs, i) < |Uniques(refs)| && Uniques(refs)[Ordinal(refs, i)] == refs[i]
  {
    UniquesMention(refs, i);
    var k := Ordinal(refs, i);
    UniquesFromRefs(refs, k);
    var j :| 0 <= j < |refs| && refs[j] == Uniques(refs)[k];
    assert refs[i].sha == refs[j].sha;
  }

  // ---------------------------------------------------------------------------------------
  // Encoding and decoding the table
  // ---------------------------------------------------------------------------------------

  /** The scan for an earlier entry with the same digest. */
  method FindPrevious(entries: seq<Entry>, sha: Digest) returns (r: Option<nat>)
    ensures r.Some? ==> r.value < |entries| && entries[r.value].blob.sha == sha
    ensures r.None? ==> forall e | e in entries :: e.blob.sha != sha
  {
    var i := 0;
    while i < |entries|
      invariant 0 <= i <= |entries|
      invariant forall k | 0 <= k < i :: entries[k].blob.sha != sha
    {
      if entries[i].blob.sha == sha {
        return Some(i);
      }
      i := i + 1;
    }
    return None;
  }

  /** The totals after one more blob, first of its digest or not. */
  function AddTotals(t: Totals, byteLength: nat, seen: bool): Totals {
    Totals(t.logicalBytes + byteLength, if seen then t.uniqueCount else t.uniqueCount + 1,
           if seen then t.uniqueBytes else t.uniqueBytes + byteLength)
  }

  /**
   * Numbering blobs as they come, with running 64-bit totals: it succeeds exactly when equal
   * digests belong to equal payloads and the logical total fits.
   */
  method Number(items: seq<Item>) returns (r: Result<(seq<Entry>, Totals), BundleError>)
    ensures r.Success? <==>
              SameDigestSamePayload(items) && TotalBytes(Refs(items)) <= U64_MAX
    ensures r.Success? ==>
              && Blobs(r.value.0) == Refs(items) && CanonicalTable(r.value.0)
              && r.value.1 == TotalsOf(Refs(items))
  {
    hide Uniques, CanonicalTable, IndexOf, TotalBytes, TotalsOf, SameDigestSamePayload;
    var entries: seq<Entry> := [];
    var totals := Totals(0, 0, 0);
    var i := 0;
    NothingNumbered(items);
    while i < |items|
      invariant 0 <= i <= |items| && |entries| == i
      invariant Blobs(entries) == Refs(items[..i]) && CanonicalTable(entries)
      invariant totals == TotalsOf(Refs(items[..i])) && totals.logicalBytes <= U64_MAX
      invariant SameDigestSamePayload(items[..i])
    {
      var item := items[i];
      assert items[..i + 1] == items[..i] + [item];
      assert Refs(items[..i + 1]) == Refs(items[..i]) + [item.blob];
      var previous := FindPrevious(entries, item.blob.sha);
      PrefixTotal(items, i + 1);
      TotalIs(Refs(items[..i]), item.blob);
      SameMore(items, i, previous, entries);
      if totals.logicalBytes + item.blob.byteLength > U64_MAX {
        return Failure(TotalsOverflow);
      }
      if previous.Some?
         && (entries[previous.value].blob.byteLength != item.blob.byteLength
             || items[previous.value].payload != item.payload) {
        return Failure(DigestReused);
      }
      var found := if previous.Some? then Some(entries[previous.value]) else None;
      NumberStep(entries, item.blob, found);
      var ordinal := if previous.Some? then entries[previous.value].ordinal
                     else totals.uniqueCount;
      CountIs(Refs(items[..i]));
      totals := AddTotals(totals, item.blob.byteLength, previous.Some?);
      entries := entries + [Entry(item.blob, ordinal)];
      i := i + 1;
    }
    assert items[..i] == items;
    CountIs(Refs(items));
    return Success((entries, totals));
  }

  lemma NothingNumbered(items: seq<Item>)
    ensures CanonicalTable([]) && TotalsOf(Refs(items[..0])) == Totals(0, 0, 0)
    ensures SameDigestSamePayload(items[..0])
  {
  }

  lemma CountIs(refs: seq<BlobRef>)
    ensures TotalsOf(refs).uniqueCount == |Uniques(refs)|
    ensures TotalsOf(refs).logicalBytes == TotalBytes(refs)
  {
  }

  lemma TotalIs(refs: seq<BlobRef>, ref: BlobRef)
    ensures TotalBytes(refs + [ref]) == TotalBytes(refs) + ref.byteLength
    ensures TotalsOf(refs).logicalBytes == TotalBytes(refs)
  {
    assert (refs + [ref])[..|refs|] == refs;
  }

  lemma {:induction false} PrefixTotal(items: seq<Item>, n: nat)
    requires n <= |items|
    ensures TotalBytes(Refs(items[..n])) <= TotalBytes(Refs(items))
    decreases |items|
  {
    if n < |items| {
      var m := |items| - 1;
      PrefixTotal(items[..m], n);
      assert items[..m][..n] == items[..n];
      assert Refs(items)[..m] == Refs(items[..m]);
    } else {
      assert items[..n] == items;
    }
  }

  /** Whether the items stay consistent shows at the one earlier use that the scan found. */
  lemma SameMore(items: seq<Item>, i: nat, previous: Option<nat>, entries: seq<Entry>)
    requires i < |items| && |entries| == i && Blobs(entries) == Refs(items[..i])
    requires SameDigestSamePayload(items[..i])
    requires previous.Some? ==>
               previous.value < i && entries[previous.value].blob.sha == items[i].blob.sha
    requires previous.None? ==> forall e | e in entries :: e.blob.sha != items[i].blob.sha
    ensures previous.Some? ==> entries[previous.value].blob == items[previous.value].blob
    ensures SameDigestSamePayload(items[..i + 1])
            <==> previous.None? || items[previous.value] == items[i]
    ensures !SameDigestSamePayload(items[..i + 1]) ==> !SameDigestSamePayload(items)
  {
    var before, all := items[..i], items[..i + 1];
    assert forall k | 0 <= k < i :: entries[k].blob == Refs(before)[k] == items[k].blob;
    assert forall k | 0 <= k < i :: before[k] == items[k] && all[k] == items[k];
    forall k | 0 <= k < i && previous.None? ensures items[k].blob.sha != items[i].blob.sha {
      assert entries[k] in entries;
    }
    if previous.None? || items[previous.value] == items[i] {
      forall a, b | 0 <= a < b < |all| && all[a].blob.sha == all[b].blob.sha
        ensures all[a] == all[b]
      {
        if b < i {
          assert before[a] == before[b];
        } else if previous.Some? {
          var k := previous.value;
          assert before[a].blob.sha == before[k].blob.sha;
        }
      }
    } else {
      assert all[previous.value].blob.sha == all[i].blob.sha;
    }
  }

  /** One more entry, given what the scan of the earlier ones found. */
  lemma NumberStep(entries: seq<Entry>, ref: BlobRef, previous: Option<Entry>)
    requires CanonicalTable(entries)
    requires previous.Some? ==>
               && previous.value in entries && previous.value.blob.sha == ref.sha
    requires previous.None? ==> forall e | e in entries :: e.blob.sha != ref.sha
    requires previous.Some? ==> previous.value.blob.byteLength == ref.byteLength
    ensures var refs := Blobs(entries);
            var expected := if previous.Some? then previous.value.ordinal else |Uniques(refs)|;
            && IndexOf(Uniques(refs), ref.sha) == expected
            && (previous.Some? <==> Mentions(Uniques(refs), ref.sha))
            && CanonicalTable(entries + [Entry(ref, expected)])
            && Blobs(entries + [Entry(ref, expected)]) == refs + [ref]
            && TotalsOf(refs + [ref])
               == (var t := TotalsOf(refs);
                   Totals(t.logicalBytes + ref.byteLength,
                          if previous.Some? then t.uniqueCount else t.uniqueCount + 1,
                          if previous.Some? then t.uniqueBytes
                          else t.uniqueBytes + ref.byteLength))
  {
    hide Uniques, TotalBytes;
    var refs := Blobs(entries);
    var u := Uniques(refs);
    if previous.Some? {
      var k :| 0 <= k < |entries| && entries[k] == previous.value;
      assert refs[k].sha == ref.sha;
      UniquesMention(refs, k);
      assert entries[k].ordinal == Ordinal(refs, k);
    }
    MentionsSame(refs, ref.sha);
    TotalsAppend(refs, ref);
    ConsistentAppend(refs, ref, previous);
    TableAppend(entries, ref);
  }

  lemma TotalsAppend(refs: seq<BlobRef>, ref: BlobRef)
    ensures var t, unseen := TotalsOf(refs), !Mentions(Uniques(refs), ref.sha);
            TotalsOf(refs + [ref])
            == Totals(t.logicalBytes + ref.byteLength,
                      if unseen then t.uniqueCount + 1 else t.uniqueCount,
                      if unseen then t.uniqueBytes + ref.byteLength else t.uniqueBytes)
  {
    hide Uniques;
    UniquesAppend(refs, ref);
    var u := Uniques(refs);
    assert (refs + [ref])[..|refs|] == refs && (u + [ref])[..|u|] == u;
  }

  lemma TableAppend(entries: seq<Entry>, ref: BlobRef)
    requires CanonicalTable(entries) && Consistent(Blobs(entries) + [ref])
    ensures var after := entries + [Entry(ref, IndexOf(Uniques(Blobs(entries)), ref.sha))];
            CanonicalTable(after) && Blobs(after) == Blobs(entries) + [ref]
  {
    hide Uniques, IndexOf, Consistent;
    var refs := Blobs(entries);
    var after := entries + [Entry(ref, IndexOf(Uniques(refs), ref.sha))];
    assert Blobs(after) == refs + [ref];
    forall i | 0 <= i < |after| ensures after[i].ordinal == Ordinal(refs + [ref], i) {
      OrdinalsStable(refs, ref, i);
      if i < |entries| {
        assert entries[i].ordinal == Ordinal(refs, i);
      }
    }
  }

  /** The distinct blobs mention exactly the digests that the table does. */
  lemma MentionsSame(refs: seq<BlobRef>, sha: Digest)
    ensures Mentions(Uniques(refs), sha) <==> Mentions(refs, sha)
  {
    hide Uniques;
    var u := Uniques(refs);
    if Mentions(u, sha) {
      var k :| 0 <= k < |u| && u[k].sha == sha;
      UniquesFromRefs(refs, k);
    }
    if Mentions(refs, sha) {
      var k :| 0 <= k < |refs| && refs[k].sha == sha;
      UniquesMention(refs, k);
    }
  }

  lemma ConsistentAppend(refs: seq<BlobRef>, ref: BlobRef, previous: Option<Entry>)
    requires Consistent(refs)
    requires previous.Some? ==>
               && previous.value.blob in refs && previous.value.blob.sha == ref.sha
               && previous.value.blob.byteLength == ref.byteLength
    requires previous.None? ==> forall r | r in refs :: r.sha != ref.sha
    ensures Consistent(refs + [ref])
  {
    var all := refs + [ref];
    forall i, j | 0 <= i < j < |all| && all[i].sha == all[j].sha
      ensures all[i].byteLength == all[j].byteLength
    {
      if j == |refs| {
        assert all[i] == refs[i] && refs[i] in refs;
        var k :| 0 <= k < |refs| && refs[k] == previous.value.blob;
        assert refs[k].sha == refs[i].sha;
      }
    }
  }

  lemma UniquesAppend(refs: seq<BlobRef>, ref: BlobRef)
    ensures Uniques(refs + [ref])
            == if Mentions(Uniques(refs), ref.sha) then Uniques(refs)
               else Uniques(refs) + [ref]
  {
    assert (refs + [ref])[..|refs|] == refs;
  }

  /** What decoding demands of a table and the totals declared in the header. */
  predicate TableAccepted(rows: seq<Row>, declared: Totals) {
    var refs := Blobs(Entries(rows));
    && |rows| == OBJECT_COUNT && ProperRows(rows) && CanonicalTable(Entries(rows))
    && TotalBytes(refs) <= U64_MAX && declared == TotalsOf(refs)
  }

  /**
   * Decoding accepts a table exactly when every line is proper, its ordinals and totals are
   * the canonical ones and the totals fit.
   */
  method CheckTable(rows: seq<Row>, declared: Totals) returns (error: Option<BundleError>)
    ensures error.None? <==> TableAccepted(rows, declared)
  {
    hide Uniques, CanonicalTable, IndexOf, TotalBytes, Blobs, ProperRow;
    var entries := Entries(rows);
    var totals := Totals(0, 0, 0);
    var i := 0;
    EmptyTable(entries);
    if |rows| != OBJECT_COUNT {
      return Some(InvalidEntry);
    }
    while i < |rows|
      invariant 0 <= i <= |rows|
      invariant forall k | 0 <= k < i :: ProperRow(rows[k], k)
      invariant CanonicalTable(entries[..i]) && totals == TotalsOf(Blobs(entries[..i]))
      invariant totals.logicalBytes <= U64_MAX
    {
      var e := entries[i];
      assert entries[..i + 1] == entries[..i] + [e];
      ProperMeans(rows[i], i);
      if rows[i].kind != i {
        return Some(WrongKind);
      }
      if rows[i].abi == 0 || e.blob.byteLength == 0 || rows[i].typed == ZERO_DIGEST
         || e.blob.sha == ZERO_DIGEST {
        return Some(InvalidEntry);
      }
      EntriesTotal(entries, i + 1);
      BlobsMore(entries[..i], e);
      TotalIs(Blobs(entries[..i]), e.blob);
      if totals.logicalBytes + e.blob.byteLength > U64_MAX {
        return Some(TotalsOverflow);
      }
      var previous := FindPrevious(entries[..i], e.blob.sha);
      if previous.Some? && entries[previous.value].blob.byteLength != e.blob.byteLength {
        NotConsistent(entries, i, entries[previous.value]);
        return Some(DigestReused);
      }
      var found := if previous.Some? then Some(entries[previous.value]) else None;
      NumberStep(entries[..i], e.blob, found);
      var expected := if previous.Some? then entries[previous.value].ordinal
                      else totals.uniqueCount;
      if e.ordinal != expected {
        WrongOrdinal(entries, i);
        return Some(NoncanonicalOrdinal);
      }
      totals := AddTotals(totals, e.blob.byteLength, previous.Some?);
      i := i + 1;
    }
    assert entries[..i] == entries;
    return if totals == declared then None else Some(TotalsMismatch);
  }

  lemma ProperMeans(row: Row, i: nat)
    ensures ProperRow(row, i)
            <==> && row.kind == i && row.abi != 0 && row.entry.blob.byteLength != 0
                 && row.typed != ZERO_DIGEST && row.entry.blob.sha != ZERO_DIGEST
  {
  }

  lemma BlobsMore(entries: seq<Entry>, e: Entry)
    ensures Blobs(entries + [e]) == Blobs(entries) + [e.blob]
  {
  }

  lemma {:induction false} EntriesTotal(entries: seq<Entry>, n: nat)
    requires n <= |entries|
    ensures TotalBytes(Blobs(entries[..n])) <= TotalBytes(Blobs(entries))
    decreases |entries|
  {
    if n < |entries| {
      var m := |entries| - 1;
      EntriesTotal(entries[..m], n);
      assert entries[..m][..n] == entries[..n];
      assert Blobs(entries)[..m] == Blobs(entries[..m]);
    } else {
      assert entries[..n] == entries;
    }
  }

  /** What encoding numbers decoding accepts, and no other ordinals or totals for those blobs. */
  lemma NumberedIsAccepted(rows: seq<Row>, items: seq<Item>, numbered: seq<Entry>,
    declared: Totals)
    requires |rows| == OBJECT_COUNT && ProperRows(rows) && Blobs(Entries(rows)) == Refs(items)
    requires Blobs(numbered) == Refs(items) && CanonicalTable(numbered)
    requires TotalBytes(Refs(items)) <= U64_MAX
    ensures TableAccepted(rows, declared)
            <==> Entries(rows) == numbered && declared == TotalsOf(Refs(items))
  {
    hide Uniques, IndexOf, TotalBytes, ProperRow, Consistent;
    var entries := Entries(rows);
    if TableAccepted(rows, declared) {
      forall i | 0 <= i < |entries| ensures entries[i] == numbered[i] {
        assert entries[i].blob == Blobs(entries)[i] == Blobs(numbered)[i];
      }
      assert entries == numbered;
    }
  }

  lemma EmptyTable(entries: seq<Entry>)
    ensures CanonicalTable(entries[..0])
    ensures TotalsOf(Blobs(entries[..0])) == Totals(0, 0, 0)
  {
  }

  lemma NotConsistent(entries: seq<Entry>, i: nat, previous: Entry)
    requires i < |entries| && previous in entries[..i]
    requires previous.blob.sha == entries[i].blob.sha
    requires previous.blob.byteLength != entries[i].blob.byteLength
    ensures !CanonicalTable(entries)
  {
    var refs := Blobs(entries);
    var k :| 0 <= k < i && entries[k] == previous;
    assert refs[k].sha == refs[i].sha && refs[k].byteLength != refs[i].byteLength;
  }

  /** A wrong number cannot become right by what follows. */
  lemma WrongOrdinal(entries: seq<Entry>, i: nat)
    requires i < |entries|
    requires entries[i].ordinal != IndexOf(Uniques(Blobs(entries[..i])), entries[i].blob.sha)
    ensures !CanonicalTable(entries)
  {
    hide Uniques, IndexOf;
    var refs := Blobs(entries);
    assert Blobs(entries[..i]) == refs[..i];
    assert refs[..i + 1] == refs[..i] + [refs[i]];
    OrdinalsStable(refs[..i], refs[i], i);
    OrdinalAtPrefix(refs, i + 1, i);
  }

  lemma {:induction false} OrdinalAtPrefix(refs: seq<BlobRef>, n: nat, i: nat)
    requires i < n <= |refs|
    ensures Ordinal(refs[..n], i) == Ordinal(refs, i)
  {
    if n == |refs| {
      assert refs[..n] == refs;
    } else {
      var m := |refs| - 1;
      OrdinalAtPrefix(refs[..m], n, i);
      assert refs[..m][..n] == refs[..n];
      assert refs == refs[..m] + [refs[m]];
      OrdinalsStable(refs[..m], refs[m], i);
    }
  }
}
