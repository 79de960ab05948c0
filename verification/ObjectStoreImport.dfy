/** Importing a whole bundle: all of it or nothing, each distinct blob once. */
module ObjectStoreImport {
  import opened Bytes
  import opened ObjectStore
  import opened ObjectStoreRules
  import opened ContinuationBundle

  datatype Trail = Trail(content: Content, actions: seq<Placed>)

  function PutItem(cfg: Config, st: Content, item: Item): Outcome<Placed> {
    Put(cfg, st, item.blob, item.payload, cfg.grant.bundle)
  }

  /** Putting the items one after another, remembering what each put did. */
  function PutAll(cfg: Config, st: Content, items: seq<Item>): (r: Result<Trail, StoreError>)
    ensures r.Success? ==> |r.value.actions| == |items|
  {
    if items == [] then Success(Trail(st, []))
    else
      var n := |items| - 1;
      var before := PutAll(cfg, st, items[..n]);
      if before.Failure? then before
      else
        var put := PutItem(cfg, before.value.content, items[n]);
        if put.reply.Failure? then Failure(put.reply.error)
        else Success(Trail(put.content, before.value.actions + [put.reply.value]))
  }

  /**
   * An import puts every item or rolls all of them back; only then does it take a snapshot,
   * which verifies the whole store and is outside the rollback.
   */
  function Import(cfg: Config, st: Content, items: seq<Item>): Outcome<seq<Placed>> {
    var refused := Refused(cfg, st, OPERATION_PUT);
    if refused.Some? then Outcome(st, Failure(refused.value))
    else
      var all := PutAll(cfg, st, items);
      if all.Failure? then Outcome(st, Failure(all.error))
      else
        var after := all.value.content;
        var unverified := Refused(cfg, after, OPERATION_VERIFY);
        if unverified.Some? then Outcome(after, Failure(unverified.value))
        else if !AllIntact(cfg, after.slots) then Outcome(after, Failure(CorruptPayload))
        else Outcome(after, Success(all.value.actions))
  }

  // ---------------------------------------------------------------------------------------
  // Undoing
  // ---------------------------------------------------------------------------------------

  predicate Undoable(st: Content, a: Placed) {
    && a.index < |st.slots| && st.slots[a.index].Some?
    && (!a.inserted ==> st.slots[a.index].value.references > 0)
  }

  /** What rolling back one put does. */
  function Undo(st: Content, a: Placed): Content
    requires Undoable(st, a)
  {
    var s := st.slots[a.index].value;
    if a.inserted then SetSlot(st, a.index, None).(insertions := st.insertions - 1)
    else SetSlot(st, a.index, Some(s.(references := s.references - 1)))
  }

  /** Rolling back a put gives back exactly the store before it. */
  lemma PutUndone(cfg: Config, st: Content, item: Item)
    requires PutItem(cfg, st, item).reply.Success?
    ensures var put := PutItem(cfg, st, item);
            Undoable(put.content, put.reply.value)
            && Undo(put.content, put.reply.value) == st
  {
    hide Sum, BlobOf, FindDigestFrom, FirstEmptyFrom;
    var put := PutItem(cfg, st, item);
    var i := put.reply.value.index;
    assert st.slots[i := put.content.slots[i]][i := st.slots[i]] == st.slots;
  }

  /** What an inserted slot looks like right after its put. */
  lemma PutShape(cfg: Config, st: Content, item: Item)
    requires PutItem(cfg, st, item).reply.Success?
    ensures var put := PutItem(cfg, st, item);
            var a := put.reply.value;
            && a.index < |put.content.slots| && put.content.slots[a.index].Some?
            && var s := put.content.slots[a.index].value;
               && s.state == SlotLive && s.references > 0 && s.blob == item.blob
               && (a.inserted ==> !s.lease.active && s.references == 1 && s.repairs == 0)
  {
    hide Sum, BlobOf, FindDigestFrom, FirstEmptyFrom;
    var found := FindDigestFrom(st.slots, item.blob.sha, 0);
    if found.Some? {
      var s := st.slots[found.value].value;
      assert s.state.SlotLive?;
    }
  }

  // ---------------------------------------------------------------------------------------
  // Importing into an empty store
  // ---------------------------------------------------------------------------------------

  /** The first slots hold the distinct blobs in order, and the rest are empty. */
  predicate Filled(slots: Slots, u: seq<BlobRef>) {
    && |u| <= |slots|
    && (forall j | 0 <= j < |u| :: slots[j].Some? && slots[j].value.blob == u[j])
    && (forall j | |u| <= j < |slots| :: slots[j].None?)
  }

  function Inserted(actions: seq<Placed>): nat {
    if actions == [] then 0
    else Inserted(actions[..|actions| - 1])
         + if actions[|actions| - 1].inserted then 1 else 0
  }

  /** The payload bytes that the inserting puts brought. */
  function BytesAdded(items: seq<Item>, actions: seq<Placed>): nat
    requires |items| == |actions|
  {
    if actions == [] then 0
    else
      var n := |actions| - 1;
      BytesAdded(items[..n], actions[..n])
      + if actions[n].inserted then items[n].blob.byteLength else 0
  }

  lemma {:induction false} DigestAt(slots: Slots, u: seq<BlobRef>, sha: Digest, from: nat)
    requires Filled(slots, u) && from <= |u|
    ensures FindDigestFrom(slots, sha, from)
            == (var i := IndexOf(u[from..], sha);
                if i < |u| - from then Some(from + i) else None)
    decreases |u| - from
  {
    if from < |u| {
      assert u[from..][1..] == u[from + 1..];
      if u[from].sha != sha {
        DigestAt(slots, u, sha, from + 1);
      }
    } else {
      NoneHeld(slots, sha, from);
    }
  }

  lemma {:induction false} NoneHeld(slots: Slots, sha: Digest, from: nat)
    requires from <= |slots| && forall j | from <= j < |slots| :: slots[j].None?
    ensures FindDigestFrom(slots, sha, from) == None
    decreases |slots| - from
  {
    if from < |slots| {
      NoneHeld(slots, sha, from + 1);
    }
  }

  lemma {:induction false} EmptyAt(slots: Slots, u: seq<BlobRef>, from: nat)
    requires Filled(slots, u) && from <= |u|
    ensures FirstEmptyFrom(slots, from)
            == if |u| < |slots| then Some(|u|) else None
    decreases |u| - from
  {
    if from < |u| {
      EmptyAt(slots, u, from + 1);
    }
  }

  lemma FoundInFilled(slots: Slots, u: seq<BlobRef>, sha: Digest)
    requires Filled(slots, u)
    ensures var i := IndexOf(u, sha);
            FindDigestFrom(slots, sha, 0) == if i < |u| then Some(i) else None
    ensures FirstEmptyFrom(slots, 0) == if |u| < |slots| then Some(|u|) else None
  {
    hide Filled, IndexOf, FindDigestFrom, FirstEmptyFrom;
    FilledFits(slots, u);
    assert u[0..] == u;
    DigestAt(slots, u, sha, 0);
    EmptyAt(slots, u, 0);
  }

  lemma FilledFits(slots: Slots, u: seq<BlobRef>)
    requires Filled(slots, u)
    ensures |u| <= |slots|
  {
  }

  /** One put into a filled store reuses the slot of its ordinal or takes the next one. */
  lemma PutFills(cfg: Config, st: Content, u: seq<BlobRef>, item: Item)
    requires Filled(st.slots, u) && PutItem(cfg, st, item).reply.Success?
    ensures var put := PutItem(cfg, st, item);
            var i := IndexOf(u, item.blob.sha);
            && put.reply.value.index == i
            && (put.reply.value.inserted <==> !Mentions(u, item.blob.sha))
            && Filled(put.content.slots, if i < |u| then u else u + [item.blob])
            && (i < |u| ==> u[i] == item.blob)
  {
    hide PutItem, IndexOf, FindDigestFrom, FirstEmptyFrom, Mentions, Filled;
    FoundInFilled(st.slots, u, item.blob.sha);
    MentionedAt(u, item.blob.sha);
    PutEffect(cfg, st, item);
    var put := PutItem(cfg, st, item);
    FilledStep(st.slots, u, put.reply.value.index, put.content.slots, item.blob);
  }

  lemma MentionedAt(u: seq<BlobRef>, sha: Digest)
    ensures IndexOf(u, sha) == |u| <==> !Mentions(u, sha)
    ensures IndexOf(u, sha) <= |u|
  {
  }

  /** A filled store with one slot set is filled by the same blobs or by one more. */
  lemma FilledStep(slots: Slots, u: seq<BlobRef>, i: nat, after: Slots, blob: BlobRef)
    requires Filled(slots, u) && i <= |u| && i < |slots| && |after| == |slots|
    requires after == slots[i := after[i]] && after[i].Some? && after[i].value.blob == blob
    requires i < |u| ==> slots[i].value.blob == blob
    ensures Filled(after, if i < |u| then u else u + [blob])
    ensures i < |u| ==> u[i] == blob
  {
  }

  /** Where a successful put goes and what it leaves there. */
  lemma PutEffect(cfg: Config, st: Content, item: Item)
    requires PutItem(cfg, st, item).reply.Success?
    ensures var put := PutItem(cfg, st, item);
            var found := FindDigestFrom(st.slots, item.blob.sha, 0);
            var free := FirstEmptyFrom(st.slots, 0);
            var i := put.reply.value.index;
            && i < |st.slots| && |put.content.slots| == |st.slots|
            && put.content.slots == st.slots[i := put.content.slots[i]]
            && put.content.slots[i].Some? && put.content.slots[i].value.blob == item.blob
            && (put.reply.value.inserted <==> found.None?)
            && (found.Some? ==> i == found.value && st.slots[i].value.blob == item.blob)
            && (found.None? ==> free == Some(i))
  {
    hide Sum, BlobOf, FindDigestFrom, FirstEmptyFrom;
  }

  /**
   * Into an empty store a bundle adds exactly its distinct blobs and their bytes, and slot `i`
   * holds the blob of ordinal `i`.
   */
  lemma {:induction false} ImportFills(cfg: Config, st: Content, items: seq<Item>)
    requires Filled(st.slots, []) && PutAll(cfg, st, items).Success?
    ensures var all := PutAll(cfg, st, items).value;
            var refs := Refs(items);
            && Filled(all.content.slots, Uniques(refs))
            && Inserted(all.actions) == |Uniques(refs)|
            && BytesAdded(items, all.actions) == TotalBytes(Uniques(refs))
            && Consistent(refs)
            && forall i | 0 <= i < |items| :: all.actions[i].index == Ordinal(refs, i)
  {
    hide PutItem, Uniques, Consistent, Filled, TotalBytes, Refs, Inserted, BytesAdded, Ordinal;
    if items == [] {
      NoItems();
    } else {
      var n := |items| - 1;
      ImportFills(cfg, st, items[..n]);
      assert items == items[..n] + [items[n]];
      FillStep(cfg, items[..n], items[n], PutAll(cfg, st, items[..n]).value);
    }
  }

  /** One more item of an import into a filled store. */
  lemma FillStep(cfg: Config, items: seq<Item>, item: Item, before: Trail)
    requires |before.actions| == |items| && PutItem(cfg, before.content, item).reply.Success?
    requires var refs := Refs(items);
             && Filled(before.content.slots, Uniques(refs))
             && Inserted(before.actions) == |Uniques(refs)|
             && BytesAdded(items, before.actions) == TotalBytes(Uniques(refs))
             && Consistent(refs)
             && forall i | 0 <= i < |items| :: before.actions[i].index == Ordinal(refs, i)
    ensures var put := PutItem(cfg, before.content, item);
            var refs := Refs(items + [item]);
            var actions := before.actions + [put.reply.value];
            && Filled(put.content.slots, Uniques(refs))
            && Inserted(actions) == |Uniques(refs)|
            && BytesAdded(items + [item], actions) == TotalBytes(Uniques(refs))
            && Consistent(refs)
            && forall i | 0 <= i < |items| + 1 :: actions[i].index == Ordinal(refs, i)
  {
    hide PutItem, Uniques, IndexOf, Consistent, Filled, Mentions, TotalBytes, Inserted, BytesAdded;
    var refs, ref := Refs(items), item.blob;
    var u := Uniques(refs);
    var a := PutItem(cfg, before.content, item).reply.value;
    assert Refs(items + [item]) == refs + [ref];
    UniquesAppend(refs, ref);
    PutFills(cfg, before.content, u, item);
    MentionedAt(u, ref.sha);
    TotalMore(u, ref);
    CountOneMore(items, item, before.actions, a);
    ConsistentMore(refs, ref);
    IndexesMore(refs, ref, before.actions, a);
  }

  lemma CountOneMore(items: seq<Item>, item: Item, actions: seq<Placed>, a: Placed)
    requires |actions| == |items|
    ensures Inserted(actions + [a]) == Inserted(actions) + if a.inserted then 1 else 0
    ensures BytesAdded(items + [item], actions + [a])
            == BytesAdded(items, actions) + if a.inserted then item.blob.byteLength else 0
  {
    assert (actions + [a])[..|actions|] == actions;
    assert (items + [item])[..|items|] == items;
  }

  lemma IndexesMore(refs: seq<BlobRef>, ref: BlobRef, actions: seq<Placed>, a: Placed)
    requires |actions| == |refs| && a.index == IndexOf(Uniques(refs), ref.sha)
    requires forall i | 0 <= i < |refs| :: actions[i].index == Ordinal(refs, i)
    ensures forall i | 0 <= i < |refs| + 1 ::
              (actions + [a])[i].index == Ordinal(refs + [ref], i)
  {
    hide Uniques, IndexOf;
    forall i | 0 <= i < |refs| + 1
      ensures (actions + [a])[i].index == Ordinal(refs + [ref], i)
    {
      OrdinalsStable(refs, ref, i);
      if i < |refs| {
        assert actions[i].index == Ordinal(refs, i);
      }
    }
  }

  lemma TotalMore(u: seq<BlobRef>, ref: BlobRef)
    ensures TotalBytes(u + [ref]) == TotalBytes(u) + ref.byteLength
  {
    assert (u + [ref])[..|u|] == u;
  }

  lemma NoItems()
    ensures Refs([]) == [] && Uniques([]) == [] && Consistent([]) && TotalBytes([]) == 0
    ensures Inserted([]) == 0 && BytesAdded([], []) == 0
  {
  }

  lemma ConsistentMore(refs: seq<BlobRef>, ref: BlobRef)
    requires Consistent(refs)
    requires var u := Uniques(refs);
             IndexOf(u, ref.sha) < |u| ==> u[IndexOf(u, ref.sha)] == ref
    ensures Consistent(refs + [ref])
  {
    hide Uniques;
    var all := refs + [ref];
    forall i, j | 0 <= i < j < |all| && all[i].sha == all[j].sha
      ensures all[i].byteLength == all[j].byteLength
    {
      if j == |refs| {
        OrdinalNames(refs, i);
        assert Ordinal(refs, i) == IndexOf(Uniques(refs), ref.sha);
      } else {
        assert all[i] == refs[i] && all[j] == refs[j];
      }
    }
  }

  lemma {:induction false} PutAllGood(cfg: Config, st: Content, items: seq<Item>)
    requires StoreGood(cfg, st.slots) && PutAll(cfg, st, items).Success?
    ensures StoreGood(cfg, PutAll(cfg, st, items).value.content.slots)
  {
    hide StoreGood, Put;
    if items != [] {
      var n := |items| - 1;
      PutAllGood(cfg, st, items[..n]);
      var before := PutAll(cfg, st, items[..n]).value.content;
      PutGood(cfg, before, items[n].blob, items[n].payload, cfg.grant.bundle);
    }
  }

  lemma {:induction false} PutAllPrefix(cfg: Config, st: Content, items: seq<Item>, k: nat)
    requires k <= |items| && PutAll(cfg, st, items[..k]).Failure?
    ensures PutAll(cfg, st, items).Failure?
    ensures PutAll(cfg, st, items) == PutAll(cfg, st, items[..k])
  {
    hide PutItem;
    if k == |items| {
      assert items[..k] == items;
    } else {
      assert items[..|items| - 1][..k] == items[..k];
      PutAllPrefix(cfg, st, items[..|items| - 1], k);
    }
  }

  // ---------------------------------------------------------------------------------------
  // Atomicity
  // ---------------------------------------------------------------------------------------

  lemma PutAddsReference(cfg: Config, st: Content, item: Item)
    requires PutItem(cfg, st, item).reply.Success?
    ensures Sum(PutItem(cfg, st, item).content.slots, References)
            == Sum(st.slots, References) + 1
  {
    hide Sum, BlobOf, FindDigestFrom, FirstEmptyFrom;
    var put := PutItem(cfg, st, item);
    var i := put.reply.value.index;
    SumUpdate(st.slots, i, put.content.slots[i], References);
    assert put.content.slots == st.slots[i := put.content.slots[i]];
  }

  lemma {:induction false} PutAllAddsReferences(cfg: Config, st: Content, items: seq<Item>)
    requires PutAll(cfg, st, items).Success?
    ensures Sum(PutAll(cfg, st, items).value.content.slots, References)
            == Sum(st.slots, References) + |items|
  {
    hide PutItem, Sum;
    if items != [] {
      var n := |items| - 1;
      PutAllAddsReferences(cfg, st, items[..n]);
      PutAddsReference(cfg, PutAll(cfg, st, items[..n]).value.content, items[n]);
    }
  }

  /**
   * When an import is not atomic: it fails and yet leaves the store changed exactly when every
   * put succeeded but the closing verification is not granted or meets a corrupt payload.
   */
  lemma ImportAtomicExactly(cfg: Config, st: Content, items: seq<Item>)
    requires items != []
    ensures var o := Import(cfg, st, items);
            var all := PutAll(cfg, st, items);
            (o.reply.Failure? && o.content != st)
            <==> && Refused(cfg, st, OPERATION_PUT).None? && all.Success?
                 && (!HasBit(cfg.grant.operations, OPERATION_VERIFY)
                     || !AllIntact(cfg, all.value.content.slots))
  {
    hide PutAll, Sum, AllIntact, HasBit;
    if PutAll(cfg, st, items).Success? {
      PutAllAddsReferences(cfg, st, items);
      PutAllOpen(cfg, st, items);
    }
  }

  lemma {:induction false} PutAllOpen(cfg: Config, st: Content, items: seq<Item>)
    requires PutAll(cfg, st, items).Success?
    ensures PutAll(cfg, st, items).value.content.closed == st.closed
  {
    hide Sum, BlobOf, FindDigestFrom, FirstEmptyFrom;
    if items != [] {
      PutAllOpen(cfg, st, items[..|items| - 1]);
    }
  }

  lemma {:induction false} PutAllIntact(cfg: Config, st: Content, items: seq<Item>)
    requires AllIntact(cfg, st.slots) && PutAll(cfg, st, items).Success?
    ensures AllIntact(cfg, PutAll(cfg, st, items).value.content.slots)
  {
    hide PutItem, AllIntact;
    if items != [] {
      var n := |items| - 1;
      PutAllIntact(cfg, st, items[..n]);
      PutKeepsIntact(cfg, PutAll(cfg, st, items[..n]).value.content, items[n]);
    }
  }

  lemma PutKeepsIntact(cfg: Config, st: Content, item: Item)
    requires AllIntact(cfg, st.slots)
    ensures AllIntact(cfg, PutItem(cfg, st, item).content.slots)
  {
    hide Sum, BlobOf;
  }

  /**
   * On a store whose payloads are intact and whose grant allows verification an import is
   * atomic: when it fails nothing has changed.
   */
  lemma ImportAtomic(cfg: Config, st: Content, items: seq<Item>)
    requires AllIntact(cfg, st.slots) && HasBit(cfg.grant.operations, OPERATION_VERIFY)
    requires Import(cfg, st, items).reply.Failure?
    ensures Import(cfg, st, items).content == st
  {
    hide PutAll, AllIntact, HasBit;
    if PutAll(cfg, st, items).Success? {
      PutAllIntact(cfg, st, items);
      PutAllOpen(cfg, st, items);
    }
  }
}
