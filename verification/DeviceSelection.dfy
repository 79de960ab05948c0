/**
 * Device selection (bench/device_capability_contract.py): which device serves a requirement
 * depends on the set of inventory entries, never on their order.
 */
module DeviceSelection {
  import opened Bytes
  import opened Outbox
  import opened ObjectStoreReclaim
  import opened ObjectSweep

  const MAXIMUM_INVENTORY_ENTRIES := 32

  const CAPABILITY_ABI: u64 := 0x4744_4341_0000_0001
  const INVENTORY_ENTRY_ABI: u64 := 0x4744_4945_0000_0001
  const REQUIREMENT_ABI: u64 := 0x4744_5251_0000_0001
  const SELECTION_RECEIPT_ABI: u64 := 0x4744_5352_0000_0001

  const CAPABILITY_DOMAIN := Ascii("glacier-device-capability-v1\0")
  const INVENTORY_ENTRY_DOMAIN := Ascii("glacier-device-inventory-entry-v1\0")
  const INVENTORY_DOMAIN := Ascii("glacier-device-inventory-v1\0")
  const REQUIREMENT_DOMAIN := Ascii("glacier-device-requirement-v1\0")
  const SELECTION_DOMAIN := Ascii("glacier-device-selection-v1\0")

  datatype DeviceClass = CpuDevice | Accelerator
  datatype Backend = CpuBackend | MetalBackend | PortableBackend | ProviderBackend
  datatype Presence = Present | Unavailable | Lost
  datatype Fallback = FallbackForbidden | FallbackExplicitCpu

  /** What a device offers or a plan needs: profiles, operators, elements, policies, features. */
  datatype Bits = Bits(profiles: bv8, operators: bv8, elements: bv8, policies: bv8, features: bv8)

  datatype Capability = Capability(
    abi: u64, backend: Backend, class_: DeviceClass, bits: Bits, maxSingle: u64, maxTotal: u64,
    maxQueue: u64, backendSha: Digest, deviceSha: Digest, driverSha: Digest,
    placementSha: Digest, root: Digest)

  datatype Entry = Entry(
    abi: u64, epoch: u64, rank: u64, state: Presence, capability: Capability, root: Digest)

  datatype Requirement = Requirement(
    abi: u64, plan: Digest, class_: DeviceClass, bits: Bits, largest: u64, total: u64,
    queue: u64, fallback: Fallback, pinned: Digest, root: Digest)

  datatype Receipt = Receipt(
    inventoryCount: nat, compatibleCount: nat, epoch: u64, rank: u64, backend: Backend,
    class_: DeviceClass, fallbackUsed: bool, requirement: Digest, inventory: Digest,
    capability: Digest, entry: Digest, root: Digest)

  datatype SelectionError =
    | InvalidRequirement | BadInventory | NoCompatibleDevice | InvalidReceipt

  // ---------------------------------------------------------------------------------------
  // Roots and validation
  // ---------------------------------------------------------------------------------------

  function BackendCode(b: Backend): u64 {
    match b
    case CpuBackend => 1
    case MetalBackend => 2
    case PortableBackend => 3
    case ProviderBackend => 4
  }

  function ClassNumber(c: DeviceClass): u64 {
    match c
    case CpuDevice => 1
    case Accelerator => 2
  }

  function StateNumber(s: Presence): u64 {
    match s
    case Present => 1
    case Unavailable => 2
    case Lost => 3
  }

  function FallbackNumber(f: Fallback): u64 {
    match f
    case FallbackForbidden => 1
    case FallbackExplicitCpu => 2
  }

  function BitWords(b: Bits): (ws: seq<u64>)
    ensures |ws| == 5
  {
    [b.profiles as int, b.operators as int, b.elements as int, b.policies as int,
     b.features as int]
  }

  function CapabilityRoot(sha: Sha, c: Capability): Digest {
    sha(CAPABILITY_DOMAIN
        + PackWords([c.abi, BackendCode(c.backend), ClassNumber(c.class_)] + BitWords(c.bits)
                    + [c.maxSingle, c.maxTotal, c.maxQueue])
        + c.backendSha + c.deviceSha + c.driverSha + c.placementSha)
  }

  function EntryRoot(sha: Sha, e: Entry): Digest {
    sha(INVENTORY_ENTRY_DOMAIN
        + PackWords([e.abi, e.epoch, e.rank, StateNumber(e.state)]) + e.capability.root)
  }

  function RequirementRoot(sha: Sha, r: Requirement): Digest {
    sha(REQUIREMENT_DOMAIN + LE64(r.abi) + r.plan
        + PackWords([ClassNumber(r.class_)] + BitWords(r.bits)
                    + [r.largest, r.total, r.queue, FallbackNumber(r.fallback)])
        + r.pinned)
  }

  /** The operators, elements and policies that a set of profiles implies. */
  predicate ImpliedBits(b: Bits) {
    var p1, p2, p4 := b.profiles & 1 != 0, b.profiles & 2 != 0, b.profiles & 4 != 0;
    && b.profiles != 0 && b.profiles & 0xF8 == 0
    && b.operators == b.profiles
    && b.elements == (if p1 then 3 else 0) | (if p2 then 2 else 0) | (if p4 then 5 else 0)
    && b.policies == (if p1 || p2 then 4 else 0) | (if p4 then 2 else 0)
  }

  /** `feature` is only claimed together with its prerequisite. */
  predicate Needs(features: bv8, feature: bv8, prerequisite: bv8) {
    features & feature != 0 ==> features & prerequisite != 0
  }

  predicate ValidCapability(sha: Sha, c: Capability) {
    var f := c.bits.features;
    && c.abi == CAPABILITY_ABI && ImpliedBits(c.bits) && f != 0
    && c.backendSha != ZERO_DIGEST && c.deviceSha != ZERO_DIGEST && c.placementSha != ZERO_DIGEST
    && (c.backend == CpuBackend <==> c.class_ == CpuDevice)
    && (c.maxSingle == 0 || c.maxTotal == 0 || c.maxSingle <= c.maxTotal)
    && Needs(f, 2, 1) && Needs(f, 4, 2) && Needs(f, 8, 1) && Needs(f, 16, 4) && Needs(f, 32, 1)
    && Needs(f, 64, 2) && Needs(f, 128, 2)
    && c.root != ZERO_DIGEST && c.root == CapabilityRoot(sha, c)
  }

  predicate ValidEntry(sha: Sha, e: Entry) {
    && e.abi == INVENTORY_ENTRY_ABI && e.epoch != 0 && ValidCapability(sha, e.capability)
    && e.root != ZERO_DIGEST && e.root == EntryRoot(sha, e)
  }

  predicate ValidRequirement(sha: Sha, r: Requirement) {
    && r.abi == REQUIREMENT_ABI && r.plan != ZERO_DIGEST && ImpliedBits(r.bits)
    && r.total != 0 && r.largest <= r.total && r.queue != 0
    && (r.fallback == FallbackExplicitCpu ==> r.class_ == Accelerator)
    && (r.pinned != ZERO_DIGEST ==> r.fallback == FallbackForbidden)
    && r.root != ZERO_DIGEST && r.root == RequirementRoot(sha, r)
  }

  /** Two entries that may not be in one inventory. */
  predicate Clash(a: Entry, b: Entry) {
    || a.root == b.root || a.capability.root == b.capability.root
    || (a.capability.backendSha == b.capability.backendSha
        && a.capability.deviceSha == b.capability.deviceSha)
  }

  predicate NoClash(es: seq<Entry>) {
    forall i, j | 0 <= i < j < |es| :: !Clash(es[i], es[j])
  }

  predicate ValidInventory(sha: Sha, es: seq<Entry>) {
    && 0 < |es| <= MAXIMUM_INVENTORY_ENTRIES && NoClash(es)
    && forall i | 0 <= i < |es| :: ValidEntry(sha, es[i])
  }

  function Roots(es: seq<Entry>): seq<Digest> {
    if es == [] then [] else Roots(es[..|es| - 1]) + [es[|es| - 1].root]
  }

  function InsertRoot(sorted: seq<Digest>, d: Digest): seq<Digest> {
    if sorted == [] || LexLeq(d, sorted[0]) then [d] + sorted
    else [sorted[0]] + InsertRoot(sorted[1..], d)
  }

  function SortRoots(ds: seq<Digest>): seq<Digest> {
    if ds == [] then [] else InsertRoot(SortRoots(ds[..|ds| - 1]), ds[|ds| - 1])
  }

  function InventoryRoot(sha: Sha, es: seq<Entry>): Digest
    requires |es| <= U64_MAX
  {
    sha(INVENTORY_DOMAIN + LE64(|es|) + JoinDigests(SortRoots(Roots(es))))
  }

  // ---------------------------------------------------------------------------------------
  // Selection
  // ---------------------------------------------------------------------------------------

  predicate Covers(offered: Bits, needed: Bits) {
    && needed.profiles & !offered.profiles == 0 && needed.operators & !offered.operators == 0
    && needed.elements & !offered.elements == 0 && needed.policies & !offered.policies == 0
    && needed.features & !offered.features == 0
  }

  predicate Satisfies(c: Capability, r: Requirement) {
    && Covers(c.bits, r.bits)
    && (r.largest != 0 ==> c.maxSingle != 0 && c.maxSingle >= r.largest)
    && c.maxTotal != 0 && c.maxTotal >= r.total && c.maxQueue != 0 && c.maxQueue >= r.queue
  }

  /** A present device of this class that meets the requirement. */
  predicate Compatible(r: Requirement, class_: DeviceClass, e: Entry) {
    e.state == Present && e.capability.class_ == class_ && Satisfies(e.capability, r)
  }

  function CompatibleEntries(r: Requirement, class_: DeviceClass, es: seq<Entry>): seq<Entry> {
    if es == [] then []
    else
      var n := |es| - 1;
      CompatibleEntries(r, class_, es[..n])
      + if Compatible(r, class_, es[n]) then [es[n]] else []
  }

  /** Policy rank first, capability root second. */
  predicate KeyBefore(a: Entry, b: Entry) {
    a.rank < b.rank || (a.rank == b.rank && LexLeq(a.capability.root, b.capability.root))
  }

  /** The first entry with the least key. */
  function Least(es: seq<Entry>): (e: Entry)
    requires es != []
    ensures e in es
  {
    if |es| == 1 then es[0]
    else
      var best := Least(es[..|es| - 1]);
      if KeyBefore(best, es[|es| - 1]) then best else es[|es| - 1]
  }

  function MakeReceipt(sha: Sha, r: Requirement, es: seq<Entry>, e: Entry, count: nat,
    fallback: bool): Receipt
    requires |es| <= MAXIMUM_INVENTORY_ENTRIES && count <= MAXIMUM_INVENTORY_ENTRIES
  {
    var c := Receipt(|es|, count, e.epoch, e.rank, e.capability.backend, e.capability.class_,
                     fallback, r.root, InventoryRoot(sha, es), e.capability.root, e.root,
                     ZERO_DIGEST);
    c.(root := ReceiptRoot(sha, c))
  }

  function ReceiptRoot(sha: Sha, c: Receipt): Digest
    requires c.inventoryCount <= U64_MAX && c.compatibleCount <= U64_MAX
  {
    sha(SELECTION_DOMAIN
        + PackWords([SELECTION_RECEIPT_ABI, c.inventoryCount, c.compatibleCount, c.epoch, c.rank,
                     BackendCode(c.backend), ClassNumber(c.class_),
                     if c.fallbackUsed then 1 else 0])
        + c.requirement + c.inventory + c.capability + c.entry)
  }

  /** What any receipt must look like, whatever it was made from. */
  predicate ReceiptShape(sha: Sha, c: Receipt) {
    && 0 < c.inventoryCount <= MAXIMUM_INVENTORY_ENTRIES
    && 0 < c.compatibleCount <= c.inventoryCount && c.epoch != 0
    && c.requirement != ZERO_DIGEST && c.inventory != ZERO_DIGEST
    && c.capability != ZERO_DIGEST && c.entry != ZERO_DIGEST && c.root != ZERO_DIGEST
    && c.root == ReceiptRoot(sha, c)
    && (c.backend == CpuBackend <==> c.class_ == CpuDevice)
    && (c.fallbackUsed ==> c.class_ == CpuDevice)
  }

  function FindPinned(es: seq<Entry>, pinned: Digest): (r: Option<Entry>)
    ensures r.Some? ==> r.value in es && r.value.capability.root == pinned
    ensures r.None? ==> forall e | e in es :: e.capability.root != pinned
  {
    if es == [] then None
    else if es[0].capability.root == pinned then Some(es[0])
    else FindPinned(es[1..], pinned)
  }

  /** The chosen entry, how many were compatible, and whether it is a CPU standing in. */
  datatype Choice = Choice(entry: Entry, count: nat, fallback: bool)

  function Choose(r: Requirement, es: seq<Entry>): (c: Result<Choice, SelectionError>)
    ensures c.Success? ==> c.value.entry in es
  {
    if r.pinned != ZERO_DIGEST then
      var e := FindPinned(es, r.pinned);
      if e.None? || !Compatible(r, r.class_, e.value) then Failure(NoCompatibleDevice)
      else Success(Choice(e.value, 1, false))
    else
      var exact := CompatibleEntries(r, r.class_, es);
      CompatibleExact(r, r.class_, es);
      if exact != [] then Success(Choice(Least(exact), |exact|, false))
      else if r.fallback != FallbackExplicitCpu || r.class_ != Accelerator then
        Failure(NoCompatibleDevice)
      else
        var cpus := CompatibleEntries(r, CpuDevice, es);
        CompatibleExact(r, CpuDevice, es);
        if cpus == [] then Failure(NoCompatibleDevice)
        else Success(Choice(Least(cpus), |cpus|, true))
  }

  function SelectDevice(sha: Sha, r: Requirement, es: seq<Entry>)
    : Result<Receipt, SelectionError>
  {
    if !ValidRequirement(sha, r) then Failure(InvalidRequirement)
    else if es == [] then Failure(NoCompatibleDevice)
    else if !ValidInventory(sha, es) then Failure(BadInventory)
    else
      var c := Choose(r, es);
      if c.Failure? then Failure(c.error)
      else
        ChoiceBounded(r, es);
        var receipt := MakeReceipt(sha, r, es, c.value.entry, c.value.count, c.value.fallback);
        if ReceiptShape(sha, receipt) then Success(receipt) else Failure(InvalidReceipt)
  }

  lemma ChoiceBounded(r: Requirement, es: seq<Entry>)
    requires Choose(r, es).Success? && es != []
    ensures Choose(r, es).value.count <= |es|
  {
    hide Least, Compatible;
    CompatibleExact(r, r.class_, es);
    CompatibleExact(r, CpuDevice, es);
  }

  /** The stand-alone validator: the shape first, then a replay of the selection. */
  predicate ValidReceipt(sha: Sha, c: Receipt, r: Requirement, es: seq<Entry>) {
    && ReceiptShape(sha, c)
    && SelectDevice(sha, r, es).Success? && SelectDevice(sha, r, es).value == c
  }

  /**
   * The shape check never rejects an honest receipt: one made for a valid requirement and
   * inventory fails it only for an inventory root or a receipt root that is zero.
   */
  lemma MadeReceiptShaped(sha: Sha, r: Requirement, es: seq<Entry>)
    requires ValidRequirement(sha, r) && ValidInventory(sha, es) && Choose(r, es).Success?
    ensures Choose(r, es).value.count <= MAXIMUM_INVENTORY_ENTRIES
    ensures var c := Choose(r, es).value;
            var made := MakeReceipt(sha, r, es, c.entry, c.count, c.fallback);
            ReceiptShape(sha, made)
            <==> made.inventory != ZERO_DIGEST && made.root != ZERO_DIGEST
  {
    hide Choose, Clash, InventoryRoot, Satisfies;
    ChoiceBounded(r, es);
    ChoiceCounted(r, es);
    ChoiceIsLeast(r, es);
    var c := Choose(r, es).value;
    var k :| 0 <= k < |es| && es[k] == c.entry;
    assert ValidEntry(sha, es[k]);
  }

  lemma ChoiceCounted(r: Requirement, es: seq<Entry>)
    requires Choose(r, es).Success?
    ensures Choose(r, es).value.count > 0
  {
    hide Least, CompatibleEntries;
  }

  /** A receipt is valid exactly when replaying the selection yields it. */
  lemma ValidIsReplay(sha: Sha, c: Receipt, r: Requirement, es: seq<Entry>)
    ensures ValidReceipt(sha, c, r, es) <==> SelectDevice(sha, r, es) == Success(c)
  {
    hide ReceiptShape, Choose, ValidRequirement, ValidInventory;
  }

  // ---------------------------------------------------------------------------------------
  // What is selected
  // ---------------------------------------------------------------------------------------

  lemma {:induction false} CompatibleExact(r: Requirement, class_: DeviceClass, es: seq<Entry>)
    ensures forall e :: e in CompatibleEntries(r, class_, es)
              <==> e in es && Compatible(r, class_, e)
    ensures |CompatibleEntries(r, class_, es)| <= |es|
  {
    hide Compatible;
    if es != [] {
      CompatibleExact(r, class_, es[..|es| - 1]);
      assert es == es[..|es| - 1] + [es[|es| - 1]];
    }
  }

  lemma KeyTotal(a: Entry, b: Entry, c: Entry)
    ensures KeyBefore(a, b) || KeyBefore(b, a)
    ensures KeyBefore(a, b) && KeyBefore(b, c) ==> KeyBefore(a, c)
    ensures KeyBefore(a, b) && KeyBefore(b, a) ==> a.capability.root == b.capability.root
  {
    LexTotal(a.capability.root, b.capability.root);
    if KeyBefore(a, b) && KeyBefore(b, c) && a.rank == b.rank == c.rank {
      LexTransitive(a.capability.root, b.capability.root, c.capability.root);
    }
    if KeyBefore(a, b) && KeyBefore(b, a) {
      LexAntisymmetric(a.capability.root, b.capability.root);
    }
  }

  lemma {:induction false} LeastIsLeast(es: seq<Entry>)
    requires es != []
    ensures forall e | e in es :: KeyBefore(Least(es), e)
  {
    hide KeyBefore;
    var n := |es| - 1;
    KeyTotal(es[n], es[n], es[n]);
    if n > 0 {
      LeastIsLeast(es[..n]);
      var best := Least(es[..n]);
      KeyTotal(best, es[n], es[n]);
      forall e | e in es ensures KeyBefore(Least(es), e) {
        if e != es[n] {
          assert e in es[..n];
          KeyTotal(es[n], best, e);
        }
      }
    }
  }

  /**
   * The choice in full. A pinned capability is served by exactly its device or not at all.
   * Otherwise the choice is compatible and least by rank and capability root among all that
   * are, and a CPU serves an accelerator requirement only when that fallback is explicit and
   * no accelerator is compatible.
   */
  lemma ChoiceIsLeast(r: Requirement, es: seq<Entry>)
    requires Choose(r, es).Success?
    ensures var c := Choose(r, es).value;
            var class_ := if c.fallback then CpuDevice else r.class_;
            && c.entry in es && Compatible(r, class_, c.entry)
            && (r.pinned != ZERO_DIGEST ==>
                  c.entry.capability.root == r.pinned && !c.fallback)
            && (r.pinned == ZERO_DIGEST ==>
                  forall e | e in es && Compatible(r, class_, e) :: KeyBefore(c.entry, e))
            && (c.fallback ==>
                  && r.fallback == FallbackExplicitCpu && r.class_ == Accelerator
                  && forall e | e in es :: !Compatible(r, Accelerator, e))
  {
    hide KeyBefore, Compatible, Least, CompatibleEntries;
    CompatibleExact(r, r.class_, es);
    CompatibleExact(r, CpuDevice, es);
    var exact := CompatibleEntries(r, r.class_, es);
    var cpus := CompatibleEntries(r, CpuDevice, es);
    if exact != [] {
      LeastIsLeast(exact);
    }
    if cpus != [] {
      LeastIsLeast(cpus);
    }
    if r.pinned == ZERO_DIGEST && Choose(r, es).value.fallback {
      assert forall e | e in es :: Compatible(r, Accelerator, e) ==> e in exact;
    }
  }

  /** Selection over a valid inventory fails exactly when nothing at all may serve. */
  lemma ChoiceFails(r: Requirement, es: seq<Entry>)
    requires NoClash(es)
    ensures Choose(r, es).Failure? <==>
              if r.pinned != ZERO_DIGEST then
                forall e | e in es && e.capability.root == r.pinned :: !Compatible(r, r.class_, e)
              else
                && (forall e | e in es :: !Compatible(r, r.class_, e))
                && (r.fallback == FallbackExplicitCpu && r.class_ == Accelerator ==>
                      forall e | e in es :: !Compatible(r, CpuDevice, e))
  {
    hide Compatible, Least, CompatibleEntries, Clash;
    CompatibleExact(r, r.class_, es);
    CompatibleExact(r, CpuDevice, es);
    EmptyIff(CompatibleEntries(r, r.class_, es));
    EmptyIff(CompatibleEntries(r, CpuDevice, es));
    var e := FindPinned(es, r.pinned);
    if e.Some? {
      PinnedUnique(es, e.value, r.pinned);
    }
  }

  lemma EmptyIff(es: seq<Entry>)
    ensures es == [] <==> forall e :: e !in es
  {
    if es != [] {
      assert es[0] in es;
    }
  }

  lemma PinnedUnique(es: seq<Entry>, e: Entry, pinned: Digest)
    requires NoClash(es) && e in es && e.capability.root == pinned
    ensures forall f | f in es && f.capability.root == pinned :: f == e
  {
    forall f | f in es && f.capability.root == pinned ensures f == e {
      var i :| 0 <= i < |es| && es[i] == e;
      var j :| 0 <= j < |es| && es[j] == f;
      assert i == j;
    }
  }

  // ---------------------------------------------------------------------------------------
  // Order independence
  // ---------------------------------------------------------------------------------------

  predicate Permuted<T(==)>(a: seq<T>, b: seq<T>) {
    multiset(a) == multiset(b)
  }

  lemma PermutedMembers<T>(a: seq<T>, b: seq<T>)
    requires Permuted(a, b)
    ensures |a| == |b| && forall x :: x in a <==> x in b
  {
    assert |multiset(a)| == |a| && |multiset(b)| == |b|;
    forall x ensures x in a <==> x in b {
      assert x in a <==> x in multiset(a);
    }
  }

  /** Two equal elements at different places show in the multiset. */
  lemma TwiceCounted<T>(s: seq<T>, i: nat, j: nat)
    requires i < j < |s| && s[i] == s[j]
    ensures multiset(s)[s[i]] >= 2
  {
    assert s == s[..j] + [s[j]] + s[j + 1..];
    assert s[..j][i] == s[i] && s[i] in multiset(s[..j]);
  }

  lemma {:induction false} CountedTwice<T>(s: seq<T>, x: T)
    requires multiset(s)[x] >= 2
    ensures exists i, j :: 0 <= i < j < |s| && s[i] == x && s[j] == x
  {
    var n := |s| - 1;
    assert s == s[..n] + [s[n]];
    if s[n] == x {
      assert x in multiset(s[..n]);
      var i :| 0 <= i < n && s[i] == x;
      assert s[i] == x && s[n] == x;
    } else {
      CountedTwice(s[..n], x);
      var i, j :| 0 <= i < j < n && s[..n][i] == x && s[..n][j] == x;
      assert s[i] == x && s[j] == x;
    }
  }

  lemma NoTwin(s: seq<Entry>, e: Entry)
    requires NoClash(s)
    ensures multiset(s)[e] <= 1
  {
    if multiset(s)[e] >= 2 {
      CountedTwice(s, e);
    }
  }

  lemma ClashPermuted(a: seq<Entry>, b: seq<Entry>)
    requires Permuted(a, b) && NoClash(a)
    ensures NoClash(b)
  {
    PermutedMembers(a, b);
    forall i, j | 0 <= i < j < |b| ensures !Clash(b[i], b[j]) {
      assert b[i] in a && b[j] in a;
      if b[i] == b[j] {
        TwiceCounted(b, i, j);
        NoTwin(a, b[i]);
      } else {
        var p :| 0 <= p < |a| && a[p] == b[i];
        var q :| 0 <= q < |a| && a[q] == b[j];
        if p < q {
          assert !Clash(a[p], a[q]);
        } else {
          assert !Clash(a[q], a[p]);
        }
      }
    }
  }

  predicate RootsSorted(ds: seq<Digest>) {
    forall i, j | 0 <= i < j < |ds| :: LexLeq(ds[i], ds[j])
  }

  lemma {:induction false} InsertRootSorts(sorted: seq<Digest>, d: Digest)
    requires RootsSorted(sorted)
    ensures RootsSorted(InsertRoot(sorted, d))
    ensures multiset(InsertRoot(sorted, d)) == multiset(sorted) + multiset{d}
  {
    hide LexLeq;
    var r := InsertRoot(sorted, d);
    if sorted == [] || LexLeq(d, sorted[0]) {
      forall j | 0 < j < |r| ensures LexLeq(r[0], r[j]) {
        if j > 1 {
          LexTransitive(d, sorted[0], sorted[j - 1]);
        }
      }
    } else {
      InsertRootSorts(sorted[1..], d);
      assert sorted == [sorted[0]] + sorted[1..];
      var rest := InsertRoot(sorted[1..], d);
      forall j | 0 <= j < |rest| ensures LexLeq(sorted[0], rest[j]) {
        assert rest[j] in multiset(rest);
        if rest[j] == d {
          LexTotal(d, sorted[0]);
        } else {
          assert rest[j] in sorted[1..];
        }
      }
    }
  }

  lemma {:induction false} SortRootsSorts(ds: seq<Digest>)
    ensures RootsSorted(SortRoots(ds)) && multiset(SortRoots(ds)) == multiset(ds)
  {
    if ds != [] {
      var n := |ds| - 1;
      SortRootsSorts(ds[..n]);
      InsertRootSorts(SortRoots(ds[..n]), ds[n]);
      assert ds == ds[..n] + [ds[n]];
    }
  }

  lemma FirstsEqual(a: seq<Digest>, b: seq<Digest>)
    requires RootsSorted(a) && RootsSorted(b) && Permuted(a, b) && a != [] && b != []
    ensures a[0] == b[0]
  {
    hide LexLeq, Permuted;
    PermutedMembers(a, b);
    assert a[0] in b && b[0] in a;
    FirstLeast(a, b[0]);
    FirstLeast(b, a[0]);
    LexAntisymmetric(a[0], b[0]);
  }

  /** A multiset of digests has one sorted listing. */
  lemma {:induction false} SortedUnique(a: seq<Digest>, b: seq<Digest>)
    requires RootsSorted(a) && RootsSorted(b) && Permuted(a, b)
    ensures a == b
  {
    hide LexLeq, Permuted;
    PermutedMembers(a, b);
    if a != [] {
      FirstsEqual(a, b);
      PermutedRest(a, b, 0, 0);
      assert Without(a, 0) == a[1..] && Without(b, 0) == b[1..];
      SortedUnique(a[1..], b[1..]);
      assert a == [a[0]] + a[1..] && b == [b[0]] + b[1..];
    }
  }

  lemma FirstLeast(a: seq<Digest>, d: Digest)
    requires RootsSorted(a) && d in a
    ensures LexLeq(a[0], d)
  {
    LexTotal(a[0], a[0]);
    hide LexLeq;
    var i :| 0 <= i < |a| && a[i] == d;
  }

  function Without<T>(s: seq<T>, k: nat): (r: seq<T>)
    requires k < |s|
    ensures |r| == |s| - 1
  {
    s[..k] + s[k + 1..]
  }

  lemma WithoutCounts<T>(s: seq<T>, k: nat)
    requires k < |s|
    ensures multiset(s) == multiset(Without(s, k)) + multiset{s[k]}
  {
    assert s == s[..k] + [s[k]] + s[k + 1..];
  }

  /** Taking the same element out of two permutations leaves permutations. */
  lemma PermutedRest<T>(a: seq<T>, b: seq<T>, i: nat, k: nat)
    requires Permuted(a, b) && i < |a| && k < |b| && a[i] == b[k]
    ensures Permuted(Without(a, i), Without(b, k))
  {
    hide Without;
    WithoutCounts(a, i);
    WithoutCounts(b, k);
    assert multiset(Without(a, i)) == multiset(a) - multiset{a[i]};
    assert multiset(Without(b, k)) == multiset(b) - multiset{b[k]};
  }

  lemma RootsWithout(s: seq<Entry>, k: nat)
    requires k < |s|
    ensures multiset(Roots(s)) == multiset(Roots(Without(s, k))) + multiset{s[k].root}
  {
    hide Roots;
    assert s == (s[..k] + [s[k]]) + s[k + 1..];
    RootsSplit(s[..k] + [s[k]], s[k + 1..]);
    RootsSplit(s[..k], [s[k]]);
    RootsSplit(s[..k], s[k + 1..]);
    OneRoot(s[k]);
  }

  lemma {:induction false} RootsPermuted(a: seq<Entry>, b: seq<Entry>)
    requires Permuted(a, b)
    ensures Permuted(Roots(a), Roots(b))
    decreases |a|
  {
    hide Without;
    PermutedMembers(a, b);
    if a != [] {
      hide Roots;
      assert a[0] in b;
      var k :| 0 <= k < |b| && b[k] == a[0];
      PermutedRest(a, b, 0, k);
      RootsPermuted(Without(a, 0), Without(b, k));
      RootsWithout(a, 0);
      RootsWithout(b, k);
    }
  }

  lemma OneRoot(e: Entry)
    ensures Roots([e]) == [e.root]
  {
    assert [e][..0] == [];
  }

  lemma {:induction false} RootsSplit(a: seq<Entry>, b: seq<Entry>)
    ensures Roots(a + b) == Roots(a) + Roots(b)
  {
    if b == [] {
      assert a + b == a;
    } else {
      var n := |b| - 1;
      assert (a + b)[..|a + b| - 1] == a + b[..n];
      RootsSplit(a, b[..n]);
    }
  }

  lemma InventoryRootPermuted(sha: Sha, a: seq<Entry>, b: seq<Entry>)
    requires Permuted(a, b) && |a| <= U64_MAX && |b| <= U64_MAX
    ensures InventoryRoot(sha, a) == InventoryRoot(sha, b)
  {
    hide SortRoots, Roots;
    PermutedMembers(a, b);
    RootsPermuted(a, b);
    SortRootsSorts(Roots(a));
    SortRootsSorts(Roots(b));
    SortedUnique(SortRoots(Roots(a)), SortRoots(Roots(b)));
  }

  lemma {:induction false} CompatiblePermuted(r: Requirement, class_: DeviceClass, a: seq<Entry>,
    b: seq<Entry>)
    requires Permuted(a, b)
    ensures Permuted(CompatibleEntries(r, class_, a), CompatibleEntries(r, class_, b))
  {
    hide Compatible;
    forall e
      ensures multiset(CompatibleEntries(r, class_, a))[e]
              == multiset(CompatibleEntries(r, class_, b))[e]
    {
      CompatibleCounts(r, class_, a, e);
      CompatibleCounts(r, class_, b, e);
    }
  }

  lemma {:induction false} CompatibleCounts(r: Requirement, class_: DeviceClass, es: seq<Entry>,
    e: Entry)
    ensures multiset(CompatibleEntries(r, class_, es))[e]
            == if Compatible(r, class_, e) then multiset(es)[e] else 0
  {
    hide Compatible;
    if es != [] {
      var n := |es| - 1;
      CompatibleCounts(r, class_, es[..n], e);
      assert es == es[..n] + [es[n]];
    }
  }

  /** Among entries with distinct capability roots the least one does not depend on order. */
  lemma LeastPermuted(a: seq<Entry>, b: seq<Entry>, all: seq<Entry>)
    requires Permuted(a, b) && a != [] && b != [] && NoClash(all)
    requires forall e | e in a :: e in all
    ensures Least(a) == Least(b)
  {
    hide KeyBefore, Least, Clash;
    PermutedMembers(a, b);
    LeastIsLeast(a);
    LeastIsLeast(b);
    var x, y := Least(a), Least(b);
    KeyTotal(x, y, x);
    PinnedUnique(all, x, x.capability.root);
  }

  lemma ChoosePermuted(r: Requirement, a: seq<Entry>, b: seq<Entry>)
    requires Permuted(a, b) && NoClash(a)
    ensures Choose(r, a) == Choose(r, b)
  {
    hide Compatible, Least, CompatibleEntries, Clash;
    PermutedMembers(a, b);
    CompatibleExact(r, r.class_, a);
    CompatibleExact(r, CpuDevice, a);
    var exactA, exactB := CompatibleEntries(r, r.class_, a), CompatibleEntries(r, r.class_, b);
    var cpusA, cpusB := CompatibleEntries(r, CpuDevice, a), CompatibleEntries(r, CpuDevice, b);
    CompatiblePermuted(r, r.class_, a, b);
    CompatiblePermuted(r, CpuDevice, a, b);
    PermutedMembers(exactA, exactB);
    PermutedMembers(cpusA, cpusB);
    if exactA != [] {
      LeastPermuted(exactA, exactB, a);
    }
    if cpusA != [] {
      LeastPermuted(cpusA, cpusB, a);
    }
    var p := FindPinned(a, r.pinned);
    if p.Some? {
      PinnedUnique(a, p.value, r.pinned);
    }
  }

  /**
   * Order independence: for every permutation of an inventory selection succeeds or fails
   * alike and returns the same receipt, so a receipt is valid for one order exactly when it is
   * for every other.
   */
  lemma SelectionIgnoresOrder(sha: Sha, r: Requirement, a: seq<Entry>, b: seq<Entry>)
    requires Permuted(a, b)
    ensures SelectDevice(sha, r, a) == SelectDevice(sha, r, b)
    ensures forall c :: ValidReceipt(sha, c, r, a) <==> ValidReceipt(sha, c, r, b)
  {
    hide ValidRequirement, ValidEntry, Clash, Choose, InventoryRoot, NoClash;
    InventoryMeans(sha, a);
    PermutedMembers(a, b);
    if ValidInventory(sha, b) {
      InventoryPermuted(sha, b, a);
    }
    if ValidInventory(sha, a) {
      InventoryPermuted(sha, a, b);
      ChoosePermuted(r, a, b);
      InventoryRootPermuted(sha, a, b);
    }
  }

  lemma InventoryMeans(sha: Sha, es: seq<Entry>)
    ensures ValidInventory(sha, es) ==> NoClash(es) && |es| <= MAXIMUM_INVENTORY_ENTRIES
  {
  }

  lemma InventoryPermuted(sha: Sha, a: seq<Entry>, b: seq<Entry>)
    requires Permuted(a, b) && ValidInventory(sha, a)
    ensures ValidInventory(sha, b)
  {
    hide ValidEntry;
    PermutedMembers(a, b);
    ClashPermuted(a, b);
    forall i | 0 <= i < |b| ensures ValidEntry(sha, b[i]) {
      assert b[i] in a;
    }
  }
}
