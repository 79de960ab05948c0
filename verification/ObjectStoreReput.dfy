/**
 * One run in which a lease receipt is accepted, refused three times, and accepted again,
 * because its object was released and put again.
 */
module ObjectStoreReput {
  import opened Bytes
  import opened ObjectStore
  import opened ObjectStoreRuns
  import opened ObjectStoreLeases

  const PAYLOAD: Bytes := [7]

  /** A store for one object of one byte. */
  function SmallConfig(sha: Sha): Config {
    Config(sha, Grant(1, Repeated(1), Repeated(2), 31, 1, 1, 1, INDEX_ENTRY_BYTES, 1, Repeated(3)),
           1, None)
  }

  function Blob(sha: Sha): BlobRef {
    BlobOf(SmallConfig(sha), PAYLOAD)
  }

  function SmallGrant(sha: Sha): LifecycleGrant {
    LifecycleGrant(1, Repeated(1), Repeated(2), GrantRoot(SmallConfig(sha)), 15, 1, 10, Repeated(4))
  }

  /** The receipt of the first lease on the object. */
  function Receipt(sha: Sha): LeaseReceipt {
    var cfg := SmallConfig(sha);
    MakeLeaseReceipt(cfg, Blob(sha), 1, Repeated(5), 5, LifecycleGrantRoot(cfg, SmallGrant(sha)))
  }

  function PutIt(sha: Sha): StoreOp {
    PutOp(Blob(sha), PAYLOAD, Repeated(2))
  }

  function AcquireIt(sha: Sha): StoreOp {
    AcquireOp(Blob(sha), SmallGrant(sha), Repeated(5), 0, 5)
  }

  /** Put, acquire, end the lease, release, put again, acquire again. */
  function PutTwice(sha: Sha): seq<StoreOp> {
    [PutIt(sha), AcquireIt(sha), EndOp(Blob(sha), Receipt(sha), SmallGrant(sha), None),
     ReleaseOp(Blob(sha)), PutIt(sha), AcquireIt(sha)]
  }

  function NewObject(sha: Sha): Slot {
    NewSlot(Blob(sha), PAYLOAD, Repeated(2))
  }

  /** The store with this one slot. */
  function Single(s: Option<Slot>, insertions: int): Content {
    Content([s], insertions, false)
  }

  lemma SingleSum(s: Option<Slot>, c: Counter)
    ensures Sum([s], c) == Weight(c, s)
  {
    assert [s][..0] == [];
  }

  lemma SingleSums(s: Option<Slot>)
    ensures forall c :: Sum([s], c) == Weight(c, s)
  {
    forall c ensures Sum([s], c) == Weight(c, s) {
      SingleSum(s, c);
    }
  }

  lemma Digests()
    ensures forall x: Byte | x != 0 :: Repeated(x) != ZERO_DIGEST
  {
    forall x: Byte | x != 0 ensures Repeated(x) != ZERO_DIGEST {
      RepeatedAt(x);
    }
  }

  lemma Putting(sha: Sha, n: int)
    ensures Apply(SmallConfig(sha), Single(None, n), PutIt(sha))
            == Single(Some(NewObject(sha)), n + 1)
  {
    hide BlobOf, Sum;
    Digests();
    SingleSums(None);
    assert FirstEmptyFrom([None], 0) == Some(0);
    assert FindDigestFrom([None], Blob(sha).sha, 0) == None;
    assert [None][0 := Some(NewObject(sha))] == [Some(NewObject(sha))];
    BlobLength(sha);
  }

  lemma BlobLength(sha: Sha)
    ensures Hashable(PAYLOAD) && Blob(sha).byteLength == 1
    ensures Blob(sha) == BlobOf(SmallConfig(sha), PAYLOAD)
  {
  }

  lemma Acquiring(sha: Sha, n: int)
    requires NeverZero(sha)
    ensures var st := Single(Some(NewObject(sha)), n);
            && LeaseReply(SmallConfig(sha), st, AcquireIt(sha)).reply == Success(Receipt(sha))
            && Apply(SmallConfig(sha), st, AcquireIt(sha))
               == Single(Some(Leased(NewObject(sha), Receipt(sha))), n)
  {
    hide BlobOf, Sum, Word, LE64, GrantRoot, LifecycleGrantRoot, LeaseRoot;
    Digests();
    RootsNonZero(sha);
    BlobLength(sha);
    var s := Some(NewObject(sha));
    SingleSums(s);
    assert FindFrom([s], Blob(sha), 0) == Some(0);
    assert [s][0 := Some(Leased(NewObject(sha), Receipt(sha)))]
        == [Some(Leased(NewObject(sha), Receipt(sha)))];
  }

  lemma RootsNonZero(sha: Sha)
    requires NeverZero(sha)
    ensures GrantRoot(SmallConfig(sha)) != ZERO_DIGEST
    ensures LifecycleGrantRoot(SmallConfig(sha), SmallGrant(sha)) != ZERO_DIGEST
    ensures Receipt(sha).leaseSha != ZERO_DIGEST
    ensures Receipt(sha).leaseSha == LeaseRoot(SmallConfig(sha), Receipt(sha))
  {
    hide Word, LE64, PackWords, BlobOf;
  }

  lemma Ending(sha: Sha, n: int)
    requires NeverZero(sha)
    ensures Apply(SmallConfig(sha), Single(Some(Leased(NewObject(sha), Receipt(sha))), n),
                  EndOp(Blob(sha), Receipt(sha), SmallGrant(sha), None))
            == Single(Some(ClearLease(Leased(NewObject(sha), Receipt(sha)))), n)
  {
    hide BlobOf, Word, LE64, GrantRoot, LifecycleGrantRoot, LeaseRoot;
    Digests();
    RootsNonZero(sha);
    var s := Some(Leased(NewObject(sha), Receipt(sha)));
    assert FindFrom([s], Blob(sha), 0) == Some(0);
    assert [s][0 := Some(ClearLease(s.value))] == [Some(ClearLease(s.value))];
  }

  lemma Releasing(sha: Sha, n: int)
    ensures Apply(SmallConfig(sha),
                  Single(Some(ClearLease(Leased(NewObject(sha), Receipt(sha)))), n),
                  ReleaseOp(Blob(sha)))
            == Single(None, n)
  {
    hide Blob, Receipt, Sum;
    Digests();
    var s := Some(ClearLease(Leased(NewObject(sha), Receipt(sha))));
    assert FindFrom([s], Blob(sha), 0) == Some(0);
    assert [s][0 := None] == [None];
  }

  /** The store after the first `k` operations. */
  function Stage(sha: Sha, k: nat): Content
    requires k <= 6
  {
    var leased := Leased(NewObject(sha), Receipt(sha));
    match k
    case 0 => Single(None, 0)
    case 1 => Single(Some(NewObject(sha)), 1)
    case 2 => Single(Some(leased), 1)
    case 3 => Single(Some(ClearLease(leased)), 1)
    case 4 => Single(None, 1)
    case 5 => Single(Some(NewObject(sha)), 2)
    case _ => Single(Some(leased), 2)
  }

  lemma {:induction false} Stages(sha: Sha, k: nat)
    requires NeverZero(sha) && k <= 6
    ensures AfterOps(SmallConfig(sha), EmptyContent(SmallConfig(sha)), PutTwice(sha)[..k])
            == Stage(sha, k)
  {
    hide Apply, NewObject, Receipt, SmallGrant, Blob, ClearLease, Leased;
    var cfg, ops := SmallConfig(sha), PutTwice(sha);
    if k == 0 {
      assert EmptyContent(cfg).slots == [None];
    } else {
      Stages(sha, k - 1);
      assert ops[..k][..k - 1] == ops[..k - 1] && ops[..k][k - 1] == ops[k - 1];
      match k
      case 1 => Putting(sha, 0);
      case 2 => Acquiring(sha, 1);
      case 3 => Ending(sha, 1);
      case 4 => Releasing(sha, 1);
      case 5 => Putting(sha, 1);
      case _ => Acquiring(sha, 2);
    }
  }

  lemma StageAccepts(sha: Sha, k: nat)
    requires NeverZero(sha) && k <= 6
    ensures Accepted(SmallConfig(sha), Stage(sha, k).slots, Receipt(sha)) <==> k == 2 || k == 6
  {
    hide BlobOf, LeaseRoot, LifecycleGrantRoot, Word, LE64;
    Digests();
    RootsNonZero(sha);
  }

  /**
   * The receipt is accepted once it is issued, refused after its lease ends, after the release
   * and after the second put, and accepted again after the second acquire. No digest along the
   * run is zero, and the run starts from a new store.
   */
  lemma ReceiptReturns(sha: Sha)
    requires NeverZero(sha)
    ensures var cfg, ops := SmallConfig(sha), PutTwice(sha);
            && ValidConfig(cfg) && AllIssuable(cfg, EmptyContent(cfg), ops)
            && LastLease(cfg, EmptyContent(cfg), ops[..2], Blob(sha)) == Some(Receipt(sha))
            && forall k | 0 <= k <= 6 ::
                 Accepted(cfg, AfterOps(cfg, EmptyContent(cfg), ops[..k]).slots, Receipt(sha))
                 <==> k == 2 || k == 6
  {
    hide AfterOps, Accepted, Stage, Receipt, Blob, SmallGrant, LeaseReply;
    var cfg, ops := SmallConfig(sha), PutTwice(sha);
    forall k | 0 <= k <= 6
      ensures AfterOps(cfg, EmptyContent(cfg), ops[..k]) == Stage(sha, k)
      ensures Accepted(cfg, Stage(sha, k).slots, Receipt(sha)) <==> k == 2 || k == 6
    {
      Stages(sha, k);
      StageAccepts(sha, k);
    }
    Digests();
    RunIssues(sha);
  }

  lemma RunIssues(sha: Sha)
    requires NeverZero(sha)
    ensures var cfg, ops := SmallConfig(sha), PutTwice(sha);
            && AllIssuable(cfg, EmptyContent(cfg), ops)
            && LastLease(cfg, EmptyContent(cfg), ops[..2], Blob(sha)) == Some(Receipt(sha))
  {
    hide Receipt, Blob, SmallGrant, LeaseReply, NewObject, ClearLease, Leased, SmallConfig,
      Apply, EmptyContent;
    var cfg, ops := SmallConfig(sha), PutTwice(sha);
    RootsNonZero(sha);
    Stages(sha, 1);
    Stages(sha, 5);
    Acquiring(sha, 1);
    Acquiring(sha, 2);
    assert ops[..2][..1] == ops[..1] && ops[..2][1] == ops[1];
    forall k | 0 <= k < |ops|
      ensures OpIssuable(cfg, AfterOps(cfg, EmptyContent(cfg), ops[..k]), ops[k])
    {
    }
  }
}
