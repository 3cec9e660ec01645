/** What the caps add up to over many sweeps. */
module SweepRuns {
  import opened Prelude
  import opened JsValues
  import opened RevokePolicy
  import opened PolicyProofs
  import opened PolicyMeaning

  /** What a sweep removes, of everything or of one read, counted by the keys in its input. */
  ghost function Removed(a: Args, scope: Option<string>): set<Value> {
    match scope case None => Named(Evaluate(a).flush) case Some(read) => NamedFrom(Evaluate(a).flush, read)
  }

  function Given(a: Args, scope: Option<string>): Value {
    match scope case None => a.currentManaged case Some(read) => Get(a.populations, read)
  }

  /** If the caller gives a count at all, it is the right one. */
  ghost predicate Honest(a: Args, scope: Option<string>, n: nat) {
    forall m: nat :: Count(Given(a, scope), m) ==> m == n
  }

  /** One sweep over the units `before`: the flushed units leave, and new ones may join. */
  ghost predicate Sweep(scope: Option<string>, before: set<Value>, a: Args, after: set<Value>) {
    Honest(a, scope, |before|) && before - Removed(a, scope) <= after
  }

  ghost predicate Run(scope: Option<string>, managed: seq<set<Value>>, sweeps: seq<Args>) {
    && |managed| == |sweeps| + 1
    && forall i :: 0 <= i < |sweeps| ==> Sweep(scope, managed[i], sweeps[i], managed[i + 1])
  }

  function Pow2(k: nat): (p: nat)
    ensures p >= 1
  {
    if k == 0 then 1 else 2 * Pow2(k - 1)
  }

  lemma RemovedAtMostHalf(a: Args, scope: Option<string>, n: nat)
    requires Honest(a, scope, n) && n >= 2
    ensures 2 * |Removed(a, scope)| <= n
  {
    match scope
    case None => AllAtMostHalf(a, n);
    case Some(read) => ReadAtMostHalf(a, read, n);
  }

  lemma AllAtMostHalf(a: Args, n: nat)
    requires Honest(a, None, n) && n >= 2
    ensures 2 * |Named(Evaluate(a).flush)| <= n
  {
    if m: nat :| Count(a.currentManaged, m) {
      assert Count(Given(a, None), m);
      CapByKeys(a, n);
    } else {
      NothingFlushed(a);
    }
  }

  lemma NothingFlushed(a: Args)
    requires !GoodBatch(a)
    ensures Evaluate(a).flush == [] && Named([]) == {} && forall read :: NamedFrom([], read) == {}
  {
    if Evaluate(a).flush != [] { FlushedIsGood(a, Evaluate(a).flush[0]); }
  }

  lemma ReadAtMostHalf(a: Args, read: string, n: nat)
    requires Honest(a, Some(read), n) && n >= 2
    ensures 2 * |NamedFrom(Evaluate(a).flush, read)| <= n
  {
    if read in READS && SomeCount(Get(a.populations, read)) {
      var m: nat :| Count(Get(a.populations, read), m);
      assert Count(Given(a, Some(read)), m);
      CapByRead(a, read, n);
    } else if GoodBatch(a) {
      forall p | p in Evaluate(a).flush ensures p in a.proposals.items && GoodProposal(p) { FlushedIsGood(a, p); }
      NothingElse(a, Evaluate(a).flush, read);
    } else {
      NothingFlushed(a);
    }
  }

  lemma NothingElse(a: Args, flush: seq<Value>, read: string)
    requires GoodBatch(a) && !(read in READS && SomeCount(Get(a.populations, read)))
    requires forall p :: p in flush ==> p in a.proposals.items && GoodProposal(p)
    ensures NamedFrom(flush, read) == {}
  {
    if read in READS { NothingUncounted(a, flush, read); } else { NothingFromElsewhere(flush, read); }
  }

  lemma NothingFromElsewhere(flush: seq<Value>, read: string)
    requires read !in READS && forall p :: p in flush ==> GoodProposal(p)
    ensures NamedFrom(flush, read) == {}
  {
    forall p | p in flush ensures Get(p, "dataSource") != Str(read) { assert GoodProposal(p); }
  }

  lemma NothingUncounted(a: Args, flush: seq<Value>, read: string)
    requires read in READS && GoodBatch(a) && !SomeCount(Get(a.populations, read))
    requires forall p :: p in flush ==> p in a.proposals.items
    ensures NamedFrom(flush, read) == {}
  {
    var items := a.proposals.items;
    assert Covered(items, a.populations, read);
    assert forall n: nat :: Says(a.populations, read, n) ==> n == 0;
    assert |NamedFrom(items, read)| == 0;
    assert NamedFrom(flush, read) <= NamedFrom(items, read);
  }

  /** One sweep leaves at least half, rounded up, of two or more units. */
  lemma SweepLeavesHalf(scope: Option<string>, before: set<Value>, a: Args, after: set<Value>)
    requires Sweep(scope, before, a, after) && |before| >= 2
    ensures 2 * |after| >= |before|
  {
    var gone := Removed(a, scope);
    RemovedAtMostHalf(a, scope, |before|);
    assert |before - gone| >= |before| - |gone| by {
      assert before == (before - gone) + (before * gone);
      SubsetSize(before * gone, gone);
    }
    SubsetSize(before - gone, after);
  }

  lemma DoubleStep(left: nat, after: nat, p: nat, n: nat)
    requires left * p >= n > p && (left >= 2 ==> 2 * after >= left)
    ensures after * (2 * p) >= n
  {
    assert left <= 1 ==> left * p <= 1 * p;
    assert 2 * after >= left ==> (2 * after) * p >= left * p;
  }

  /** The managed count after each sweep. */
  ghost predicate Halving(sizes: seq<nat>) {
    forall i :: 0 <= i < |sizes| - 1 && sizes[i] >= 2 ==> 2 * sizes[i + 1] >= sizes[i]
  }

  lemma {:induction false} HalvingLeaves(sizes: seq<nat>, k: nat)
    requires Halving(sizes) && k < |sizes| && (k > 0 ==> Pow2(k - 1) < sizes[0])
    ensures sizes[k] * Pow2(k) >= sizes[0]
  {
    if k > 0 {
      assert k > 1 ==> Pow2(k - 1) == 2 * Pow2(k - 2);
      HalvingLeaves(sizes, k - 1);
      DoubleStep(sizes[k - 1], sizes[k], Pow2(k - 1), sizes[0]);
    }
  }

  ghost function Sizes(managed: seq<set<Value>>): seq<nat> {
    seq(|managed|, i requires 0 <= i < |managed| => |managed[i]|)
  }

  lemma RunHalves(scope: Option<string>, managed: seq<set<Value>>, sweeps: seq<Args>)
    requires Run(scope, managed, sweeps)
    ensures Halving(Sizes(managed))
  {
    forall i | 0 <= i < |managed| - 1 && |managed[i]| >= 2 ensures 2 * |managed[i + 1]| >= |managed[i]| {
      SweepLeavesHalf(scope, managed[i], sweeps[i], managed[i + 1]);
    }
  }

  /** From N units, of all or of one read, k sweeps leave at least ceil(N / 2^k), as long as
      2^(k-1) < N. */
  lemma SweepsLeave(scope: Option<string>, managed: seq<set<Value>>, sweeps: seq<Args>, k: nat)
    requires Run(scope, managed, sweeps) && k <= |sweeps|
    requires k > 0 ==> Pow2(k - 1) < |managed[0]|
    ensures |managed[k]| * Pow2(k) >= |managed[0]|
  {
    RunHalves(scope, managed, sweeps);
    HalvingLeaves(Sizes(managed), k);
  }

  /** So a gym of N >= 2 units cannot be emptied by fewer than ceil(log2 N) + 1 sweeps, whatever the
      data says and however often it agrees with itself. */
  lemma EmptyingTakesManySweeps(scope: Option<string>, managed: seq<set<Value>>, sweeps: seq<Args>)
    requires Run(scope, managed, sweeps) && |managed[0]| >= 2 && |managed[|sweeps|]| == 0
    ensures |sweeps| >= 1 && |managed[0]| <= Pow2(|sweeps| - 1)
  {
    var k := |sweeps|;
    if k >= 1 && Pow2(k - 1) < |managed[0]| {
      SweepsLeave(scope, managed, sweeps, k);
    }
  }
}
