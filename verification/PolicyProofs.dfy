/** What the removal policy guarantees for every batch it can be handed. */
module PolicyProofs {
  import opened Prelude
  import opened JsValues
  import opened RevokePolicy

  // --- An order-free account of validation ---

  /** Every proposal is sound by itself. */
  ghost predicate ProposalsSound(items: seq<Value>) {
    forall p :: p in items ==> ProposalProblem(p).None?
  }

  /** The populations cover what is proposed, in aggregate and per data source. */
  ghost predicate PopulationsCover(a: Args, items: seq<Value>) {
    && IsCount(a.currentManaged)
    && |Units(items)| <= Managed(a)
    && forall d :: UnitsFrom(items, d) != {} ==>
         Has(a.populations, Name(d)) && |UnitsFrom(items, d)| <= CountAt(a.populations, Name(d))
  }

  ghost predicate ReadsSound(a: Args) {
    PopulationProblem(a.populations).None? && DisagreementProblem(a.disagreement, a.populations).None?
  }

  ghost predicate Trusted(a: Args) {
    && a.proposals.Arr?
    && ProposalsSound(a.proposals.items)
    && PopulationsCover(a, a.proposals.items)
    && ReadsSound(a)
    && ClockProblem(a.now, a.strikePolicy).None?
  }

  lemma {:induction false} NoFirstProblem(items: seq<Value>)
    ensures FirstProposalProblem(items).None? <==> ProposalsSound(items)
  {
    if items != [] {
      NoFirstProblem(items[1..]);
      forall p | p in items && FirstProposalProblem(items).None? ensures ProposalProblem(p).None? {
        assert p == items[0] || p in items[1..];
      }
      assert items[0] in items;
    }
  }

  lemma ValidateIffTrusted(a: Args)
    ensures Validate(a).None? <==> Trusted(a)
  {
    if a.proposals.Arr? {
      var items := a.proposals.items;
      NoFirstProblem(items);
      assert AnySourceProblem(items, a.populations).None? <==>
             forall d :: SourceProblem(items, a.populations, d).None? by {
        forall d | AnySourceProblem(items, a.populations).None? ensures SourceProblem(items, a.populations, d).None? {
          match d case WixOrders => case WixBookings => case Kisi => case Db =>
        }
      }
      assert forall d :: SourceProblem(items, a.populations, d).None? <==>
               (UnitsFrom(items, d) != {} ==>
                  Has(a.populations, Name(d)) && |UnitsFrom(items, d)| <= CountAt(a.populations, Name(d)));
    }
  }

  lemma UnstableIff(populations: Value, disagreement: Value)
    ensures UnstableDataSource(populations, disagreement).Some? <==>
              exists d :: UnstableAt(populations, disagreement, d)
  {
    if d :| UnstableAt(populations, disagreement, d) {
      match d case WixOrders => case WixBookings => case Kisi => case Db =>
    }
  }

  lemma MassIff(items: seq<Value>, managed: nat, populations: Value)
    ensures MassRevokeAt(items, managed, populations).Some? <==>
              MassAggregate(items, managed) || exists d :: MassAt(items, populations, d)
  {
    if d :| MassAt(items, populations, d) {
      match d case WixOrders => case WixBookings => case Kisi => case Db =>
    }
  }

  // --- Flush soundness and partition ---

  /** Cutting `whole` along `bins` gives the parts: each keeps the input order, and every position of
      the input lands in exactly one of them. */
  function Pick(whole: seq<Value>, bins: seq<nat>, bin: nat): seq<Value>
    requires |bins| == |whole|
  {
    if whole == [] then [] else (if bins[0] == bin then [whole[0]] else []) + Pick(whole[1..], bins[1..], bin)
  }

  ghost predicate Partitions(d: Decision, whole: seq<Value>) {
    exists bins: seq<nat> :: && |bins| == |whole| && (forall b :: b in bins ==> b < 3)
                             && Pick(whole, bins, 0) == d.flush
                             && Pick(whole, bins, 1) == d.held
                             && Pick(whole, bins, 2) == d.strikePending
  }

  function SiftBins(items: seq<Value>, now: Value, policy: Value): (bins: seq<nat>)
    ensures |bins| == |items|
    ensures forall b :: b in bins ==> b == 0 || b == 2
  {
    if items == [] then []
    else [if StrikeSatisfied(Get(items[0], "strike"), now, policy) then 0 else 2] + SiftBins(items[1..], now, policy)
  }

  lemma {:induction false} SiftPicks(items: seq<Value>, now: Value, policy: Value)
    ensures var bins := SiftBins(items, now, policy);
            && Pick(items, bins, 0) == Sift(items, now, policy, true)
            && Pick(items, bins, 1) == []
            && Pick(items, bins, 2) == Sift(items, now, policy, false)
  {
    if items != [] {
      SiftPicks(items[1..], now, policy);
      assert SiftBins(items, now, policy)[1..] == SiftBins(items[1..], now, policy);
    }
  }

  lemma {:induction false} PickAll(items: seq<Value>, bins: seq<nat>)
    requires |bins| == |items| && forall b :: b in bins ==> b == 1
    ensures Pick(items, bins, 1) == items && Pick(items, bins, 0) == [] && Pick(items, bins, 2) == []
  {
    if items != [] {
      assert bins[0] in bins && forall b :: b in bins[1..] ==> b in bins;
      PickAll(items[1..], bins[1..]);
      assert [items[0]] + items[1..] == items;
    }
  }

  lemma HoldPartitions(d: Decision, items: seq<Value>)
    requires d.flush == [] && d.held == items && d.strikePending == []
    ensures Partitions(d, items)
  {
    var bins := seq(|items|, i requires 0 <= i < |items| => 1 as nat);
    assert forall b :: b in bins ==> b == 1;
    PickAll(items, bins);
  }

  lemma SiftPartitions(d: Decision, items: seq<Value>, now: Value, policy: Value)
    requires d.flush == Sift(items, now, policy, true) && d.held == []
               && d.strikePending == Sift(items, now, policy, false)
    ensures Partitions(d, items)
  {
    SiftPicks(items, now, policy);
    var bins := SiftBins(items, now, policy);
    assert Pick(items, bins, 0) == d.flush && Pick(items, bins, 1) == d.held && Pick(items, bins, 2) == d.strikePending;
  }

  /** Either everything is held, or the strike clock alone sorts the batch. */
  lemma DecideHoldsOrSifts(f: Findings)
    ensures var d := Decide(f);
            || (d.flush == [] && d.held == f.items && d.strikePending == [])
            || (d.flush == f.ready && d.held == [] && d.strikePending == f.waiting)
  {
  }

  lemma DecidePartitions(f: Findings, now: Value, policy: Value)
    requires f.ready == Sift(f.items, now, policy, true) && f.waiting == Sift(f.items, now, policy, false)
    ensures Partitions(Decide(f), f.items)
  {
    var d := Decide(f);
    DecideHoldsOrSifts(f);
    if d.flush == [] && d.held == f.items && d.strikePending == [] {
      HoldPartitions(d, f.items);
    } else {
      SiftPartitions(d, f.items, now, policy);
    }
  }

  /** flush, held and strikePending hold every input proposal exactly once, each in input order. */
  lemma DecisionPartitionsTheBatch(a: Args)
    requires a.proposals.Arr?
    ensures Partitions(Evaluate(a), a.proposals.items)
  {
    if a.proposals == Arr([]) {
      HoldPartitions(Evaluate(a), []);
    } else {
      DecidePartitions(Examine(a), a.now, a.strikePolicy);
    }
  }

  lemma {:induction false} SiftMembers(items: seq<Value>, now: Value, policy: Value, ripe: bool)
    ensures forall p :: p in Sift(items, now, policy, ripe) <==>
              p in items && StrikeSatisfied(Get(p, "strike"), now, policy) == ripe
  {
    if items != [] {
      SiftMembers(items[1..], now, policy, ripe);
      assert forall p :: p in items <==> p == items[0] || p in items[1..];
    }
  }

  /** All that has to be true before anything may be removed. */
  ghost predicate Armed(a: Args) {
    && Trusted(a) && a.proposals.items != []
    && a.observationOnly == Bool(false) && a.mode == Str("on")
    && (forall d :: !UnstableAt(a.populations, a.disagreement, d))
    && !MassAggregate(a.proposals.items, Managed(a))
    && (forall d :: !MassAt(a.proposals.items, a.populations, d))
  }

  lemma DecideFlush(f: Findings, p: Value)
    ensures p in Decide(f).flush <==>
              f.invalid.None? && f.unstable.None? && f.mass.None? && f.armed && f.mode.On? && p in f.ready
    ensures Decide(f).flush != [] <==> Decide(f).action.Proceed?
  {
  }

  /** The findings, free of any order of checks. */
  lemma FindingsMean(a: Args)
    ensures var f := Examine(a);
            && (f.invalid.None? <==> Trusted(a))
            && (f.unstable.None? <==> forall d :: !UnstableAt(a.populations, a.disagreement, d))
            && (f.mass.None? <==>
                  !Trusted(a) || !(MassAggregate(f.items, Managed(a)) || exists d :: MassAt(f.items, a.populations, d)))
            && (f.mode.On? <==> a.mode == Str("on"))
            && forall p :: p in f.ready <==> p in f.items && StrikeSatisfied(Get(p, "strike"), a.now, a.strikePolicy)
  {
    var f := Examine(a);
    ValidateIffTrusted(a);
    UnstableIff(a.populations, a.disagreement);
    MassIff(f.items, Managed(a), a.populations);
    SiftMembers(f.items, a.now, a.strikePolicy, true);
  }

  /** A proposal is removed if and only if the sweep is armed and its own strike is met. */
  lemma FlushedIff(a: Args, p: Value)
    ensures p in Evaluate(a).flush <==>
              Armed(a) && p in a.proposals.items && StrikeSatisfied(Get(p, "strike"), a.now, a.strikePolicy)
    ensures Evaluate(a).flush != [] ==> Evaluate(a).action.Proceed?
  {
    if a.proposals != Arr([]) {
      FindingsMean(a);
      DecideFlush(Examine(a), p);
    }
  }

  lemma SoundProposal(p: Value)
    requires ProposalProblem(p).None?
    ensures SourceOf(Get(p, "source")).Some? && DataSourceOf(Get(p, "dataSource")).Some?
    ensures var s, d := SourceOf(Get(p, "source")).value, DataSourceOf(Get(p, "dataSource")).value;
            && Allowed(s, d) && UnitStructureValid(p, s)
            && (NeedsClassification(s) ==> Removable(Get(p, "classification")))
  {
  }

  /** Whatever is flushed is well formed: filed under a read its source may use, shaped like a unit the
      sweep builds, ended or absent where Wix is the evidence, and aged by the strike policy; and every
      data source's reads disagree by less than a quarter of its population or by at most one. */
  lemma FlushedIsSound(a: Args, p: Value)
    requires p in Evaluate(a).flush
    ensures SourceOf(Get(p, "source")).Some? && DataSourceOf(Get(p, "dataSource")).Some?
    ensures var s, d := SourceOf(Get(p, "source")).value, DataSourceOf(Get(p, "dataSource")).value;
            && Allowed(s, d) && UnitStructureValid(p, s)
            && (NeedsClassification(s) ==> Removable(Get(p, "classification")))
    ensures AgedEnough(Get(p, "strike"), a.now, a.strikePolicy)
    ensures forall d :: CountAt(a.disagreement, Name(d)) <= 1
              || 4 * CountAt(a.disagreement, Name(d)) < CountAt(a.populations, Name(d))
  {
    FlushedIff(a, p);
    SoundProposal(p);
    forall d ensures CountAt(a.disagreement, Name(d)) <= 1
        || 4 * CountAt(a.disagreement, Name(d)) < CountAt(a.populations, Name(d)) {
      assert !UnstableAt(a.populations, a.disagreement, d);
    }
  }

  /** The clock started, and both limits of the policy have been reached since. */
  ghost predicate AgedEnough(strike: Value, now: Value, policy: Value) {
    && SinceMs(Get(strike, "since")).Some? && IsCount(Get(strike, "observations"))
         && IsCount(Get(policy, "minObservations"))
    && now.Num? && now.n.Fin? && Get(policy, "minAgeMs").Num? && Get(policy, "minAgeMs").n.Fin?
    && now.n.r >= SinceMs(Get(strike, "since")).value + Get(policy, "minAgeMs").n.r
    && CountOf(Get(strike, "observations")) >= CountOf(Get(policy, "minObservations"))
  }

  lemma SubsetSize(small: set<Value>, big: set<Value>)
    requires small <= big
    ensures |small| <= |big|
  {
    assert big == small + (big - small);
  }

  /** No sweep removes more than half of the population, in aggregate or of one data source; a
      population of one is the exception. */
  lemma FlushCap(a: Args)
    ensures var flush := Evaluate(a).flush;
            flush != [] ==>
              && (Managed(a) >= 2 ==> |Units(flush)| <= Managed(a) / 2)
              && |Units(flush)| <= Managed(a)
              && forall d :: UnitsFrom(flush, d) != {} && CountAt(a.populations, Name(d)) >= 2 ==>
                   |UnitsFrom(flush, d)| <= CountAt(a.populations, Name(d)) / 2
  {
    var flush := Evaluate(a).flush;
    if flush != [] {
      FlushedIff(a, flush[0]);
      var items := a.proposals.items;
      forall p | p in flush ensures p in items { FlushedIff(a, p); }
      SubsetSize(Units(flush), Units(items));
      forall d | UnitsFrom(flush, d) != {} && CountAt(a.populations, Name(d)) >= 2
        ensures |UnitsFrom(flush, d)| <= CountAt(a.populations, Name(d)) / 2
      {
        SubsetSize(UnitsFrom(flush, d), UnitsFrom(items, d));
        assert UnitsFrom(items, d) != {};
        assert !MassAt(items, a.populations, d);
      }
    }
  }

  // --- Order and growth of the batch ---

  ghost predicate SameElements(xs: seq<Value>, ys: seq<Value>) {
    forall p :: p in xs <==> p in ys
  }

  /** Trust and every anomaly look at which proposals there are, never at their order. */
  lemma OrderFreeFacts(a: Args, xs: seq<Value>, ys: seq<Value>)
    requires SameElements(xs, ys)
    ensures Units(xs) == Units(ys) && forall d :: UnitsFrom(xs, d) == UnitsFrom(ys, d)
    ensures Trusted(a.(proposals := Arr(xs))) <==> Trusted(a.(proposals := Arr(ys)))
    ensures forall managed :: MassRevokeAt(xs, managed, a.populations) == MassRevokeAt(ys, managed, a.populations)
  {
    assert Units(xs) == Units(ys);
    forall d ensures UnitsFrom(xs, d) == UnitsFrom(ys, d) {}
    forall managed: nat ensures MassRevokeAt(xs, managed, a.populations) == MassRevokeAt(ys, managed, a.populations) {
      assert forall d :: MassAt(xs, a.populations, d) == MassAt(ys, a.populations, d);
    }
  }

  lemma {:induction false} SiftMultiset(items: seq<Value>, now: Value, policy: Value, ripe: bool, p: Value)
    ensures multiset(Sift(items, now, policy, ripe))[p] ==
              if StrikeSatisfied(Get(p, "strike"), now, policy) == ripe then multiset(items)[p] else 0
  {
    if items != [] {
      SiftMultiset(items[1..], now, policy, ripe, p);
      assert items == [items[0]] + items[1..];
    }
  }

  lemma SiftPermutes(xs: seq<Value>, ys: seq<Value>, now: Value, policy: Value, ripe: bool)
    requires multiset(xs) == multiset(ys)
    ensures multiset(Sift(xs, now, policy, ripe)) == multiset(Sift(ys, now, policy, ripe))
  {
    forall p ensures multiset(Sift(xs, now, policy, ripe))[p] == multiset(Sift(ys, now, policy, ripe))[p] {
      SiftMultiset(xs, now, policy, ripe, p);
      SiftMultiset(ys, now, policy, ripe, p);
    }
  }

  lemma SameFindings(f: Findings, g: Findings)
    requires multiset(f.items) == multiset(g.items) && (f.invalid.None? <==> g.invalid.None?)
    requires f.unstable == g.unstable && f.mass == g.mass && f.armed == g.armed && f.mode == g.mode
    requires multiset(f.ready) == multiset(g.ready) && multiset(f.waiting) == multiset(g.waiting)
    ensures SameUpToOrder(Decide(f), Decide(g))
  {
    assert |f.ready| == |multiset(f.ready)| && |g.ready| == |multiset(g.ready)|;
  }

  ghost predicate SameUpToOrder(d: Decision, e: Decision) {
    && d.action == e.action && d.reason == e.reason && d.dataSource == e.dataSource
    && multiset(d.flush) == multiset(e.flush)
    && multiset(d.held) == multiset(e.held)
    && multiset(d.strikePending) == multiset(e.strikePending)
  }

  /** Permuting the proposals changes neither action nor reason nor the data source blamed, and each
      output list only by a permutation. */
  lemma PermutationInvariant(a: Args, xs: seq<Value>, ys: seq<Value>)
    requires multiset(xs) == multiset(ys)
    ensures SameUpToOrder(Evaluate(a.(proposals := Arr(xs))), Evaluate(a.(proposals := Arr(ys))))
  {
    assert SameElements(xs, ys) by {
      forall p ensures p in xs <==> p in ys { assert p in multiset(xs) <==> p in xs; }
    }
    assert |xs| == |multiset(xs)| && |ys| == |multiset(ys)|;
    if xs != [] {
      var ax, ay := a.(proposals := Arr(xs)), a.(proposals := Arr(ys));
      OrderFreeFacts(a, xs, ys);
      ValidateIffTrusted(ax);
      ValidateIffTrusted(ay);
      SiftPermutes(xs, ys, a.now, a.strikePolicy, true);
      SiftPermutes(xs, ys, a.now, a.strikePolicy, false);
      SameFindings(Examine(ax), Examine(ay));
    }
  }

  ghost predicate Anomalous(a: Args) {
    Evaluate(a).reason.Some? && Evaluate(a).reason.value.Anomaly()
  }

  lemma DecideAnomaly(f: Findings)
    ensures Decide(f).reason.Some? && Decide(f).reason.value.Anomaly() <==>
              f.invalid.Some? || f.unstable.Some? || f.mass.Some?
    ensures f.invalid.Some? || f.unstable.Some? || f.mass.Some? ==> Decide(f).flush == []
  {
  }

  /** When a batch is held as an anomaly: unstable or unsound reads hold any batch, even an empty one,
      and a mass removal or an untrusted batch holds every other, one that is not even an array included. */
  lemma AnomalousIff(a: Args)
    ensures Anomalous(a) <==>
              || !a.proposals.Arr?
              || (exists d :: UnstableAt(a.populations, a.disagreement, d))
              || !ReadsSound(a)
              || (a.proposals.items != [] && !Trusted(a))
              || (a.proposals.items != [] && MassAggregate(a.proposals.items, Managed(a)))
              || (a.proposals.items != [] && exists d :: MassAt(a.proposals.items, a.populations, d))
    ensures Anomalous(a) ==> Evaluate(a).flush == []
  {
    if a.proposals == Arr([]) {
      UnstableIff(a.populations, a.disagreement);
    } else {
      FindingsMean(a);
      DecideAnomaly(Examine(a));
    }
  }

  /** A trusted larger batch means a trusted smaller one, and a mass removal stays one. */
  lemma GrowingBatch(a: Args, items: seq<Value>, batch: seq<Value>)
    requires forall p :: p in items ==> p in batch
    ensures Trusted(a.(proposals := Arr(batch))) ==> Trusted(a.(proposals := Arr(items)))
    ensures MassAggregate(items, Managed(a)) ==> MassAggregate(batch, Managed(a))
    ensures forall d :: MassAt(items, a.populations, d) ==> MassAt(batch, a.populations, d)
  {
    SubsetSize(Units(items), Units(batch));
    forall d ensures UnitsFrom(items, d) <= UnitsFrom(batch, d) && |UnitsFrom(items, d)| <= |UnitsFrom(batch, d)| {
      SubsetSize(UnitsFrom(items, d), UnitsFrom(batch, d));
    }
  }

  /** A batch held as an anomaly stays one however many proposals join it, wherever they are put: it
      still flushes nothing. */
  lemma AnomalyIsMonotone(a: Args, batch: seq<Value>)
    requires a.proposals.Arr? && Anomalous(a)
    requires forall p :: p in a.proposals.items ==> p in batch
    ensures Anomalous(a.(proposals := Arr(batch)))
    ensures Evaluate(a.(proposals := Arr(batch))).flush == []
  {
    var items, b := a.proposals.items, a.(proposals := Arr(batch));
    AnomalousIff(a);
    AnomalousIff(b);
    GrowingBatch(a, items, batch);
    assert a == a.(proposals := Arr(items));
    if items != [] { assert items[0] in batch; }
  }

  lemma DecideAnomalyIgnores(f: Findings, g: Findings)
    requires g == f.(armed := g.armed, mode := g.mode) && (f.invalid.Some? || f.unstable.Some? || f.mass.Some?)
    ensures Decide(f) == Decide(g)
  {
  }

  /** Arming, disarming or switching the mode never masks, changes or causes an anomaly. */
  lemma SwitchesNeverMaskAnomalies(a: Args, mode: Value, observationOnly: Value)
    ensures var b := a.(mode := mode, observationOnly := observationOnly);
            && (Anomalous(a) <==> Anomalous(b))
            && (Anomalous(a) ==> Evaluate(a) == Evaluate(b))
  {
    var b := a.(mode := mode, observationOnly := observationOnly);
    if a.proposals != Arr([]) {
      var f, g := Examine(a), Examine(b);
      assert Validate(a) == Validate(b);
      DecideAnomaly(f);
      DecideAnomaly(g);
      if f.invalid.Some? || f.unstable.Some? || f.mass.Some? { DecideAnomalyIgnores(f, g); }
    }
  }
}
