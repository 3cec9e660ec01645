/** The removal policy said once more in the words of its input: literal field names, literal strings and
    plain arithmetic, with none of the policy's own vocabulary. */
module PolicyMeaning {
  import opened Prelude
  import opened JsValues
  import opened RevokePolicy
  import opened PolicyProofs
  import IsoInstant

  // --- One proposal ---

  function Trim(s: string): string
    decreases |s|
  {
    if s == "" then ""
    else if IsSpace(s[0]) then Trim(s[1..])
    else if IsSpace(s[|s| - 1]) then Trim(s[..|s| - 1])
    else s
  }

  lemma {:induction false} TrimMeans(s: string)
    ensures Blank(s) <==> Trim(s) == ""
    ensures !Blank(s) ==> (Padded(s) <==> Trim(s) != s)
    ensures |Trim(s)| <= |s|
    decreases |s|
  {
    if s != "" && IsSpace(s[0]) {
      TrimMeans(s[1..]);
    } else if s != "" && IsSpace(s[|s| - 1]) {
      TrimMeans(s[..|s| - 1]);
    }
  }

  /** A string that says who: nothing to trim, and not what a missing value prints as. */
  ghost predicate GoodKey(v: Value) {
    && v.Str? && v.s != "" && Trim(v.s) == v.s
    && v != Str("undefined") && v != Str("null") && v != Str("NaN") && v != Str("[object Object]")
  }

  ghost predicate IsObject(v: Value) {
    v.Obj? || v.Date?
  }

  ghost predicate Count(v: Value, n: nat) {
    v == Num(Fin(n as real))
  }

  ghost predicate SomeCount(v: Value) {
    exists n: nat :: Count(v, n)
  }

  lemma CountMeans(v: Value)
    ensures IsCount(v) <==> SomeCount(v)
    ensures forall n: nat :: Count(v, n) ==> CountOf(v) == n
  {
    if IsCount(v) { assert Count(v, CountOf(v)); }
    if n: nat :| Count(v, n) { assert (n as real).Floor == n; }
  }

  /** The clock of a strike stands at `t`. */
  ghost predicate StartedAt(since: Value, t: real) {
    || (since.Str? && exists ms: nat :: IsoInstant.Parse(since.s) == Some(ms) && t == ms as real)
    || (since == Date(Fin(t)) && t >= 0.0)
  }

  ghost predicate GoodStrike(strike: Value) {
    || strike == Undefined || strike == Null
    || (IsObject(strike) && SomeCount(Get(strike, "observations"))
        && (Get(strike, "since") == Null || exists t :: StartedAt(Get(strike, "since"), t)))
  }

  /** Which evidence may come from which read, about which unit, on which classification. */
  ghost predicate GoodEvidence(source: Value, read: Value, member: Value, unit: Value, found: Value) {
    || (&& source == Str("wix_absence") && (read == Str("wix_orders") || read == Str("wix_bookings"))
        && (unit == Undefined || unit == member) && (found == Str("ENDED") || found == Str("ABSENT")))
    || (&& source == Str("holder_lapse") && read == Str("wix_orders")
        && unit != Undefined && unit != member && (found == Str("ENDED") || found == Str("ABSENT")))
    || ((source == Str("kisi_user_vanished") || source == Str("role_drift")) && read == Str("kisi"))
  }

  ghost predicate GoodProposal(p: Value) {
    var member, unit := Get(p, "memberKey"), Get(p, "unitKey");
    && IsObject(p) && GoodKey(member) && (unit == Undefined || GoodKey(unit))
    && GoodEvidence(Get(p, "source"), Get(p, "dataSource"), member, unit, Get(p, "classification"))
    && GoodStrike(Get(p, "strike"))
  }

  lemma KeyMeans(v: Value)
    ensures GoodKey(v) <==> !KeyMissing(v) && !Padded(v.s)
  {
    if v.Str? { TrimMeans(v.s); }
  }

  lemma SinceMeans(since: Value)
    ensures forall t :: SinceMs(since) == Some(t) <==> StartedAt(since, t)
  {
  }

  lemma StrikeMeans(strike: Value)
    ensures StrikeProblem(strike).None? <==> GoodStrike(strike)
  {
    CountMeans(Get(strike, "observations"));
    SinceMeans(Get(strike, "since"));
    var since := SinceMs(Get(strike, "since"));
    if since.Some? { assert StartedAt(Get(strike, "since"), since.value); }
  }

  lemma EvidenceMeans(p: Value)
    ensures var source, read := SourceOf(Get(p, "source")), DataSourceOf(Get(p, "dataSource"));
            GoodEvidence(Get(p, "source"), Get(p, "dataSource"), Get(p, "memberKey"), Get(p, "unitKey"),
                         Get(p, "classification")) <==>
              && source.Some? && read.Some? && Allowed(source.value, read.value)
              && UnitStructureValid(p, source.value)
              && (NeedsClassification(source.value) ==> Removable(Get(p, "classification")))
  {
  }

  /** A proposal passes validation if and only if it is good in this sense. */
  lemma ProposalMeans(p: Value)
    ensures ProposalProblem(p).None? <==> GoodProposal(p)
  {
    KeyMeans(Get(p, "memberKey"));
    KeyMeans(Get(p, "unitKey"));
    EvidenceMeans(p);
    StrikeMeans(Get(p, "strike"));
  }

  // --- Units ---

  /** The distinct values of one field. */
  ghost function Keys(items: seq<Value>, field: string): set<Value> {
    set p | p in items :: Get(p, field)
  }

  /** Whom a batch is about: by unit key where there is one, else by member key. */
  ghost function Named(items: seq<Value>): set<Value> {
    (set p | p in items && Get(p, "unitKey") != Undefined :: Get(p, "unitKey")) +
    (set p | p in items && Get(p, "unitKey") == Undefined :: Get(p, "memberKey"))
  }

  ghost function NamedFrom(items: seq<Value>, read: string): set<Value> {
    (set p | p in items && Get(p, "dataSource") == Str(read) && Get(p, "unitKey") != Undefined :: Get(p, "unitKey")) +
    (set p | p in items && Get(p, "dataSource") == Str(read) && Get(p, "unitKey") == Undefined :: Get(p, "memberKey"))
  }

  /** The reads, in the order they are blamed in. */
  const READS := ["wix_orders", "wix_bookings", "kisi", "db"]

  function ReadName(d: DataSource): string {
    READS[match d case WixOrders => 0 case WixBookings => 1 case Kisi => 2 case Db => 3]
  }

  lemma UnitsMean(items: seq<Value>)
    ensures Units(items) == Named(items)
    ensures forall d :: UnitsFrom(items, d) == NamedFrom(items, ReadName(d))
  {
    assert forall p :: p in items ==> UnitOf(p) in Units(items);
    forall d ensures UnitsFrom(items, d) == NamedFrom(items, ReadName(d)) {
      assert Name(d) == ReadName(d);
      assert forall p :: p in items && Get(p, "dataSource") == Str(Name(d)) ==> UnitOf(p) in UnitsFrom(items, d);
    }
  }

  lemma NamedByOneField(items: seq<Value>)
    ensures (forall p :: p in items ==> Get(p, "unitKey") != Undefined) ==> Named(items) == Keys(items, "unitKey")
    ensures (forall p :: p in items ==> Get(p, "unitKey") == Undefined) ==> Named(items) == Keys(items, "memberKey")
  {
  }

  // --- The numbers beside the proposals ---

  ghost predicate Plain(v: Value) {
    v.Obj? && v.plain
  }

  /** What a keyed map says of one read; nothing said is zero. */
  ghost predicate Says(v: Value, read: string, n: nat) {
    Count(Get(v, read), n) || (!SomeCount(Get(v, read)) && n == 0)
  }

  ghost predicate GoodPopulations(populations: Value) {
    && Plain(populations)
    && forall f :: f in populations.fields ==> f.0 in READS && SomeCount(f.1)
  }

  ghost predicate GoodDisagreement(disagreement: Value, populations: Value) {
    && Plain(disagreement)
    && forall f :: f in disagreement.fields ==>
         f.0 in READS && SomeCount(f.1) && (!Count(f.1, 0) ==> Has(populations, f.0))
  }

  lemma ReadNames(name: string)
    ensures DataSourceNamed(name).Some? <==> name in READS
    ensures DataSourceNamed(name).Some? ==> ReadName(DataSourceNamed(name).value) == name
    ensures forall d :: Name(d) == ReadName(d) && ReadName(d) in READS
  {
    forall d: DataSource ensures Name(d) == ReadName(d) && ReadName(d) in READS {
      match d case WixOrders => case WixBookings => case Kisi => case Db =>
    }
  }

  lemma {:induction false} PopulationEntriesMean(fields: seq<(string, Value)>)
    ensures PopulationEntryProblem(fields).None? <==> forall f :: f in fields ==> f.0 in READS && SomeCount(f.1)
  {
    if fields != [] {
      PopulationEntriesMean(fields[1..]);
      ReadNames(fields[0].0);
      CountMeans(fields[0].1);
      assert forall f :: f in fields <==> f == fields[0] || f in fields[1..];
    }
  }

  lemma {:induction false} DisagreementEntriesMean(fields: seq<(string, Value)>, populations: Value)
    ensures DisagreementEntryProblem(fields, populations).None? <==>
              forall f :: f in fields ==>
                f.0 in READS && SomeCount(f.1) && (!Count(f.1, 0) ==> Has(populations, f.0))
  {
    if fields != [] {
      DisagreementEntriesMean(fields[1..], populations);
      ReadNames(fields[0].0);
      CountMeans(fields[0].1);
      assert forall f :: f in fields <==> f == fields[0] || f in fields[1..];
    }
  }

  lemma ReadsMean(a: Args)
    ensures ReadsSound(a) <==> GoodPopulations(a.populations) && GoodDisagreement(a.disagreement, a.populations)
  {
    if a.populations.Obj? { PopulationEntriesMean(a.populations.fields); }
    if a.disagreement.Obj? { DisagreementEntriesMean(a.disagreement.fields, a.populations); }
  }

  lemma SaysMeans(v: Value, d: DataSource)
    ensures forall n: nat :: Says(v, ReadName(d), n) <==> CountAt(v, Name(d)) == n
  {
    ReadNames(ReadName(d));
    CountMeans(Get(v, ReadName(d)));
  }

  /** A read disagrees with itself too much: about two units or more, and a quarter or more of its own. */
  ghost predicate Wobbles(populations: Value, disagreement: Value, read: string) {
    exists n: nat, m: nat :: Says(populations, read, n) && Says(disagreement, read, m) && m >= 2 && 4 * m >= n
  }

  lemma WobblesMeans(populations: Value, disagreement: Value, d: DataSource)
    ensures UnstableAt(populations, disagreement, d) <==> Wobbles(populations, disagreement, ReadName(d))
  {
    SaysMeans(populations, d);
    SaysMeans(disagreement, d);
    var n, m := CountAt(populations, Name(d)), CountAt(disagreement, Name(d));
    assert Says(populations, ReadName(d), n) && Says(disagreement, ReadName(d), m);
  }

  /** More than half of a population of two or more. */
  predicate MoreThanHalf(units: nat, population: nat) {
    population >= 2 && 2 * units > population
  }

  ghost predicate MassFrom(items: seq<Value>, populations: Value, read: string) {
    Has(populations, read) && exists n: nat :: Says(populations, read, n) && MoreThanHalf(|NamedFrom(items, read)|, n)
  }

  lemma MassAtMeans(items: seq<Value>, populations: Value, d: DataSource)
    ensures MassAt(items, populations, d) <==> MassFrom(items, populations, ReadName(d))
  {
    UnitsMean(items);
    SaysMeans(populations, d);
    ReadNames(ReadName(d));
    assert Says(populations, ReadName(d), CountAt(populations, Name(d)));
  }

  /** The mass check trips exactly by the number of distinct units named: many proposals about one unit
      count once, and one proposal about each of many counts them all. */
  lemma MassMeans(items: seq<Value>, populations: Value)
    ensures forall n: nat :: MassAggregate(items, n) <==> MoreThanHalf(|Named(items)|, n)
    ensures forall d :: MassAt(items, populations, d) <==> MassFrom(items, populations, ReadName(d))
  {
    UnitsMean(items);
    forall d ensures MassAt(items, populations, d) <==> MassFrom(items, populations, ReadName(d)) {
      MassAtMeans(items, populations, d);
    }
  }

  // --- The decision ---

  ghost predicate GoodClock(now: Value, policy: Value) {
    && (exists t :: now == Num(Fin(t)) && t >= 0.0)
    && Plain(policy) && (exists age :: Get(policy, "minAgeMs") == Num(Fin(age)) && age >= 0.0)
    && SomeCount(Get(policy, "minObservations"))
  }

  lemma ClockMeans(now: Value, policy: Value)
    ensures ClockProblem(now, policy).None? <==> GoodClock(now, policy)
  {
    CountMeans(Get(policy, "minObservations"));
    if ClockProblem(now, policy).None? {
      assert now == Num(Fin(now.n.r)) && Get(policy, "minAgeMs") == Num(Fin(Get(policy, "minAgeMs").n.r));
    }
  }

  /** All reads are counted, and there are no more units than the read holds. */
  ghost predicate Covered(items: seq<Value>, populations: Value, read: string) {
    NamedFrom(items, read) != {} ==>
      && Has(populations, read)
      && exists n: nat :: Says(populations, read, n) && |NamedFrom(items, read)| <= n
  }

  /** The whole batch can be believed. */
  ghost predicate GoodBatch(a: Args) {
    && a.proposals.Arr? && (forall p :: p in a.proposals.items ==> GoodProposal(p))
    && (exists n: nat :: Count(a.currentManaged, n) && |Named(a.proposals.items)| <= n)
    && (forall read :: read in READS ==> Covered(a.proposals.items, a.populations, read))
    && GoodPopulations(a.populations) && GoodDisagreement(a.disagreement, a.populations)
    && GoodClock(a.now, a.strikePolicy)
  }

  lemma CoveredMeans(items: seq<Value>, populations: Value)
    ensures (forall read :: read in READS ==> Covered(items, populations, read)) <==>
            forall d :: UnitsFrom(items, d) != {} ==>
              Has(populations, Name(d)) && |UnitsFrom(items, d)| <= CountAt(populations, Name(d))
  {
    UnitsMean(items);
    forall d
      ensures Covered(items, populations, ReadName(d)) <==>
                (UnitsFrom(items, d) != {} ==>
                   Has(populations, Name(d)) && |UnitsFrom(items, d)| <= CountAt(populations, Name(d)))
    {
      SaysMeans(populations, d);
      ReadNames(ReadName(d));
      assert Says(populations, ReadName(d), CountAt(populations, Name(d)));
    }
    forall read | read in READS ensures exists d :: ReadName(d) == read { ReadNames(read); }
    assert forall d :: ReadName(d) in READS by { ReadNames(""); }
  }

  lemma BatchMeans(a: Args)
    ensures Trusted(a) <==> GoodBatch(a)
  {
    if a.proposals.Arr? {
      var items := a.proposals.items;
      forall p ensures ProposalProblem(p).None? <==> GoodProposal(p) { ProposalMeans(p); }
      CountMeans(a.currentManaged);
      UnitsMean(items);
      CoveredMeans(items, a.populations);
      ReadsMean(a);
      ClockMeans(a.now, a.strikePolicy);
      if IsCount(a.currentManaged) { assert Count(a.currentManaged, Managed(a)); }
    }
  }

  ghost predicate AnyWobbles(a: Args) {
    exists read :: read in READS && Wobbles(a.populations, a.disagreement, read)
  }

  ghost predicate Mass(a: Args)
    requires a.proposals.Arr?
  {
    || (exists n: nat :: Count(a.currentManaged, n) && MoreThanHalf(|Named(a.proposals.items)|, n))
    || (exists read :: read in READS && MassFrom(a.proposals.items, a.populations, read))
  }

  lemma AnyMeans(a: Args)
    ensures AnyWobbles(a) <==> exists d :: UnstableAt(a.populations, a.disagreement, d)
    ensures a.proposals.Arr? && IsCount(a.currentManaged) ==>
              (Mass(a) <==> || MassAggregate(a.proposals.items, Managed(a))
                            || exists d :: MassAt(a.proposals.items, a.populations, d))
  {
    forall d ensures UnstableAt(a.populations, a.disagreement, d) <==>
                     Wobbles(a.populations, a.disagreement, ReadName(d)) {
      WobblesMeans(a.populations, a.disagreement, d);
    }
    forall read | read in READS ensures exists d :: ReadName(d) == read { ReadNames(read); }
    assert forall d :: ReadName(d) in READS by { ReadNames(""); }
    CountMeans(a.currentManaged);
    if a.proposals.Arr? { MassMeans(a.proposals.items, a.populations); }
  }

  /** Not paying since `minAgeMs` ago or longer, and seen so often. */
  ghost predicate Ripe(p: Value, now: Value, policy: Value) {
    var strike := Get(p, "strike");
    && IsObject(strike) && Plain(policy)
    && exists t, began, age, seen: nat, wanted: nat ::
         && now == Num(Fin(t)) && StartedAt(Get(strike, "since"), began)
         && Get(policy, "minAgeMs") == Num(Fin(age)) && age >= 0.0 && began + age <= t
         && Count(Get(strike, "observations"), seen) && Count(Get(policy, "minObservations"), wanted) && wanted <= seen
  }

  lemma RipeMeans(p: Value, now: Value, policy: Value)
    ensures StrikeSatisfied(Get(p, "strike"), now, policy) <==> Ripe(p, now, policy)
  {
    var strike := Get(p, "strike");
    var since := SinceMs(Get(strike, "since"));
    CountMeans(Get(strike, "observations"));
    CountMeans(Get(policy, "minObservations"));
    SinceMeans(Get(strike, "since"));
    if StrikeSatisfied(strike, now, policy) {
      assert StartedAt(Get(strike, "since"), since.value);
      assert Count(Get(strike, "observations"), CountOf(Get(strike, "observations")));
      assert Count(Get(policy, "minObservations"), CountOf(Get(policy, "minObservations")));
    }
  }

  /** Which proposals go, from the input alone: the batch is good and not empty, the sweep is armed and its
      mode "on", no read wobbles, no more than half of anything is named, and the strike is ripe. */
  lemma FlushMeans(a: Args, p: Value)
    ensures p in Evaluate(a).flush <==>
              && GoodBatch(a) && p in a.proposals.items && Ripe(p, a.now, a.strikePolicy)
              && a.observationOnly == Bool(false) && a.mode == Str("on")
              && !AnyWobbles(a) && !Mass(a)
  {
    FlushedIff(a, p);
    BatchMeans(a);
    AnyMeans(a);
    RipeMeans(p, a.now, a.strikePolicy);
  }

  lemma FlushedIsGood(a: Args, p: Value)
    requires p in Evaluate(a).flush
    ensures GoodBatch(a) && p in a.proposals.items && GoodProposal(p)
  {
    FlushMeans(a, p);
  }

  /** The outcome and its reason, first match first. */
  ghost predicate Reported(a: Args, action: Action, reason: Option<Reason>) {
    if !a.proposals.Arr? then action == Hold && reason == Some(InvalidProposal)
    else if a.proposals.items == [] then
      if !(GoodPopulations(a.populations) && GoodDisagreement(a.disagreement, a.populations)) then
        action == Hold && reason == Some(InvalidProposal)
      else if AnyWobbles(a) then action == Hold && reason == Some(SnapshotUnstable)
      else action == Proceed && reason == None
    else if !GoodBatch(a) then action == Hold && reason == Some(InvalidProposal)
    else if AnyWobbles(a) then action == Hold && reason == Some(SnapshotUnstable)
    else if Mass(a) then action == Hold && reason == Some(MassRevoke)
    else if a.observationOnly != Bool(false) then action == Hold && reason == Some(ObservationOnly)
    else if a.mode == Str("dry_run") then action == Hold && reason == Some(DryRunHold)
    else if a.mode != Str("on") then action == Hold && reason == Some(AutoRevokeOff)
    else if forall p :: p in a.proposals.items ==> !Ripe(p, a.now, a.strikePolicy) then
      action == Hold && reason == Some(StrikePending)
    else action == Proceed && reason == None
  }

  lemma DecideReports(f: Findings)
    ensures var d := Decide(f);
            if f.invalid.Some? then d.action == Hold && d.reason == Some(InvalidProposal)
            else if f.unstable.Some? then d.action == Hold && d.reason == Some(SnapshotUnstable)
            else if f.mass.Some? then d.action == Hold && d.reason == Some(MassRevoke)
            else if !f.armed then d.action == Hold && d.reason == Some(ObservationOnly)
            else if f.mode == DryRun then d.action == Hold && d.reason == Some(DryRunHold)
            else if f.mode == Off then d.action == Hold && d.reason == Some(AutoRevokeOff)
            else if f.ready == [] then d.action == Hold && d.reason == Some(StrikePending)
            else d.action == Proceed && d.reason == None
  {
  }

  lemma ReasonMeans(a: Args)
    ensures Reported(a, Evaluate(a).action, Evaluate(a).reason)
  {
    BatchMeans(a);
    AnyMeans(a);
    if a.proposals == Arr([]) {
      ReadsMean(a);
      UnstableIff(a.populations, a.disagreement);
    } else {
      var f := Examine(a);
      FindingsMean(a);
      DecideReports(f);
      assert f.mode == DryRun <==> a.mode == Str("dry_run");
      assert f.ready == [] <==> forall p :: p !in f.ready by { if f.ready != [] { assert f.ready[0] in f.ready; } }
      forall p ensures StrikeSatisfied(Get(p, "strike"), a.now, a.strikePolicy) <==> Ripe(p, a.now, a.strikePolicy) {
        RipeMeans(p, a.now, a.strikePolicy);
      }
    }
  }

  /** The first of these reads in the fixed order. */
  ghost predicate First(tripping: set<string>, read: string) {
    read in tripping && exists i ::
      0 <= i < |READS| && READS[i] == read && forall j :: 0 <= j < i ==> READS[j] !in tripping
  }

  ghost function Wobbling(a: Args): set<string> {
    set read | read in READS && Wobbles(a.populations, a.disagreement, read)
  }

  ghost function Massive(items: seq<Value>, populations: Value): set<string> {
    set read | read in READS && MassFrom(items, populations, read)
  }

  ghost predicate FirstUnstable(a: Args, d: Option<DataSource>) {
    d.Some? && First(Wobbling(a), ReadName(d.value))
  }

  ghost predicate FirstMass(a: Args, d: Option<DataSource>)
    requires a.proposals.Arr?
  {
    if exists n: nat :: Count(a.currentManaged, n) && MoreThanHalf(|Named(a.proposals.items)|, n) then d == None
    else d.Some? && First(Massive(a.proposals.items, a.populations), ReadName(d.value))
  }

  lemma FirstIs(tripping: set<string>, i: nat)
    requires i < |READS| && READS[i] in tripping && forall j :: 0 <= j < i ==> READS[j] !in tripping
    ensures First(tripping, READS[i])
  {
  }

  lemma UnstableIsFirst(a: Args)
    requires UnstableDataSource(a.populations, a.disagreement).Some?
    ensures FirstUnstable(a, UnstableDataSource(a.populations, a.disagreement))
  {
    WobblesMeans(a.populations, a.disagreement, WixOrders);
    WobblesMeans(a.populations, a.disagreement, WixBookings);
    WobblesMeans(a.populations, a.disagreement, Kisi);
    WobblesMeans(a.populations, a.disagreement, Db);
    var tripping := Wobbling(a);
    match UnstableDataSource(a.populations, a.disagreement).value
    case WixOrders => FirstIs(tripping, 0);
    case WixBookings => FirstIs(tripping, 1);
    case Kisi => FirstIs(tripping, 2);
    case Db => FirstIs(tripping, 3);
  }

  lemma MassIsFirst(a: Args)
    requires a.proposals.Arr? && IsCount(a.currentManaged)
    requires MassRevokeAt(a.proposals.items, Managed(a), a.populations).Some?
    ensures FirstMass(a, MassRevokeAt(a.proposals.items, Managed(a), a.populations).value)
  {
    var items, d := a.proposals.items, MassRevokeAt(a.proposals.items, Managed(a), a.populations).value;
    CountMeans(a.currentManaged);
    MassMeans(items, a.populations);
    assert Count(a.currentManaged, Managed(a));
    if d.Some? { FirstMassRead(items, Managed(a), a.populations, d.value); }
  }

  lemma InMassive(items: seq<Value>, populations: Value, d: DataSource)
    ensures ReadName(d) in Massive(items, populations) <==> MassAt(items, populations, d)
  {
    MassAtMeans(items, populations, d);
    ReadNames(ReadName(d));
  }

  lemma FirstMassRead(items: seq<Value>, managed: nat, populations: Value, d: DataSource)
    requires MassRevokeAt(items, managed, populations) == Some(Some(d))
    ensures First(Massive(items, populations), ReadName(d))
  {
    InMassive(items, populations, WixOrders);
    InMassive(items, populations, WixBookings);
    InMassive(items, populations, Kisi);
    InMassive(items, populations, Db);
    FirstOf(Massive(items, populations), d);
  }

  lemma FirstOf(tripping: set<string>, d: DataSource)
    requires ReadName(d) in tripping
    requires d == WixOrders || ReadName(WixOrders) !in tripping
    requires d == WixOrders || d == WixBookings || ReadName(WixBookings) !in tripping
    requires d == WixOrders || d == WixBookings || d == Kisi || ReadName(Kisi) !in tripping
    ensures First(tripping, ReadName(d))
  {
    match d
    case WixOrders => FirstIs(tripping, 0);
    case WixBookings => FirstIs(tripping, 1);
    case Kisi => FirstIs(tripping, 2);
    case Db => FirstIs(tripping, 3);
  }

  lemma DecideBlames(f: Findings)
    ensures var d := Decide(f);
            if d.reason == Some(SnapshotUnstable) then
              && f.invalid.None? && f.unstable.Some? && d.dataSource == f.unstable
              && d.detail == Some("read_disagreement")
            else if d.reason == Some(MassRevoke) then
              && f.invalid.None? && f.mass.Some? && d.dataSource == f.mass.value
              && d.detail == Some(if d.dataSource == None then "aggregate" else "per_data_source")
            else d.dataSource == None && (d.detail != None ==> d.reason == Some(InvalidProposal))
  {
  }

  /** Which read is blamed: the first that wobbles; for a mass removal none if the whole trips it, and the
      first that does otherwise; for everything else none. */
  lemma BlameMeans(a: Args)
    ensures var d := Evaluate(a);
            if d.reason == Some(SnapshotUnstable) then
              FirstUnstable(a, d.dataSource) && d.detail == Some("read_disagreement")
            else if d.reason == Some(MassRevoke) then
              && a.proposals.Arr? && FirstMass(a, d.dataSource)
              && d.detail == Some(if d.dataSource == None then "aggregate" else "per_data_source")
            else d.dataSource == None && (d.detail != None ==> d.reason == Some(InvalidProposal))
  {
    if UnstableDataSource(a.populations, a.disagreement).Some? { UnstableIsFirst(a); }
    if a.proposals != Arr([]) {
      var f := Examine(a);
      DecideBlames(f);
      if f.invalid.None? && f.mass.Some? {
        ValidateIffTrusted(a);
        MassIsFirst(a);
      }
    }
  }

  // --- The caps in the words of the input ---

  /** No sweep removes more than half of a population of two or more, in aggregate or of one read; what it
      removes is counted by unit keys where there are some, and by member keys where there are none. */
  lemma CapByKeys(a: Args, n: nat)
    requires Count(a.currentManaged, n) && n >= 2
    ensures var flush := Evaluate(a).flush;
            && 2 * |Named(flush)| <= n
            && ((forall p :: p in flush ==> Get(p, "unitKey") != Undefined) ==> 2 * |Keys(flush, "unitKey")| <= n)
            && ((forall p :: p in flush ==> Get(p, "unitKey") == Undefined) ==> 2 * |Keys(flush, "memberKey")| <= n)
  {
    var flush := Evaluate(a).flush;
    CountMeans(a.currentManaged);
    NamedByOneField(flush);
    UnitsMean(flush);
    FlushCap(a);
  }

  lemma CapByRead(a: Args, read: string, n: nat)
    requires read in READS && Says(a.populations, read, n) && n >= 2
    ensures 2 * |NamedFrom(Evaluate(a).flush, read)| <= n
  {
    var flush := Evaluate(a).flush;
    ReadNames(read);
    var d := DataSourceNamed(read).value;
    SaysMeans(a.populations, d);
    UnitsMean(flush);
    FlushCap(a);
  }
}
