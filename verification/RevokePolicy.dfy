/** The decision over every removal a reconciliation sweep wants to make. */
module RevokePolicy {
  import opened Prelude
  import opened JsValues
  import IsoInstant

  datatype Source = KisiUserVanished | RoleDrift | HolderLapse | WixAbsence

  datatype DataSource = WixOrders | WixBookings | Kisi | Db

  datatype Mode = Off | DryRun | On

  datatype Reason =
    | InvalidProposal | SnapshotUnstable | MassRevoke
    | AutoRevokeOff | DryRunHold | StrikePending | ObservationOnly
  {
    /** Something needs a human. */
    predicate Anomaly() { InvalidProposal? || SnapshotUnstable? || MassRevoke? }
  }

  datatype Action = Proceed | Hold

  /** The arguments as they arrive: an absent one is Undefined. */
  datatype Args = Args(proposals: Value, currentManaged: Value, populations: Value, disagreement: Value,
                       mode: Value, observationOnly: Value, now: Value, strikePolicy: Value)

  /** currentManaged, once it is known to be a count. */
  function Managed(a: Args): nat {
    if IsCount(a.currentManaged) then CountOf(a.currentManaged) else 0
  }

  datatype Decision = Decision(action: Action, reason: Option<Reason>, detail: Option<string>,
                               dataSource: Option<DataSource>,
                               flush: seq<Value>, held: seq<Value>, strikePending: seq<Value>)

  // --- Vocabulary ---

  function SourceOf(v: Value): Option<Source> {
    if v == Str("kisi_user_vanished") then Some(KisiUserVanished)
    else if v == Str("role_drift") then Some(RoleDrift)
    else if v == Str("holder_lapse") then Some(HolderLapse)
    else if v == Str("wix_absence") then Some(WixAbsence)
    else None
  }

  function Name(d: DataSource): string {
    match d
    case WixOrders => "wix_orders"
    case WixBookings => "wix_bookings"
    case Kisi => "kisi"
    case Db => "db"
  }

  function DataSourceNamed(name: string): Option<DataSource> {
    if name == "wix_orders" then Some(WixOrders)
    else if name == "wix_bookings" then Some(WixBookings)
    else if name == "kisi" then Some(Kisi)
    else if name == "db" then Some(Db)
    else None
  }

  function DataSourceOf(v: Value): Option<DataSource> {
    if v.Str? then DataSourceNamed(v.s) else None
  }

  predicate Allowed(s: Source, d: DataSource) {
    match s
    case WixAbsence => d.WixOrders? || d.WixBookings?
    case HolderLapse => d.WixOrders?
    case KisiUserVanished => d.Kisi?
    case RoleDrift => d.Kisi?
  }

  predicate NeedsClassification(s: Source) {
    s.WixAbsence? || s.HolderLapse?
  }

  /** Fail-closed: only the exact strings count. */
  function NormalizeMode(raw: Value): Mode {
    if raw == Str("on") then On else if raw == Str("dry_run") then DryRun else Off
  }

  /** A quarter of the population, rounded up, and never less than two. */
  function RevalidationThreshold(population: nat): nat {
    var quarter := (population + 3) / 4;
    if quarter < 2 then 2 else quarter
  }

  /** The fewest units that are more than half of the population. */
  function MassRevokeThreshold(population: nat): nat {
    population / 2 + 1
  }

  // --- Strike clock ---

  function SinceMs(since: Value): Option<real> {
    match since
    case Str(s) => (match IsoInstant.Parse(s) case Some(ms) => Some(ms as real) case None => None)
    case Date(t) => if t.Fin? && t.r >= 0.0 then Some(t.r) else None
    case _ => None
  }

  function StrikeProblem(strike: Value): Option<string> {
    if strike.Undefined? || strike.Null? then None
    else if !IsRecord(strike) then Some("invalid_strike")
    else if Get(strike, "since") != Null && SinceMs(Get(strike, "since")).None? then Some("invalid_strike_since")
    else if !IsCount(Get(strike, "observations")) then Some("invalid_strike_observations")
    else None
  }

  /** Not paying for long enough, and seen often enough. */
  predicate StrikeSatisfied(strike: Value, now: Value, policy: Value) {
    if !IsRecord(strike) || !IsPlainObject(policy) then false
    else if !(now.Num? && now.n.Fin?) then false
    else
      var minAge := Get(policy, "minAgeMs");
      var minObservations := Get(policy, "minObservations");
      if !(minAge.Num? && minAge.n.Fin?) || minAge.n.r < 0.0 then false
      else if !IsCount(minObservations) then false
      else
        var since := SinceMs(Get(strike, "since"));
        && since.Some?
        && IsCount(Get(strike, "observations"))
        && now.n.r - since.value >= minAge.n.r
        && CountOf(Get(strike, "observations")) >= CountOf(minObservations)
  }

  // --- Validation ---

  predicate KeyMissing(key: Value) {
    !key.Str? || Blank(key.s) || key.s in ["undefined", "null", "NaN", "[object Object]"]
  }

  function UnitOf(p: Value): Value {
    if Get(p, "unitKey").Undefined? then Get(p, "memberKey") else Get(p, "unitKey")
  }

  predicate UnitStructureValid(p: Value, s: Source) {
    var unitKey, memberKey := Get(p, "unitKey"), Get(p, "memberKey");
    match s
    case WixAbsence => unitKey.Undefined? || unitKey == memberKey
    case HolderLapse => !unitKey.Undefined? && unitKey != memberKey
    case _ => true
  }

  predicate Removable(classification: Value) {
    classification == Str("ENDED") || classification == Str("ABSENT")
  }

  function ProposalProblem(p: Value): Option<string> {
    var memberKey, unitKey := Get(p, "memberKey"), Get(p, "unitKey");
    var source, dataSource := SourceOf(Get(p, "source")), DataSourceOf(Get(p, "dataSource"));
    if !IsRecord(p) then Some("proposal_not_object")
    else if KeyMissing(memberKey) then Some("missing_member_key")
    else if Padded(memberKey.s) then Some("padded_member_key")
    else if !unitKey.Undefined? && KeyMissing(unitKey) then Some("invalid_unit_key")
    else if !unitKey.Undefined? && Padded(unitKey.s) then Some("padded_unit_key")
    else if source.None? then Some("unknown_source")
    else if dataSource.None? then Some("unknown_data_source")
    else if !Allowed(source.value, dataSource.value) then Some("data_source_mismatch")
    else if !UnitStructureValid(p, source.value) then Some("unit_structure_invalid")
    else if NeedsClassification(source.value) && !Removable(Get(p, "classification"))
        then Some("classification_not_removable")
    else StrikeProblem(Get(p, "strike"))
  }

  function FirstProposalProblem(items: seq<Value>): Option<string> {
    if items == [] then None
    else if ProposalProblem(items[0]).Some? then ProposalProblem(items[0])
    else FirstProposalProblem(items[1..])
  }

  /** Distinct paying relationships: what every cap counts. */
  function Units(items: seq<Value>): set<Value> {
    set p | p in items :: UnitOf(p)
  }

  function UnitsFrom(items: seq<Value>, d: DataSource): set<Value> {
    set p | p in items && Get(p, "dataSource") == Str(Name(d)) :: UnitOf(p)
  }

  function PopulationEntryProblem(fields: seq<(string, Value)>): Option<string> {
    if fields == [] then None
    else if DataSourceNamed(fields[0].0).None? then Some("unknown_population_key:" + fields[0].0)
    else if !IsCount(fields[0].1) then Some("invalid_population:" + fields[0].0)
    else PopulationEntryProblem(fields[1..])
  }

  function PopulationProblem(populations: Value): Option<string> {
    if !IsPlainObject(populations) then Some("invalid_population_by_data_source")
    else PopulationEntryProblem(populations.fields)
  }

  function DisagreementEntryProblem(fields: seq<(string, Value)>, populations: Value): Option<string> {
    if fields == [] then None
    else if DataSourceNamed(fields[0].0).None? then Some("unknown_read_disagreement_key:" + fields[0].0)
    else if !IsCount(fields[0].1) then Some("invalid_read_disagreement:" + fields[0].0)
    else if CountOf(fields[0].1) > 0 && !Has(populations, fields[0].0) then Some("missing_population_for_disagreement")
    else DisagreementEntryProblem(fields[1..], populations)
  }

  function DisagreementProblem(disagreement: Value, populations: Value): Option<string> {
    if !IsPlainObject(disagreement) then Some("invalid_read_disagreement")
    else DisagreementEntryProblem(disagreement.fields, populations)
  }

  function SourceProblem(items: seq<Value>, populations: Value, d: DataSource): Option<string> {
    if UnitsFrom(items, d) == {} then None
    else if !Has(populations, Name(d)) then Some("missing_population:" + Name(d))
    else if |UnitsFrom(items, d)| > CountAt(populations, Name(d)) then Some("proposals_exceed_population:" + Name(d))
    else None
  }

  function OrElse<T>(a: Option<T>, b: Option<T>): Option<T> {
    if a.Some? then a else b
  }

  function AnySourceProblem(items: seq<Value>, populations: Value): Option<string> {
    OrElse(SourceProblem(items, populations, WixOrders),
    OrElse(SourceProblem(items, populations, WixBookings),
    OrElse(SourceProblem(items, populations, Kisi), SourceProblem(items, populations, Db))))
  }

  function ClockProblem(now: Value, policy: Value): Option<string> {
    if !(now.Num? && now.n.Fin?) || now.n.r < 0.0 then Some("invalid_now")
    else if !IsPlainObject(policy) then Some("invalid_strike_policy")
    else if !(Get(policy, "minAgeMs").Num? && Get(policy, "minAgeMs").n.Fin?) || Get(policy, "minAgeMs").n.r < 0.0 then
      Some("invalid_strike_policy:min_age_ms")
    else if !IsCount(Get(policy, "minObservations")) then Some("invalid_strike_policy:min_observations")
    else None
  }

  function Validate(a: Args): Option<string> {
    if !a.proposals.Arr? then Some("proposals_not_array")
    else
      var items := a.proposals.items;
      if FirstProposalProblem(items).Some? then FirstProposalProblem(items)
      else if !IsCount(a.currentManaged) then Some("invalid_current_managed")
      else if |Units(items)| > CountOf(a.currentManaged) then Some("proposals_exceed_population")
      else OrElse(PopulationProblem(a.populations),
           OrElse(AnySourceProblem(items, a.populations),
           OrElse(DisagreementProblem(a.disagreement, a.populations), ClockProblem(a.now, a.strikePolicy))))
  }

  // --- Anomalies ---

  predicate UnstableAt(populations: Value, disagreement: Value, d: DataSource) {
    var disagreed := CountAt(disagreement, Name(d));
    disagreed != 0 && disagreed >= RevalidationThreshold(CountAt(populations, Name(d)))
  }

  function UnstableDataSource(populations: Value, disagreement: Value): Option<DataSource> {
    if UnstableAt(populations, disagreement, WixOrders) then Some(WixOrders)
    else if UnstableAt(populations, disagreement, WixBookings) then Some(WixBookings)
    else if UnstableAt(populations, disagreement, Kisi) then Some(Kisi)
    else if UnstableAt(populations, disagreement, Db) then Some(Db)
    else None
  }

  predicate MassAt(items: seq<Value>, populations: Value, d: DataSource) {
    && Has(populations, Name(d))
    && CountAt(populations, Name(d)) >= 2
    && |UnitsFrom(items, d)| >= MassRevokeThreshold(CountAt(populations, Name(d)))
  }

  predicate MassAggregate(items: seq<Value>, currentManaged: nat) {
    currentManaged >= 2 && |Units(items)| >= MassRevokeThreshold(currentManaged)
  }

  /** Some(None) is the aggregate cap, Some(Some(d)) the cap of one data source. */
  function MassRevokeAt(items: seq<Value>, currentManaged: nat, populations: Value): Option<Option<DataSource>> {
    if MassAggregate(items, currentManaged) then Some(None)
    else if MassAt(items, populations, WixOrders) then Some(Some(WixOrders))
    else if MassAt(items, populations, WixBookings) then Some(Some(WixBookings))
    else if MassAt(items, populations, Kisi) then Some(Some(Kisi))
    else if MassAt(items, populations, Db) then Some(Some(Db))
    else None
  }

  // --- The decision ---

  /** Proposals whose strike is met (`ripe`) or not, in input order. */
  function Sift(items: seq<Value>, now: Value, policy: Value, ripe: bool): seq<Value> {
    if items == [] then []
    else (if StrikeSatisfied(Get(items[0], "strike"), now, policy) == ripe then [items[0]] else [])
         + Sift(items[1..], now, policy, ripe)
  }

  function HoldAll(reason: Reason, items: seq<Value>, detail: Option<string>, d: Option<DataSource>): Decision {
    Decision(Hold, Some(reason), detail, d, [], items, [])
  }

  function EvaluateEmpty(populations: Value, disagreement: Value): Decision {
    var invalid := OrElse(PopulationProblem(populations), DisagreementProblem(disagreement, populations));
    if invalid.Some? then HoldAll(InvalidProposal, [], invalid, None)
    else if UnstableDataSource(populations, disagreement).Some? then
      HoldAll(SnapshotUnstable, [], Some("read_disagreement"), UnstableDataSource(populations, disagreement))
    else Decision(Proceed, None, None, None, [], [], [])
  }

  /** What the checks find out about a batch, each looked at in the order the decision uses them. */
  datatype Findings = Findings(items: seq<Value>, invalid: Option<string>, unstable: Option<DataSource>,
                               mass: Option<Option<DataSource>>, armed: bool, mode: Mode,
                               ready: seq<Value>, waiting: seq<Value>)

  function Examine(a: Args): Findings {
    var items := if a.proposals.Arr? then a.proposals.items else [];
    var invalid := Validate(a);
    Findings(items, invalid, UnstableDataSource(a.populations, a.disagreement),
             if invalid.None? then MassRevokeAt(items, Managed(a), a.populations) else None,
             a.observationOnly == Bool(false), NormalizeMode(a.mode),
             Sift(items, a.now, a.strikePolicy, true), Sift(items, a.now, a.strikePolicy, false))
  }

  function Decide(f: Findings): Decision {
    if f.invalid.Some? then HoldAll(InvalidProposal, f.items, f.invalid, None)
    else if f.unstable.Some? then HoldAll(SnapshotUnstable, f.items, Some("read_disagreement"), f.unstable)
    else if f.mass.Some? then
      HoldAll(MassRevoke, f.items, Some(if f.mass.value.None? then "aggregate" else "per_data_source"), f.mass.value)
    else if !f.armed then HoldAll(ObservationOnly, f.items, None, None)
    else if f.mode.Off? then HoldAll(AutoRevokeOff, f.items, None, None)
    else if f.mode.DryRun? then HoldAll(DryRunHold, f.items, None, None)
    else if f.ready == [] then Decision(Hold, Some(StrikePending), None, None, [], [], f.waiting)
    else Decision(Proceed, None, None, None, f.ready, [], f.waiting)
  }

  function Evaluate(a: Args): Decision {
    if a.proposals == Arr([]) then EvaluateEmpty(a.populations, a.disagreement) else Decide(Examine(a))
  }
}
