/** One member's access row over its whole life: which status it carries while jobs grant, park, revoke,
    pause, resume, finalize, fail and die, and whether a revoke can still find it. Jobs of one member
    run one at a time; sweeps and crashes come in between at any point, and so do writers that looked at
    the member earlier and hold no lock: the loops over a location's members, the operator's unlock, and
    the removal of a sub-member. */
module Lifecycle {
  import opened Prelude
  import opened DoorWorld
  import opened GrantCancel
  import opened GrantReuse

  datatype Access = On | Off | InFlight | Removing | Deleted | PendingIdentity | RecoveryPending

  /** `Revoking` carries the rows its event is about; `Finalizing` comes after its rows are gone. */
  datatype Job = Idle | Granting | Revoking(doomed: iset<Key>) | Finalizing

  /** Reads the member first and writes its row later, whatever has become of it in between. */
  datatype Writer = LapseLoop | RestoreLoop | Operator | Remover

  /** `user`: the access row names a door-system user, the one that holds the roles. `due`: the writers
      that have read the member and not yet written. */
  datatype State = State(w: World, status: Access, user: bool, job: Job, due: multiset<Writer>)

  const START := State(EMPTY_WORLD, Off, false, Idle, multiset{})

  predicate AnyActive(rows: map<Key, Row>) {
    exists k :: k in rows && rows[k].status.Active?
  }

  function Rollup(rows: map<Key, Row>): Access {
    if AnyActive(rows) then On else Off
  }

  predicate SomethingToRemove(rows: map<Key, Row>) {
    exists k :: k in rows && (rows[k].status.Active? || (rows[k].status.Failed? && rows[k].role.Some?))
  }

  /** The revoke path's lookup. */
  predicate Findable(s: State) {
    && !s.status.Deleted?
    && (s.status.On? || s.status.InFlight? || s.status.Removing? || SomethingToRemove(s.w.rows))
  }

  // --- Steps ---

  datatype Step =
    | GrantStart
    | OpenDoor(group: string)
    | WriteRows(grant: GrantEvent, assignments: seq<Assignment>)
    | GrantDone(grant: GrantEvent, assignments: seq<Assignment>)
    | PassDone(pass: Key)
    | Park(parked: map<Key, string>, status: SourceStatus, rolled: bool)
    | ParkNothing
    | IdentityParked
    | GrantThrew(released: bool)
    | RevokeStart(doomed: iset<Key>)
    | Call(act: Act)
    | RevokeRecorded
    | DeletionRecorded
    | Paused
    | Resumed
    | RevokeThrew(released: bool)
    | Finalize(refused: bool)
    | FinalizeThrew(released: bool)
    | Crash
    | Meanwhile(b: Beside)

  /** What happens beside the jobs. */
  datatype Beside =
    | Listed(writer: Writer)
    | Lapse(keys: set<Key>)
    | Restore(keys: set<Key>)
    | Unlock
    | MarkRemoving
    | Rerolled
    | StaleLock

  predicate Waiting(status: SourceStatus) {
    status.PendingHardware? || status.PendingStart?
  }

  /** What a writer looks for when it reads the member. */
  predicate Chosen(s: State, writer: Writer) {
    match writer
    case LapseLoop => (s.status.On? || s.status.InFlight?) && AnyActive(s.w.rows)
    case RestoreLoop => (s.status.On? || s.status.Off?) && exists k :: k in s.w.rows && s.w.rows[k].status.Failed?
    case Operator => s.status.InFlight?
    case Remover => !s.status.Deleted? && s.user
  }

  /** Every door-system call for the ids on record has been made. */
  ghost predicate NoLiveIds(w: World) {
    forall k :: k in w.rows && w.rows[k].role.Some? ==>
      if k.kind.DayPass? then w.rows[k].role.value !in w.links else w.rows[k].role.value !in w.roles.Values
  }

  /** A grant opens doors one by one, then writes its rows, then the status; it may stop anywhere, or leave
      a row out for a holder who gave the seat back. `GrantDone` is what is left of it at any point.
      `Park` writes plans that wait for hardware or for their start, over whatever rows they have, and
      its rollup may fail; without a mapping it only sets the status. `DeletionRecorded` clears all rows
      once each id they carry has been closed. */
  ghost predicate Legal(s: State, step: Step) {
    match step
    case GrantStart => s.job.Idle?
    case OpenDoor(g) => s.job.Granting? && !HasReusable(s.w.rows, g)
    case WriteRows(_, assignments) => s.job.Granting? && Opened(s.w, s.w, assignments)
    case GrantDone(_, assignments) => s.job.Granting? && Opened(s.w, AssignAll(s.w, Called(assignments)), assignments)
    case PassDone(k) => s.job.Granting? && k.kind.DayPass? && (k in s.w.rows ==> s.w.rows[k].role.None?)
    case Park(parked, status, _) =>
      s.job.Granting? && Waiting(status) && forall k :: k in parked ==> !k.kind.DayPass?
    case ParkNothing => s.job.Granting?
    case IdentityParked => s.job.Granting?
    case GrantThrew(_) => s.job.Granting?
    case RevokeStart(doomed) => s.job.Idle? && Findable(s)
    case Call(act) => s.job.Revoking? && DoorWorld.Legal(s.w, s.job.doomed, act)
    case RevokeRecorded => s.job.Revoking?
    case DeletionRecorded => s.job.Revoking? && NoLiveIds(s.w)
    case Paused => s.job.Revoking?
    case Resumed => s.job.Revoking?
    case RevokeThrew(_) => s.job.Revoking?
    case Finalize(_) => s.job.Finalizing?
    case FinalizeThrew(_) => s.job.Finalizing?
    case Crash => true
    case Meanwhile(b) => MayHappen(s, b)
  }

  /** The reconcile sweep's `Rerolled` and `StaleLock` test the status in the write itself; the other
      writes only need to have read the member. */
  predicate MayHappen(s: State, b: Beside) {
    match b
    case Listed(writer) => Chosen(s, writer)
    case Lapse(_) => LapseLoop in s.due
    case Restore(_) => RestoreLoop in s.due
    case Unlock => Operator in s.due
    case MarkRemoving => Remover in s.due
    case Rerolled => s.status.On? || s.status.Off? || s.status.RecoveryPending?
    case StaleLock => s.status.InFlight?
  }

  function Flipped(rows: map<Key, Row>, keys: set<Key>, from: SourceStatus, to: SourceStatus): map<Key, Row> {
    map k | k in rows :: if k in keys && rows[k].status == from then rows[k].(status := to) else rows[k]
  }

  /** The doors without a recorded id are called for, the ids of the others copied, all rows written. */
  function Regrant(w: World, ev: GrantEvent, assignments: seq<Assignment>): World {
    RecordEach(AssignAll(w, Called(assignments)), ev, assignments)
  }

  function WithPass(w: World, k: Key): World {
    WithRow(w, k, Row("", Some(w.nextId), SourceStatus.Active)).(links := w.links + {w.nextId}, nextId := w.nextId + 1)
  }

  function WithParked(rows: map<Key, Row>, parked: map<Key, string>, status: SourceStatus): map<Key, Row> {
    map k | k in rows.Keys + parked.Keys ::
      if k !in parked then rows[k]
      else if k in rows then rows[k].(status := status)
      else Row(parked[k], None, status)
  }

  /** A change of rows with the rollup of the status in the same transaction. */
  function Rolled(s: State, rows: map<Key, Row>, job: Job): State {
    s.(w := s.w.(rows := rows), status := Rollup(rows), job := job)
  }

  function Done(s: State, writer: Writer): State {
    s.(due := s.due - multiset{writer})
  }

  function Happens(s: State, b: Beside): State {
    match b
    case Listed(writer) => s.(due := s.due + multiset{writer})
    case Lapse(keys) => Done(Rolled(s, Flipped(s.w.rows, keys, SourceStatus.Active, Failed), s.job), LapseLoop)
    case Restore(keys) => Done(Rolled(s, Flipped(s.w.rows, keys, Failed, SourceStatus.Active), s.job), RestoreLoop)
    case Unlock => Done(s.(status := RecoveryPending), Operator)
    case MarkRemoving => Done(s.(status := Removing), Remover)
    case Rerolled => s.(status := Rollup(s.w.rows))
    case StaleLock => s.(status := RecoveryPending)
  }

  ghost function Apply(s: State, step: Step): State
    requires Legal(s, step)
  {
    match step
    case GrantStart => s.(status := InFlight, user := s.user && !s.status.Deleted?, job := Granting)
    case OpenDoor(g) => s.(w := WithRole(s.w, g), user := true)
    case WriteRows(ev, assignments) => s.(w := RecordEach(s.w, ev, assignments))
    case GrantDone(ev, assignments) =>
      var w := Regrant(s.w, ev, assignments);
      s.(w := w, status := Rollup(w.rows), user := true, job := Idle)
    case PassDone(k) =>
      var w := WithPass(s.w, k);
      s.(w := w, status := Rollup(w.rows), job := Idle)
    case Park(parked, status, rolled) =>
      var w := s.w.(rows := WithParked(s.w.rows, parked, status));
      s.(w := w, status := if rolled then Rollup(w.rows) else s.status, job := Idle)
    case ParkNothing => s.(status := Off, job := Idle)
    case IdentityParked => s.(status := PendingIdentity, job := Idle)
    case GrantThrew(released) => s.(status := if released then Rollup(s.w.rows) else s.status, job := Idle)
    case RevokeStart(doomed) => s.(status := InFlight, job := Revoking(doomed))
    case Call(act) => s.(w := DoorWorld.Apply(s.w, act))
    case RevokeRecorded => Rolled(s, s.w.rows, Finalizing)
    case DeletionRecorded => Rolled(s, map[], Finalizing)
    case Paused => Rolled(s, Flipped(s.w.rows, s.w.rows.Keys, SourceStatus.Active, Failed), Idle)
    case Resumed => Rolled(s, Flipped(s.w.rows, s.w.rows.Keys, Failed, SourceStatus.Active), Idle)
    case RevokeThrew(released) => s.(status := if released then Rollup(s.w.rows) else s.status, job := Idle)
    case Finalize(refused) =>
      if s.status.Off? && !refused && (s.user ==> s.w.roles == map[]) then s.(status := Deleted, job := Idle)
      else s.(job := Idle)
    case FinalizeThrew(released) =>
      s.(status := if !released then s.status else if AnyActive(s.w.rows) then On else Removing, job := Idle)
    case Crash => s.(job := Idle)
    case Meanwhile(b) => Happens(s, b)
  }

  ghost predicate LegalFrom(s: State, steps: seq<Step>)
    decreases |steps|
  {
    steps == [] || (Legal(s, steps[0]) && LegalFrom(Apply(s, steps[0]), steps[1..]))
  }

  ghost function RunFrom(s: State, steps: seq<Step>): State
    requires LegalFrom(s, steps)
    decreases |steps|
  {
    if steps == [] then s else RunFrom(Apply(s, steps[0]), steps[1..])
  }

  // --- What the steps do to rows and status ---

  ghost predicate RollsUp(step: Step) {
    || step.GrantDone? || step.PassDone? || (step.Park? && step.rolled) || (step.GrantThrew? && step.released)
    || step.RevokeRecorded? || step.DeletionRecorded? || step.Paused? || step.Resumed?
    || (step.RevokeThrew? && step.released)
    || (step.Meanwhile? && (step.b.Lapse? || step.b.Restore? || step.b.Rerolled?))
  }

  /** After every step that rolls the status up it is 'active' exactly if some row is, and 'inactive'
      otherwise. */
  lemma RollupMeans(s: State, step: Step)
    requires Legal(s, step) && RollsUp(step)
    ensures var t := Apply(s, step);
            && (t.status == On <==> exists k :: k in t.w.rows && t.w.rows[k].status == SourceStatus.Active)
            && (t.status == On || t.status == Off)
  {
  }

  /** How a job can go: nothing but the state of the stores restricts a grant, a revoke or a finalize. */
  lemma GrantsMayGo(s: State, pass: Key)
    ensures Legal(s, Crash)
    ensures s.job == Idle ==> Legal(s, GrantStart)
    ensures s.job == Granting ==>
              && Legal(s, ParkNothing) && Legal(s, IdentityParked)
              && Legal(s, GrantThrew(true)) && Legal(s, GrantThrew(false))
              && (pass.kind == DayPass && pass !in s.w.rows ==> Legal(s, PassDone(pass)))
              && Legal(s, Park(map[], PendingHardware, true)) && Legal(s, Park(map[], PendingStart, false))
  {
  }

  lemma RevokesMayGo(s: State, doomed: iset<Key>)
    ensures s.job == Idle ==> (Legal(s, RevokeStart(doomed)) <==> Findable(s))
    ensures s.job.Revoking? ==>
              && Legal(s, RevokeRecorded) && Legal(s, Paused) && Legal(s, Resumed)
              && Legal(s, RevokeThrew(true)) && Legal(s, RevokeThrew(false))
              && (s.w.rows == map[] ==> Legal(s, DeletionRecorded))
    ensures s.job == Finalizing ==>
              && Legal(s, Finalize(true)) && Legal(s, Finalize(false))
              && Legal(s, FinalizeThrew(true)) && Legal(s, FinalizeThrew(false))
  {
  }

  ghost predicate Ends(step: Step) {
    || step.GrantDone? || step.PassDone? || step.Park? || step == ParkNothing || step == IdentityParked
    || step.GrantThrew? || step == Paused || step == Resumed || step.RevokeThrew?
    || step.Finalize? || step.FinalizeThrew? || step == Crash
  }

  /** The other steps: what a job writes when it starts, ends, parks or throws, and which job is on after it. */
  lemma JobsMean(s: State, step: Step)
    requires Legal(s, step)
    ensures var t := Apply(s, step);
            && (step == GrantStart ==> t.status == InFlight && t.job == Granting)
            && (step.RevokeStart? ==> t.status == InFlight && t.job == Revoking(step.doomed))
            && (step.OpenDoor? || step.WriteRows? || step.Call? || step.Meanwhile? ==> t.job == s.job)
            && (step.OpenDoor? || step.WriteRows? || step.Call? ==> t.status == s.status)
            && (step == RevokeRecorded || step == DeletionRecorded ==> t.job == Finalizing)
            && (step == DeletionRecorded ==> t.w.rows == map[])
            && (Ends(step) ==> t.job == Idle)
            && (step == ParkNothing ==> t.status == Off) && (step == IdentityParked ==> t.status == PendingIdentity)
            && (step in {GrantThrew(false), RevokeThrew(false), FinalizeThrew(false), Crash} ==> t.status == s.status)
            && (step == FinalizeThrew(true) && AnyActive(s.w.rows) ==> t.status == On)
            && (step == FinalizeThrew(true) && !AnyActive(s.w.rows) ==> t.status == Removing)
            && (t.user <==>
                  step.OpenDoor? || step.GrantDone? || (s.user && !(step == GrantStart && s.status == Deleted)))
  {
  }

  /** Who may write beside the jobs, and what: a lapse loop reads members that are active or under way and
      have an active row, a reactivation active or inactive ones with a failed row, an operator unlocks a
      member under way, a removal marks one that has a user and is not deleted; the sweep's rollup skips
      what it does not own. */
  lemma WritersMean(s: State)
    ensures MayHappen(s, Listed(LapseLoop)) <==>
              (s.status == On || s.status == InFlight) &&
              exists k :: k in s.w.rows && s.w.rows[k].status == SourceStatus.Active
    ensures MayHappen(s, Listed(RestoreLoop)) <==>
              (s.status == On || s.status == Off) && exists k :: k in s.w.rows && s.w.rows[k].status == Failed
    ensures MayHappen(s, Listed(Operator)) <==> s.status == InFlight
    ensures MayHappen(s, Listed(Remover)) <==> s.status != Deleted && s.user
    ensures MayHappen(s, Rerolled) <==> s.status !in {Deleted, Removing, InFlight, PendingIdentity}
    ensures MayHappen(s, StaleLock) <==> s.status == InFlight
    ensures Happens(s, Unlock).status == RecoveryPending && Happens(s, StaleLock).status == RecoveryPending
    ensures Happens(s, MarkRemoving).status == Removing
  {
  }

  /** Which writer a write is by. */
  function By(b: Beside): Option<Writer> {
    match b
    case Lapse(_) => Some(LapseLoop)
    case Restore(_) => Some(RestoreLoop)
    case Unlock => Some(Operator)
    case MarkRemoving => Some(Remover)
    case _ => None
  }

  ghost function Readings(steps: seq<Step>, writer: Writer): nat {
    |set i | 0 <= i < |steps| && steps[i] == Meanwhile(Listed(writer))|
  }

  ghost function Writings(steps: seq<Step>, writer: Writer): nat {
    |set i | 0 <= i < |steps| && steps[i].Meanwhile? && By(steps[i].b) == Some(writer)|
  }

  /** Over every run each write has a reading of its own before it: as many as a writer has read are written
      or still due. */
  lemma {:induction false} WritesFollowReadings(steps: seq<Step>, writer: Writer)
    requires LegalFrom(START, steps)
    ensures Readings(steps, writer) == Writings(steps, writer) + RunFrom(START, steps).due[writer]
    decreases |steps|
  {
    if steps == [] {
      assert Readings(steps, writer) == 0 && Writings(steps, writer) == 0;
    } else {
      var n := |steps| - 1;
      RunLast(START, steps);
      WritesFollowReadings(steps[..n], writer);
      assert steps[..n] + [steps[n]] == steps;
      CountLast(steps[..n], steps[n], writer);
      DueStep(RunFrom(START, steps[..n]), steps[n], writer);
    }
  }

  lemma CountLast(before: seq<Step>, step: Step, writer: Writer)
    ensures Readings(before + [step], writer) ==
              Readings(before, writer) + if step == Meanwhile(Listed(writer)) then 1 else 0
    ensures Writings(before + [step], writer) ==
              Writings(before, writer) + if step.Meanwhile? && By(step.b) == Some(writer) then 1 else 0
  {
    var all, n := before + [step], |before|;
    assert (set i | 0 <= i < |all| && all[i] == Meanwhile(Listed(writer))) ==
           (set i | 0 <= i < n && before[i] == Meanwhile(Listed(writer))) +
           if step == Meanwhile(Listed(writer)) then {n} else {};
    assert (set i | 0 <= i < |all| && all[i].Meanwhile? && By(all[i].b) == Some(writer)) ==
           (set i | 0 <= i < n && before[i].Meanwhile? && By(before[i].b) == Some(writer)) +
           if step.Meanwhile? && By(step.b) == Some(writer) then {n} else {};
  }

  lemma DueStep(s: State, step: Step, writer: Writer)
    requires Legal(s, step)
    ensures Apply(s, step).due[writer] + (if step.Meanwhile? && By(step.b) == Some(writer) then 1 else 0) ==
              s.due[writer] + if step == Meanwhile(Listed(writer)) then 1 else 0
  {
    if step.Meanwhile? { DueBeside(s, step.b, writer); } else { JobsOweNothing(s, step); }
  }

  lemma JobsOweNothing(s: State, step: Step)
    requires Legal(s, step) && !step.Meanwhile?
    ensures Apply(s, step).due == s.due
  {
  }

  lemma DueBeside(s: State, b: Beside, writer: Writer)
    requires MayHappen(s, b)
    ensures Happens(s, b).due == if By(b).Some? then s.due - multiset{By(b).value}
                                 else if b.Listed? then s.due + multiset{b.writer} else s.due
    ensures By(b).Some? ==> By(b).value in s.due
  {
  }

  /** Rows keep key, mapping and role; those in `keys` that were `from` are `to`, all others as they were. */
  ghost predicate Turned(rows: map<Key, Row>, rows': map<Key, Row>, keys: set<Key>,
                         from: SourceStatus, to: SourceStatus) {
    && rows'.Keys == rows.Keys
    && forall k :: k in rows ==>
         && rows'[k].role == rows[k].role && rows'[k].mapping == rows[k].mapping
         && rows'[k].status == if k in keys && rows[k].status == from then to else rows[k].status
  }

  /** A failed payment turns every active row off, and only those. */
  lemma PauseMeans(s: State)
    requires Legal(s, Paused)
    ensures var t := Apply(s, Paused);
            && Turned(s.w.rows, t.w.rows, s.w.rows.Keys, SourceStatus.Active, SourceStatus.Failed)
            && t.status == Off && t.job == Idle && t.w.roles == s.w.roles && t.w.links == s.w.links
  {
  }

  /** A recovered payment turns every paused row on: no row is paused any more, every row that was in force
      is active, and the member is active exactly if there is one. */
  lemma ResumeMeans(s: State)
    requires Legal(s, Resumed)
    ensures var t := Apply(s, Resumed);
            && Turned(s.w.rows, t.w.rows, s.w.rows.Keys, SourceStatus.Failed, SourceStatus.Active)
            && (forall k :: k in t.w.rows ==> t.w.rows[k].status != SourceStatus.Failed)
            && (t.status == On <==> exists k :: k in s.w.rows && InForce(s.w.rows[k]))
            && (t.status == On || t.status == Off)
            && t.job == Idle && t.w.roles == s.w.roles && t.w.links == s.w.links
  {
    var t := Apply(s, Resumed);
    if k :| k in s.w.rows && InForce(s.w.rows[k]) { assert k in t.w.rows && t.w.rows[k].status.Active?; }
    if k :| k in t.w.rows && t.w.rows[k].status.Active? { assert k in s.w.rows && InForce(s.w.rows[k]); }
  }

  /** A payment that fails and recovers gives back the member there was: rows, doors and rolled-up status,
      exactly if no row was paused before. */
  lemma ResumeUndoesPause(s: State)
    requires s.job.Revoking? && s.status == Rollup(s.w.rows)
    ensures var paused := Apply(s, Paused).(job := s.job);
            Apply(paused, Resumed) == s.(job := Idle) <==>
              forall k :: k in s.w.rows ==> s.w.rows[k].status != SourceStatus.Failed
  {
    var paused := Apply(s, Paused).(job := s.job);
    PauseMeans(s);
    ResumeMeans(paused);
    var t := Apply(paused, Resumed);
    if forall k :: k in s.w.rows ==> s.w.rows[k].status != SourceStatus.Failed { assert t.w.rows == s.w.rows; }
  }

  /** A lapse turns active rows of its location off, a restore rows it finds off on; neither looks at the
      status before it writes it. */
  lemma LapseMeans(s: State, keys: set<Key>)
    ensures Turned(s.w.rows, Happens(s, Lapse(keys)).w.rows, keys, SourceStatus.Active, Failed)
    ensures Turned(s.w.rows, Happens(s, Restore(keys)).w.rows, keys, Failed, SourceStatus.Active)
  {
  }

  /** A park leaves every row with its role, and the parked ones waiting, new ones without a role. */
  lemma ParkMeans(s: State, parked: map<Key, string>, status: SourceStatus, rolled: bool)
    requires Legal(s, Park(parked, status, rolled))
    ensures var rows := Apply(s, Park(parked, status, rolled)).w.rows;
            && rows.Keys == s.w.rows.Keys + parked.Keys
            && (forall k :: k in parked ==> rows[k].status == status)
            && (forall k :: k in s.w.rows ==>
                  rows[k].role == s.w.rows[k].role && rows[k].mapping == s.w.rows[k].mapping)
            && (forall k :: k in s.w.rows && k !in parked ==> rows[k] == s.w.rows[k])
            && (forall k :: k in parked && k !in s.w.rows ==> rows[k].role == None && rows[k].mapping == parked[k])
  {
  }

  /** The finalize ends in 'deleted' exactly if the status is 'inactive', no guard refuses, and the member's
      user, if there is one, holds no role; otherwise it changes nothing. */
  lemma FinalizeMeans(s: State, refused: bool)
    requires Legal(s, Finalize(refused))
    ensures var t := Apply(s, Finalize(refused));
            && t.w == s.w && t.user == s.user && t.job == Idle
            && (if s.status == Off && !refused && (s.user ==> forall g :: g !in s.w.roles) then t.status == Deleted
                else t.status == s.status)
  {
    if s.w.roles != map[] { var g :| g in s.w.roles; }
  }

  // --- The invariant: rows and doors ---

  /** A permanent row's id is the id of its door's role, if that is live, and of no other role. */
  ghost predicate IdsLive(w: World) {
    && OwnDoor(w) && RolesDistinct(w)
    && forall k :: k in w.rows && !k.kind.DayPass? && w.rows[k].role.Some? && k.group in w.roles ==>
         w.rows[k].role == Some(w.roles[k.group])
  }

  ghost predicate IdsOld(w: World) {
    && (forall g :: g in w.roles ==> w.roles[g] < w.nextId)
    && (forall k :: k in w.rows && w.rows[k].role.Some? ==> w.rows[k].role.value < w.nextId)
  }

  ghost predicate LinksNamed(w: World) {
    forall l :: l in w.links ==> exists k :: NamesLink(w, k, l)
  }

  ghost predicate NamesLink(w: World, k: Key, l: nat) {
    k in w.rows && k.kind.DayPass? && w.rows[k].role == Some(l)
  }

  /** Active and paused rows carry an id, and of the passes no other row does. */
  ghost predicate RowsGranted(rows: map<Key, Row>) {
    forall k :: k in rows ==>
      && (InForce(rows[k]) ==> rows[k].role.Some?)
      && (k.kind.DayPass? && rows[k].role.Some? ==> InForce(rows[k]))
  }

  predicate InForce(r: Row) {
    r.status.Active? || r.status.Failed?
  }

  ghost predicate WorldSound(w: World) {
    IdsLive(w) && IdsAgree(w.rows) && IdsOld(w) && LinksNamed(w) && RowsGranted(w.rows)
  }

  ghost predicate Inv(s: State) {
    && WorldSound(s.w)
    && (s.w.roles != map[] ==> s.user)
    && (s.status.Deleted? ==> s.w.roles == map[] && !s.job.Granting?)
    && (s.status.Deleted? || (s.status.Off? && s.job.Finalizing?) ==> !AnyActive(s.w.rows))
  }

  lemma GrantKeepsIds(w: World, ev: GrantEvent, assignments: seq<Assignment>, k: Key)
    requires WorldSound(w) && Opened(w, AssignAll(w, Called(assignments)), assignments)
    requires k in Regrant(w, ev, assignments).rows && Regrant(w, ev, assignments).rows[k].role.Some? && !k.kind.DayPass?
    ensures var w', id := Regrant(w, ev, assignments), Regrant(w, ev, assignments).rows[k].role.value;
            && id < w'.nextId
            && (k.group in w'.roles ==> w'.roles[k.group] == id)
            && forall g :: g in w'.roles && w'.roles[g] == id ==> g == k.group
  {
    var wa := AssignAll(w, Called(assignments));
    var id := Regrant(w, ev, assignments).rows[k].role.value;
    AssignAllRoles(w, Called(assignments));
    RecordEachRows(wa, ev, assignments);
    if Written(ev, assignments, k) {
      var a :| a in assignments && k == ev.KeyFor(a.m.group) && a.role == id;
      OpenedDoors(w, wa, assignments, a);
      assert Grounded(w, wa, a);
      if !a.called { CopiedIdIsSound(w, wa, assignments, k.group, id); }
    } else {
      assert Reusable(w.rows, k.group, id);
      CopiedIdIsSound(w, wa, assignments, k.group, id);
    }
  }

  lemma CopiedIdIsSound(w: World, wa: World, assignments: seq<Assignment>, group: string, id: nat)
    requires WorldSound(w) && Opened(w, wa, assignments) && Reusable(w.rows, group, id)
    ensures id < wa.nextId && (group in wa.roles ==> wa.roles[group] == id)
    ensures forall g :: g in wa.roles && wa.roles[g] == id ==> g == group
  {
    AssignAllRoles(w, Called(assignments));
    var o :| o in w.rows && !o.kind.DayPass? && o.group == group && w.rows[o].role == Some(id);
    forall g | g in wa.roles && g !in w.roles ensures !HasReusable(w.rows, g) && wa.roles[g] >= w.nextId {
      NewDoorHadNoId(w, wa, assignments, g);
    }
  }

  lemma NewDoorHadNoId(w: World, wa: World, assignments: seq<Assignment>, g: string)
    requires Opened(w, wa, assignments) && g in wa.roles && g !in w.roles
    ensures !HasReusable(w.rows, g)
  {
    AssignAllRoles(w, Called(assignments));
    CalledAre(assignments);
    var m :| m in Called(assignments) && m.group == g;
    var a :| a in assignments && a.called && a.m == m;
    assert Grounded(w, wa, a);
  }

  lemma GrantKeepsAgreement(w: World, ev: GrantEvent, assignments: seq<Assignment>, g: string, id: nat)
    requires IdsAgree(w.rows) && Opened(w, AssignAll(w, Called(assignments)), assignments)
    requires Reusable(Regrant(w, ev, assignments).rows, g, id)
    ensures if HasReusable(w.rows, g) then Reusable(w.rows, g, id)
            else g in AssignAll(w, Called(assignments)).roles && AssignAll(w, Called(assignments)).roles[g] == id
  {
    var wa, w' := AssignAll(w, Called(assignments)), Regrant(w, ev, assignments);
    AssignAllRoles(w, Called(assignments));
    RecordEachRows(wa, ev, assignments);
    var k :| k in w'.rows && !k.kind.DayPass? && k.group == g && w'.rows[k].role == Some(id);
    if Written(ev, assignments, k) {
      var a :| a in assignments && k == ev.KeyFor(a.m.group) && a.role == id;
      assert Grounded(w, wa, a);
    } else {
      assert Reusable(w.rows, g, id);
    }
  }

  /** Rows that keep key and id, or go. */
  lemma FewerIdsAgree(rows: map<Key, Row>, rows': map<Key, Row>)
    requires IdsAgree(rows)
    requires forall k :: k in rows' && rows'[k].role.Some? && !k.kind.DayPass? ==>
               k in rows && rows[k].role == rows'[k].role
    ensures IdsAgree(rows')
  {
    forall g, id | Reusable(rows', g, id) ensures Reusable(rows, g, id) {}
  }

  lemma GrantIsSound(w: World, ev: GrantEvent, assignments: seq<Assignment>)
    requires WorldSound(w) && Opened(w, AssignAll(w, Called(assignments)), assignments)
    ensures WorldSound(Regrant(w, ev, assignments))
  {
    var wa, w' := AssignAll(w, Called(assignments)), Regrant(w, ev, assignments);
    AssignAllRoles(w, Called(assignments));
    RecordEachRows(wa, ev, assignments);
    forall k | k in w'.rows && w'.rows[k].role.Some? && !k.kind.DayPass?
      ensures w'.rows[k].role.value < w'.nextId
      ensures k.group in w'.roles ==> w'.roles[k.group] == w'.rows[k].role.value
      ensures forall g :: g in w'.roles && w'.roles[g] == w'.rows[k].role.value ==> g == k.group
    {
      GrantKeepsIds(w, ev, assignments, k);
    }
    forall g, id, id' | Reusable(w'.rows, g, id) && Reusable(w'.rows, g, id') ensures id == id' {
      GrantKeepsAgreement(w, ev, assignments, g, id);
      GrantKeepsAgreement(w, ev, assignments, g, id');
    }
    forall k | k in w'.rows && k.kind.DayPass? ensures !Written(ev, assignments, k) {}
    forall l | l in w'.links ensures exists k :: NamesLink(w', k, l) {
      var k :| NamesLink(w, k, l);
      assert NamesLink(w', k, l);
    }
  }

  lemma OpenIsSound(w: World, g: string)
    requires WorldSound(w) && !HasReusable(w.rows, g)
    ensures WorldSound(WithRole(w, g))
  {
    var w' := WithRole(w, g);
    FewerIdsAgree(w.rows, w'.rows);
    forall l | l in w'.links ensures exists k :: NamesLink(w', k, l) {
      var k :| NamesLink(w, k, l);
      assert NamesLink(w', k, l);
    }
  }

  lemma PassIsSound(w: World, key: Key)
    requires WorldSound(w) && key.kind.DayPass? && (key in w.rows ==> w.rows[key].role.None?)
    ensures WorldSound(WithPass(w, key))
  {
    var w' := WithPass(w, key);
    FewerIdsAgree(w.rows, w'.rows);
    forall l | l in w'.links ensures exists k :: NamesLink(w', k, l) {
      if l in w.links {
        var k :| NamesLink(w, k, l);
        assert NamesLink(w', k, l);
      } else {
        assert NamesLink(w', key, l);
      }
    }
  }

  lemma ParkIsSound(w: World, parked: map<Key, string>, status: SourceStatus)
    requires WorldSound(w) && Waiting(status) && forall k :: k in parked ==> !k.kind.DayPass?
    ensures WorldSound(w.(rows := WithParked(w.rows, parked, status)))
  {
    var w' := w.(rows := WithParked(w.rows, parked, status));
    FewerIdsAgree(w.rows, w'.rows);
    forall l | l in w'.links ensures exists k :: NamesLink(w', k, l) {
      var k :| NamesLink(w, k, l);
      assert NamesLink(w', k, l);
    }
  }

  /** Pausing, resuming, lapsing and restoring keep every row with its id. */
  lemma FlipIsSound(w: World, keys: set<Key>, from: SourceStatus, to: SourceStatus)
    requires WorldSound(w) && (from.Active? || from.Failed?) && (to.Active? || to.Failed?)
    ensures WorldSound(w.(rows := Flipped(w.rows, keys, from, to)))
  {
    var w' := w.(rows := Flipped(w.rows, keys, from, to));
    FewerIdsAgree(w.rows, w'.rows);
    forall l | l in w'.links ensures exists k :: NamesLink(w', k, l) {
      var k :| NamesLink(w, k, l);
      assert NamesLink(w', k, l);
    }
  }

  lemma CallIsSound(w: World, doomed: iset<Key>, act: Act)
    requires WorldSound(w) && DoorWorld.Legal(w, doomed, act)
    ensures WorldSound(DoorWorld.Apply(w, act))
  {
    var w' := DoorWorld.Apply(w, act);
    FewerIdsAgree(w.rows, w'.rows);
    forall l | l in w'.links ensures exists k :: NamesLink(w', k, l) {
      var k :| NamesLink(w, k, l);
      assert NamesLink(w', k, l);
    }
  }

  lemma ClearedIsSound(w: World)
    requires WorldSound(w) && NoLiveIds(w)
    ensures WorldSound(w.(rows := map[]))
  {
    assert forall k, l :: NamesLink(w, k, l) ==> l !in w.links;
  }

  lemma StepKeepsWorld(s: State, step: Step)
    requires Inv(s) && Legal(s, step)
    ensures WorldSound(Apply(s, step).w)
  {
    match step
    case OpenDoor(g) => OpenIsSound(s.w, g);
    case WriteRows(ev, assignments) => GrantIsSound(s.w, ev, assignments);
    case GrantDone(ev, assignments) => GrantIsSound(s.w, ev, assignments);
    case PassDone(k) => PassIsSound(s.w, k);
    case Park(parked, status, _) => ParkIsSound(s.w, parked, status);
    case Call(act) => CallIsSound(s.w, s.job.doomed, act);
    case DeletionRecorded => ClearedIsSound(s.w);
    case Paused => FlipIsSound(s.w, s.w.rows.Keys, SourceStatus.Active, Failed);
    case Resumed => FlipIsSound(s.w, s.w.rows.Keys, Failed, SourceStatus.Active);
    case Meanwhile(b) =>
      if b.Lapse? { FlipIsSound(s.w, b.keys, SourceStatus.Active, Failed); }
      if b.Restore? { FlipIsSound(s.w, b.keys, Failed, SourceStatus.Active); }
    case _ =>
  }

  /** Nothing beside the jobs touches a door, adds or takes a row, or changes an id or whether a row is
      in force. */
  lemma BesideKeepsRows(s: State, b: Beside)
    ensures var t := Happens(s, b);
            && t.w == s.w.(rows := t.w.rows) && t.w.rows.Keys == s.w.rows.Keys && t.job == s.job && t.user == s.user
            && forall k :: k in s.w.rows ==>
                 t.w.rows[k].role == s.w.rows[k].role && (InForce(t.w.rows[k]) <==> InForce(s.w.rows[k]))
  {
    match b
    case Lapse(keys) => FlippedRows(s.w.rows, keys, SourceStatus.Active, Failed);
    case Restore(keys) => FlippedRows(s.w.rows, keys, Failed, SourceStatus.Active);
    case _ =>
  }

  /** The status each of them leaves. */
  lemma BesideStatus(s: State, b: Beside)
    requires MayHappen(s, b)
    ensures var t := Happens(s, b);
            && t.job == s.job
            && (b.Lapse? || b.Restore? || b.Rerolled? ==> t.status == Rollup(t.w.rows))
            && (b.Unlock? || b.StaleLock? ==> t.status.RecoveryPending?)
            && (b.MarkRemoving? ==> t.status.Removing?)
            && (b.Listed? ==> t.status == s.status)
            && (b.Rerolled? ==> !s.status.Removing? && !s.status.Deleted?)
            && (b.StaleLock? ==> s.status.InFlight?)
  {
  }

  lemma FlippedRows(rows: map<Key, Row>, keys: set<Key>, from: SourceStatus, to: SourceStatus)
    requires (from.Active? || from.Failed?) && (to.Active? || to.Failed?)
    ensures var rows' := Flipped(rows, keys, from, to);
            && rows'.Keys == rows.Keys
            && forall k :: k in rows ==> rows'[k].role == rows[k].role && (InForce(rows'[k]) <==> InForce(rows[k]))
  {
  }

  /** And whoever it leaves deleted, or off while a finalize is under way, has no active row. */
  lemma BesideKeepsStatus(s: State, b: Beside)
    requires s.status.Deleted? || (s.status.Off? && s.job.Finalizing?) ==> !AnyActive(s.w.rows)
    requires MayHappen(s, b)
    ensures var t := Happens(s, b); t.status.Deleted? || (t.status.Off? && t.job.Finalizing?) ==> !AnyActive(t.w.rows)
    ensures Happens(s, b).status.Deleted? ==> s.status.Deleted?
  {
  }

  lemma StepKeepsInv(s: State, step: Step)
    requires Inv(s) && Legal(s, step)
    ensures Inv(Apply(s, step))
  {
    StepKeepsWorld(s, step);
    match step
    case WriteRows(ev, assignments) => RecordEachRows(s.w, ev, assignments);
    case Call(act) => CallOnlyTakes(s.w, act);
    case Meanwhile(b) =>
      BesideKeepsRows(s, b);
      BesideKeepsStatus(s, b);
    case _ =>
  }

  lemma CallOnlyTakes(w: World, act: Act)
    requires act.k in w.rows && (!act.DropRow? ==> w.rows[act.k].role.Some?)
    ensures DoorWorld.Apply(w, act).roles != map[] ==> w.roles != map[]
    ensures AnyActive(DoorWorld.Apply(w, act).rows) ==> AnyActive(w.rows)
  {
  }

  lemma {:induction false} RunKeepsInv(s: State, steps: seq<Step>)
    requires Inv(s) && LegalFrom(s, steps)
    ensures Inv(RunFrom(s, steps))
    decreases |steps|
  {
    if steps != [] {
      StepKeepsInv(s, steps[0]);
      RunKeepsInv(Apply(s, steps[0]), steps[1..]);
    }
  }

  // --- Which live doors have no row ---

  ghost predicate Unnamed(w: World, g: string) {
    g in w.roles && !exists k :: Names(w, k, g, w.roles[g])
  }

  /** The step leaves the door open without a row that names its role: a grant has opened it and not yet
      recorded it, or a cancel deletes the last such row. */
  ghost predicate Strands(s: State, step: Step, g: string) {
    (step == OpenDoor(g) && g !in s.w.roles) || DropsLast(s, step, g)
  }

  ghost predicate DropsLast(s: State, step: Step, g: string) {
    && step.Call? && step.act.DropRow?
    && g in s.w.roles && Names(s.w, step.act.k, g, s.w.roles[g])
    && forall k :: Names(s.w, k, g, s.w.roles[g]) ==> k == step.act.k
  }

  predicate WritesRows(step: Step) {
    step.GrantDone? || step.WriteRows?
  }

  /** A grant of the door writes a row that names its role again. */
  ghost predicate Heals(step: Step, g: string) {
    WritesRows(step) && exists a :: a in step.assignments && a.m.group == g
  }

  /** A cancel does it only where a plan that is still waiting, with no role id of its own,
      makes it keep the door open. */
  lemma StrandingNeedsWaitingPlan(s: State, step: Step, g: string)
    requires Inv(s) && Legal(s, step) && DropsLast(s, step, g)
    ensures exists o :: && o in s.w.rows && o !in s.job.doomed && !o.kind.DayPass? && o.group == g
                        && s.w.rows[o].role.None? && !InForce(s.w.rows[o])
  {
    var k := step.act.k;
    assert s.w.roles[g] in s.w.roles.Values;
    var o :| o in s.w.rows && !o.kind.DayPass? && o.group == g && o !in s.job.doomed;
    assert o != k;
    assert !Names(s.w, o, g, s.w.roles[g]);
  }

  lemma UnnamedHasNoId(w: World, g: string, k: Key)
    requires WorldSound(w) && Unnamed(w, g) && k in w.rows && !k.kind.DayPass? && k.group == g
    ensures w.rows[k].role.None?
  {
    assert !Names(w, k, g, w.roles[g]);
  }

  lemma GrantNames(w: World, ev: GrantEvent, assignments: seq<Assignment>, g: string)
    requires WorldSound(w) && Opened(w, AssignAll(w, Called(assignments)), assignments)
    requires g in Regrant(w, ev, assignments).roles
    ensures Unnamed(Regrant(w, ev, assignments), g) <==>
              Unnamed(w, g) && !exists a :: a in assignments && a.m.group == g
  {
    var wa, w' := AssignAll(w, Called(assignments)), Regrant(w, ev, assignments);
    AssignAllRoles(w, Called(assignments));
    RecordEachRows(wa, ev, assignments);
    GrantIsSound(w, ev, assignments);
    if a :| a in assignments && a.m.group == g {
      var k := ev.KeyFor(g);
      assert Written(ev, assignments, k);
      assert Names(w', k, g, w'.roles[g]);
    } else {
      if g !in w.roles { NewDoorIsAssigned(w, wa, assignments, g); }
      forall k: Key | k.group == g ensures !Written(ev, assignments, k) {}
      assert forall k :: Names(w', k, g, w'.roles[g]) <==> Names(w, k, g, w.roles[g]);
    }
  }

  lemma NewDoorIsAssigned(w: World, wa: World, assignments: seq<Assignment>, g: string)
    requires Opened(w, wa, assignments) && g in wa.roles && g !in w.roles
    ensures exists a :: a in assignments && a.m.group == g
  {
    AssignAllRoles(w, Called(assignments));
    CalledAre(assignments);
    var m :| m in Called(assignments) && m.group == g;
    var a :| a in assignments && a.called && a.m == m;
    assert a in assignments && a.m.group == g;
  }

  lemma CallNames(s: State, act: Act, g: string)
    requires Inv(s) && Legal(s, Call(act))
    ensures Unnamed(DoorWorld.Apply(s.w, act), g) <==> Unnamed(s.w, g) || Strands(s, Call(act), g)
  {
    var w, w' := s.w, DoorWorld.Apply(s.w, act);
    if Unnamed(w, g) && act.DropRole? {
      assert act.k.group != g by { if act.k.group == g { UnnamedHasNoId(w, g, act.k); } }
      assert g in w'.roles;
    }
    if g in w'.roles {
      assert w'.roles[g] == w.roles[g];
      assert w.roles[g] in w.roles.Values;
      forall k ensures Names(w', k, g, w'.roles[g]) <==>
                       Names(w, k, g, w.roles[g]) && !(act.DropRow? && k == act.k) {}
    }
  }

  /** Parking, passes and changes of status leave the permanent rows' ids as they are. */
  lemma SameIdsNames(w: World, w': World, g: string)
    requires w'.roles == w.roles
    requires forall k :: k in w.rows && !k.kind.DayPass? ==> k in w'.rows && w'.rows[k].role == w.rows[k].role
    requires forall k :: k in w'.rows && !k.kind.DayPass? && w'.rows[k].role.Some? ==> k in w.rows
    ensures Unnamed(w', g) <==> Unnamed(w, g)
  {
    forall k, id ensures Names(w', k, g, id) <==> Names(w, k, g, id) {}
  }

  lemma OtherStepNames(s: State, step: Step, g: string)
    requires Legal(s, step) && !WritesRows(step) && !step.OpenDoor? && !step.Call? && !step.DeletionRecorded?
    ensures Unnamed(Apply(s, step).w, g) <==> Unnamed(s.w, g)
  {
    if step.Meanwhile? { BesideKeepsRows(s, step.b); }
    SameIdsNames(s.w, Apply(s, step).w, g);
  }

  lemma ClearedNames(w: World, g: string)
    requires NoLiveIds(w)
    ensures Unnamed(w.(rows := map[]), g) <==> Unnamed(w, g)
  {
    if g in w.roles {
      assert w.roles[g] in w.roles.Values;
      assert forall k :: !Names(w, k, g, w.roles[g]);
    }
  }

  lemma OpenNames(w: World, door: string, g: string)
    requires WorldSound(w) && !HasReusable(w.rows, door)
    ensures Unnamed(WithRole(w, door), g) <==> Unnamed(w, g) || (g == door && g !in w.roles)
  {
    var w' := WithRole(w, door);
    if g in w'.roles {
      forall k ensures Names(w', k, g, w'.roles[g]) <==> g in w.roles && Names(w, k, g, w.roles[g]) {}
    }
  }

  /** Exactly what a step does to the doors that are open with no row to find them by. */
  lemma StepNames(s: State, step: Step, g: string)
    requires Inv(s) && Legal(s, step)
    ensures Unnamed(Apply(s, step).w, g) <==> (Unnamed(s.w, g) && !Heals(step, g)) || Strands(s, step, g)
  {
    if WritesRows(step) {
      AssignAllRoles(s.w, Called(step.assignments));
      RecordEachRows(AssignAll(s.w, Called(step.assignments)), step.grant, step.assignments);
      if g in Regrant(s.w, step.grant, step.assignments).roles { GrantNames(s.w, step.grant, step.assignments, g); }
    } else if step.OpenDoor? {
      OpenNames(s.w, step.group, g);
    } else if step.Call? {
      CallNames(s, step.act, g);
    } else if step.DeletionRecorded? {
      ClearedNames(s.w, g);
    } else {
      OtherStepNames(s, step, g);
    }
  }

  /** Some step of the run strands `g`, and no later one heals it. */
  ghost predicate Stranded(s: State, steps: seq<Step>, g: string)
    requires LegalFrom(s, steps)
    decreases |steps|
  {
    && steps != []
    && (Stranded(Apply(s, steps[0]), steps[1..], g) || (Strands(s, steps[0], g) && Unhealed(steps[1..], g)))
  }

  ghost predicate Unhealed(steps: seq<Step>, g: string) {
    forall i :: 0 <= i < |steps| ==> !Heals(steps[i], g)
  }

  lemma {:induction false} RunNames(s: State, steps: seq<Step>, g: string)
    requires Inv(s) && LegalFrom(s, steps)
    ensures Unnamed(RunFrom(s, steps).w, g) <==> (Unnamed(s.w, g) && Unhealed(steps, g)) || Stranded(s, steps, g)
    decreases |steps|
  {
    if steps != [] {
      StepNames(s, steps[0], g);
      StepKeepsInv(s, steps[0]);
      RunNames(Apply(s, steps[0]), steps[1..], g);
      assert Unhealed(steps, g) <==> !Heals(steps[0], g) && Unhealed(steps[1..], g) by {
        assert forall i :: 1 <= i < |steps| ==> steps[i] == steps[1..][i - 1];
      }
    }
  }

  // --- Which rows lie under a parked plan ---

  /** The row carries an id, and the lookup does not look at it: its plan has been parked. */
  ghost predicate Covered(w: World, k: Key) {
    k in w.rows && w.rows[k].role.Some? && !InForce(w.rows[k])
  }

  ghost predicate Covers(s: State, step: Step, k: Key) {
    step.Park? && k in step.parked && k in s.w.rows && s.w.rows[k].role.Some?
  }

  /** A grant of the plan on that door, or the end of the row. */
  ghost predicate Uncovers(step: Step, k: Key) {
    || (WritesRows(step) && Written(step.grant, step.assignments, k))
    || step == Call(DropRow(k)) || step.DeletionRecorded?
  }

  lemma StepCovers(s: State, step: Step, k: Key)
    requires Inv(s) && Legal(s, step)
    ensures Covered(Apply(s, step).w, k) <==> (Covered(s.w, k) && !Uncovers(step, k)) || Covers(s, step, k)
  {
    match step
    case GrantDone(ev, assignments) => GrantCovers(s.w, ev, assignments, k);
    case WriteRows(ev, assignments) => GrantCovers(s.w, ev, assignments, k);
    case Call(_) =>
    case DeletionRecorded =>
    case Park(parked, status, _) => ParkCovers(s.w, parked, status, k);
    case PassDone(_) =>
    case Meanwhile(b) => BesideKeepsRows(s, b);
    case _ => OtherStepCovers(s, step, k);
  }

  lemma GrantCovers(w: World, ev: GrantEvent, assignments: seq<Assignment>, k: Key)
    ensures Covered(Regrant(w, ev, assignments), k) <==> Covered(w, k) && !Written(ev, assignments, k)
  {
    AssignAllRoles(w, Called(assignments));
    RecordEachRows(AssignAll(w, Called(assignments)), ev, assignments);
  }

  lemma ParkCovers(w: World, parked: map<Key, string>, status: SourceStatus, k: Key)
    requires Waiting(status)
    ensures Covered(w.(rows := WithParked(w.rows, parked, status)), k) <==>
              Covered(w, k) || (k in parked && k in w.rows && w.rows[k].role.Some?)
  {
  }

  /** All other steps keep every row with its id, and in force if it was. */
  lemma OtherStepCovers(s: State, step: Step, k: Key)
    requires Legal(s, step) && !WritesRows(step) && !step.Call? && !step.DeletionRecorded?
    requires !step.Park? && !step.PassDone? && !step.Meanwhile?
    ensures Covered(Apply(s, step).w, k) <==> Covered(s.w, k)
  {
  }

  /** Some step of the run parks a plan over the row, and no later one uncovers it. */
  ghost predicate ParkedOver(s: State, steps: seq<Step>, k: Key)
    requires LegalFrom(s, steps)
    decreases |steps|
  {
    && steps != []
    && (ParkedOver(Apply(s, steps[0]), steps[1..], k) || (Covers(s, steps[0], k) && LeftCovered(steps[1..], k)))
  }

  ghost predicate LeftCovered(steps: seq<Step>, k: Key) {
    forall i :: 0 <= i < |steps| ==> !Uncovers(steps[i], k)
  }

  lemma {:induction false} RunCovers(s: State, steps: seq<Step>, k: Key)
    requires Inv(s) && LegalFrom(s, steps)
    ensures Covered(RunFrom(s, steps).w, k) <==>
              (Covered(s.w, k) && LeftCovered(steps, k)) || ParkedOver(s, steps, k)
    decreases |steps|
  {
    if steps != [] {
      StepCovers(s, steps[0], k);
      StepKeepsInv(s, steps[0]);
      RunCovers(Apply(s, steps[0]), steps[1..], k);
      assert LeftCovered(steps, k) <==> !Uncovers(steps[0], k) && LeftCovered(steps[1..], k) by {
        assert forall i :: 1 <= i < |steps| ==> steps[i] == steps[1..][i - 1];
      }
    }
  }

  // --- Main results ---

  /** Over every run: a live door has no row to find it by exactly if a cancel or an unfinished grant
      has left it so and no grant has recorded it since; a row with an id is out of the lookup's sight
      exactly if a plan has been parked over it since; a member with a live door that some other row
      names is one the revoke lookup matches; and `deleted` is only ever reached without a role. */
  lemma EveryLiveDoorIsFindable(steps: seq<Step>)
    requires LegalFrom(START, steps)
    ensures var s := RunFrom(START, steps);
            && (forall g :: Unnamed(s.w, g) <==> Stranded(START, steps, g))
            && (forall k :: Covered(s.w, k) <==> ParkedOver(START, steps, k))
            && (!Findable(s) ==> forall g :: g in s.w.roles ==>
                  || Stranded(START, steps, g)
                  || forall k :: Names(s.w, k, g, s.w.roles[g]) ==> ParkedOver(START, steps, k))
            && (s.status.Deleted? ==> s.w.roles == map[])
  {
    RunKeepsInv(START, steps);
    var s := RunFrom(START, steps);
    forall g ensures Unnamed(s.w, g) <==> Stranded(START, steps, g) { RunNames(START, steps, g); }
    forall k ensures Covered(s.w, k) <==> ParkedOver(START, steps, k) { RunCovers(START, steps, k); }
    if !Findable(s) {
      forall g, k | g in s.w.roles && Names(s.w, k, g, s.w.roles[g]) ensures ParkedOver(START, steps, k) {
        assert Covered(s.w, k);
      }
    }
  }

  /** Over every run the permanent rows of a door that carry an id carry one and the same, live or dead:
      wherever a grant job stops, GrantJob's rerun is sure to converge. (No login swap in between: it moves
      active rows to the new user's roles and leaves paused ones as they are.) */
  lemma OneIdPerDoor(steps: seq<Step>)
    requires LegalFrom(START, steps)
    ensures IdsAgree(RunFrom(START, steps).w.rows)
  {
    RunKeepsInv(START, steps);
  }

  /** A run in which no plan is parked and every grant runs through strands nothing. */
  lemma {:induction false} WithoutWaitingPlans(s: State, steps: seq<Step>, g: string)
    requires Inv(s) && LegalFrom(s, steps) && (forall i :: 0 <= i < |steps| ==> !steps[i].Park? && !steps[i].OpenDoor?)
    requires forall k :: k in s.w.rows ==> s.w.rows[k].role.Some?
    ensures !Stranded(s, steps, g)
    decreases |steps|
  {
    if steps != [] {
      var s' := Apply(s, steps[0]);
      assert !steps[0].Park? && !steps[0].OpenDoor?;
      if DropsLast(s, steps[0], g) { StrandingNeedsWaitingPlan(s, steps[0], g); }
      StepKeepsInv(s, steps[0]);
      StepKeepsIds(s, steps[0]);
      WithoutWaitingPlans(s', steps[1..], g);
    }
  }

  lemma {:induction false} NothingCovered(s: State, steps: seq<Step>, k: Key)
    requires LegalFrom(s, steps) && forall i :: 0 <= i < |steps| ==> !steps[i].Park?
    ensures !ParkedOver(s, steps, k)
    decreases |steps|
  {
    if steps != [] {
      assert !steps[0].Park?;
      NothingCovered(Apply(s, steps[0]), steps[1..], k);
    }
  }

  /** So after every such run, whatever sweeps, loops and operators write in between, a revoke finds
      every member that has a live role. */
  lemma EveryRoleIsFindable(steps: seq<Step>)
    requires LegalFrom(START, steps) && forall i :: 0 <= i < |steps| ==> !steps[i].Park? && !steps[i].OpenDoor?
    ensures RunFrom(START, steps).w.roles != map[] ==> Findable(RunFrom(START, steps))
  {
    var s := RunFrom(START, steps);
    EveryLiveDoorIsFindable(steps);
    if g :| g in s.w.roles {
      WithoutWaitingPlans(START, steps, g);
      assert !Unnamed(s.w, g);
      var k :| Names(s.w, k, g, s.w.roles[g]);
      NothingCovered(START, steps, k);
    }
  }

  lemma StepKeepsIds(s: State, step: Step)
    requires Legal(s, step) && !step.Park? && forall k :: k in s.w.rows ==> s.w.rows[k].role.Some?
    ensures forall k :: k in Apply(s, step).w.rows ==> Apply(s, step).w.rows[k].role.Some?
  {
    if WritesRows(step) {
      AssignAllRoles(s.w, Called(step.assignments));
      RecordEachRows(AssignAll(s.w, Called(step.assignments)), step.grant, step.assignments);
    } else if step.Meanwhile? {
      BesideKeepsRows(s, step.b);
    }
  }

  /** A grant that throws after it has opened a door leaves the role behind without a row, and the status
      goes back to what the rows say: a revoke finds the member only if another row gives it something
      to remove. */
  lemma ThrownGrantHidesDoor(s: State, g: string)
    requires Inv(s) && s.job.Granting? && !HasReusable(s.w.rows, g)
    ensures var steps := [OpenDoor(g), GrantThrew(true)];
            && LegalFrom(s, steps)
            && g in RunFrom(s, steps).w.roles && RunFrom(s, steps).job.Idle?
            && (Findable(RunFrom(s, steps)) <==> SomethingToRemove(s.w.rows))
  {
    var steps := [OpenDoor(g), GrantThrew(true)];
    var s1 := Apply(s, steps[0]);
    RunAfter(s1, steps[1], []);
    RunAfter(s, steps[0], [steps[1]]);
    assert [steps[1]] + [] == [steps[1]] && [steps[0]] + [steps[1]] == steps;
  }

  /** Until a grant on that door completes: then the row is there again, and the member is found. */
  lemma CompletedGrantHeals(s: State, ev: GrantEvent, assignments: seq<Assignment>, g: string)
    requires Inv(s) && Legal(s, GrantDone(ev, assignments)) && exists a :: a in assignments && a.m.group == g
    ensures !Unnamed(Apply(s, GrantDone(ev, assignments)).w, g) && Findable(Apply(s, GrantDone(ev, assignments)))
  {
    var step := GrantDone(ev, assignments);
    StepNames(s, step, g);
    AssignAllRoles(s.w, Called(assignments));
    RecordEachRows(AssignAll(s.w, Called(assignments)), ev, assignments);
    var k := ev.KeyFor(g);
    assert Written(ev, assignments, k);
    assert k in Apply(s, step).w.rows && Apply(s, step).w.rows[k].status.Active?;
  }

  /** A member who holds a live role is out of the lookup's reach exactly if the status says neither
      active nor under way and every row that carries an id lies under a parked plan. */
  lemma UnreachableIff(steps: seq<Step>)
    requires LegalFrom(START, steps) && RunFrom(START, steps).w.roles != map[]
    ensures var s := RunFrom(START, steps);
            !Findable(s) <==> && !s.status.On? && !s.status.InFlight? && !s.status.Removing?
                              && forall k :: k in s.w.rows && s.w.rows[k].role.Some? ==> Covered(s.w, k)
  {
    RunKeepsInv(START, steps);
  }

  /** Exactly when a completed cancel leaves live roles on a member the lookup no longer matches: none of
      the rows that survive is active or paused, and one of them keeps a live door open, or an earlier cancel
      had already left one open. */
  lemma CancelHidesMemberIff(s: State)
    requires Inv(s) && s.job.Revoking?
    ensures var after := Apply(s.(w := TornDown(s.w, s.job.doomed)), RevokeRecorded);
            after.w.roles != map[] && !Findable(after) <==>
              && (forall k :: k in s.w.rows && k !in s.job.doomed ==> !InForce(s.w.rows[k]))
              && (exists g :: g in s.w.roles && (Kept(s.w, s.job.doomed, g) || Unnamed(s.w, g)))
  {
    var w, doomed := s.w, s.job.doomed;
    var t := TornDown(w, doomed);
    RolesLeft(w, doomed);
    FoundByRowsIff(t);
    assert forall k :: k in t.rows <==> k in w.rows && k !in doomed;
    assert forall k :: k in t.rows ==> t.rows[k] == w.rows[k];
  }

  /** After the rollup of a completed cancel only the rows decide. */
  lemma FoundByRowsIff(t: World)
    requires RowsGranted(t.rows)
    ensures !AnyActive(t.rows) && !SomethingToRemove(t.rows) <==> forall k :: k in t.rows ==> !InForce(t.rows[k])
  {
  }

  /** A cancel leaves a role behind exactly if it keeps the door open or cannot know of the role. */
  lemma RolesLeft(w: World, doomed: iset<Key>)
    requires WorldSound(w)
    ensures TornDown(w, doomed).roles != map[] <==> exists g :: g in w.roles && (Kept(w, doomed, g) || Unnamed(w, g))
  {
    var t := TornDown(w, doomed);
    forall g | g in w.roles ensures g in t.roles <==> Kept(w, doomed, g) || Unnamed(w, g) {
      if Unnamed(w, g) {
        assert forall k :: k in w.rows && !k.kind.DayPass? && w.rows[k].role == Some(w.roles[g]) ==>
                             Names(w, k, g, w.roles[g]);
      } else {
        var k :| Names(w, k, g, w.roles[g]);
      }
    }
    if t.roles != map[] {
      var g :| g in t.roles;
      assert g in w.roles;
    }
  }

  /** What happens between two jobs. */
  predicate Background(step: Step) {
    step.Meanwhile? || step.Crash?
  }

  ghost predicate BackgroundRun(s: State, steps: seq<Step>) {
    LegalFrom(s, steps) && forall i :: 0 <= i < |steps| ==> Background(steps[i])
  }

  /** A write that puts another status over 'removing'. */
  predicate Hides(step: Step) {
    step.Meanwhile? && (step.b.Lapse? || step.b.Restore? || step.b.Unlock?)
  }

  predicate Marks(step: Step) {
    step == Meanwhile(MarkRemoving)
  }

  ghost predicate HiderDue(s: State) {
    LapseLoop in s.due || RestoreLoop in s.due || Operator in s.due
  }

  /** Such a write came, and nobody has marked the member as removing since. */
  ghost predicate Overwritten(steps: seq<Step>) {
    exists i: nat :: i < |steps| && Hides(steps[i]) && NoMarkAfter(steps, i)
  }

  ghost predicate NoMarkAfter(steps: seq<Step>, i: nat) {
    forall j :: i < j < |steps| ==> !Marks(steps[j])
  }

  ghost predicate AnyInForce(rows: map<Key, Row>) {
    exists k :: k in rows && InForce(rows[k])
  }

  /** A member that waits for a retry, active or 'removing'. */
  ghost predicate Parked(s: State) {
    s.job.Idle? && (s.status.Removing? || (s.status.On? && AnyActive(s.w.rows)))
  }

  /** Where background steps have taken it. */
  ghost predicate Waits(s: State, t: State, steps: seq<Step>) {
    && t.job.Idle? && !t.status.InFlight? && !t.status.Deleted? && (t.status.On? ==> AnyActive(t.w.rows))
    && (AnyInForce(t.w.rows) <==> AnyInForce(s.w.rows))
    && (s.status.Removing? ==> (t.status.Removing? <==> !Overwritten(steps)))
    && (s.status.Removing? && !HiderDue(s) ==> !HiderDue(t) && !Overwritten(steps))
  }

  lemma OverwrittenStep(before: seq<Step>, step: Step)
    ensures Overwritten(before + [step]) <==> Hides(step) || (Overwritten(before) && !Marks(step))
  {
    var steps, n := before + [step], |before|;
    assert steps[n] == step && forall i :: 0 <= i < n ==> steps[i] == before[i];
    if i: nat :| i < |steps| && Hides(steps[i]) && NoMarkAfter(steps, i) {
      if i < n { assert NoMarkAfter(before, i); }
    }
    if Hides(step) { assert NoMarkAfter(steps, n); }
    if i: nat :| i < n && Hides(before[i]) && NoMarkAfter(before, i) {
      if !Marks(step) { assert Hides(steps[i]) && NoMarkAfter(steps, i); }
    }
  }

  lemma WaitsStep(s: State, t: State, before: seq<Step>, step: Step)
    requires Waits(s, t, before) && Legal(t, step) && Background(step)
    ensures Waits(s, Apply(t, step), before + [step])
  {
    OverwrittenStep(before, step);
    if step.Meanwhile? {
      BesideStatus(t, step.b);
      BesideKeepsForce(t, step.b);
      BesideKeepsDue(t, step.b);
    }
  }

  /** Nobody who could hide a 'removing' member reads it. */
  lemma BesideKeepsDue(s: State, b: Beside)
    requires MayHappen(s, b)
    ensures s.status.Removing? && !HiderDue(s) ==> !HiderDue(Happens(s, b)) && !b.Lapse? && !b.Restore? && !b.Unlock?
  {
  }

  lemma BesideKeepsForce(s: State, b: Beside)
    ensures AnyInForce(Happens(s, b).w.rows) <==> AnyInForce(s.w.rows)
  {
    BesideKeepsRows(s, b);
    var rows, rows' := s.w.rows, Happens(s, b).w.rows;
    if k :| k in rows && InForce(rows[k]) { assert k in rows' && InForce(rows'[k]); }
    if k :| k in rows' && InForce(rows'[k]) { assert k in rows && InForce(rows[k]); }
  }

  /** A run without its last step. */
  lemma {:induction false} RunLast(s: State, steps: seq<Step>)
    requires LegalFrom(s, steps) && steps != []
    ensures var n := |steps| - 1;
            && LegalFrom(s, steps[..n]) && Legal(RunFrom(s, steps[..n]), steps[n])
            && RunFrom(s, steps) == Apply(RunFrom(s, steps[..n]), steps[n])
    decreases |steps|
  {
    var n := |steps| - 1;
    if n == 0 {
      assert steps[..n] == [] && steps[1..] == [];
      assert RunFrom(Apply(s, steps[0]), steps[1..]) == Apply(s, steps[0]);
    } else {
      RunLast(Apply(s, steps[0]), steps[1..]);
      assert steps[1..][..n - 1] == steps[..n][1..] && steps[..n][0] == steps[0];
    }
  }

  lemma {:induction false} BackgroundWaits(s: State, steps: seq<Step>)
    requires Parked(s) && BackgroundRun(s, steps)
    ensures Waits(s, RunFrom(s, steps), steps)
    decreases |steps|
  {
    if steps == [] {
      assert !Overwritten(steps);
    } else {
      var n := |steps| - 1;
      RunLast(s, steps);
      BackgroundWaits(s, steps[..n]);
      assert steps[..n] + [steps[n]] == steps;
      WaitsStep(s, RunFrom(s, steps[..n]), steps[..n], steps[n]);
    }
  }

  /** A finalize that threw is found by its retry at once, if the lock release got through. Whatever
      happens until the retry comes, it is found exactly if some row is active or paused or no lapse, no
      restore and no unlock that had read the member before has written over its status since. None has
      if none was due. */
  lemma ThrownFinalizeStaysFindable(s: State, steps: seq<Step>)
    requires Inv(s) && Legal(s, FinalizeThrew(true)) && BackgroundRun(Apply(s, FinalizeThrew(true)), steps)
    ensures Findable(Apply(s, FinalizeThrew(true)))
    ensures Findable(RunFrom(Apply(s, FinalizeThrew(true)), steps)) <==> AnyInForce(s.w.rows) || !Overwritten(steps)
    ensures !HiderDue(s) && !AnyActive(s.w.rows) ==> !Overwritten(steps)
  {
    var u := Apply(s, FinalizeThrew(true));
    var t := RunFrom(u, steps);
    StepKeepsInv(s, FinalizeThrew(true));
    RunKeepsInv(u, steps);
    BackgroundWaits(u, steps);
    FoundByRowsIff(t.w);
  }

  /** So, of a member that waits as 'removing': something can happen between two jobs that hides it
      exactly if such a writer is due and no row is active or paused. */
  lemma CanBeHiddenIff(s: State)
    requires Inv(s) && s.job.Idle? && s.status.Removing?
    ensures (exists steps :: BackgroundRun(s, steps) && !Findable(RunFrom(s, steps))) <==>
              HiderDue(s) && !AnyInForce(s.w.rows)
  {
    if steps :| BackgroundRun(s, steps) && !Findable(RunFrom(s, steps)) {
      RunKeepsInv(s, steps);
      BackgroundWaits(s, steps);
      FoundByRowsIff(RunFrom(s, steps).w);
    }
    if HiderDue(s) && !AnyInForce(s.w.rows) {
      var step := Meanwhile(if LapseLoop in s.due then Lapse({})
                            else if RestoreLoop in s.due then Restore({})
                            else Unlock);
      var steps := [step];
      RunAfter(s, step, []);
      assert steps == [step] + [];
      assert Overwritten(steps) by { assert Hides(steps[0]) && NoMarkAfter(steps, 0); }
      BackgroundWaits(s, steps);
      RunKeepsInv(s, steps);
      FoundByRowsIff(RunFrom(s, steps).w);
      assert BackgroundRun(s, steps);
    }
  }

  /** 'deleted' is not terminal either: it stays exactly until a writer that had read the member before
      writes over it. */
  lemma {:induction false} DeletedStaysIff(s: State, steps: seq<Step>)
    requires s.status.Deleted? && s.job.Idle? && BackgroundRun(s, steps)
    ensures var t := RunFrom(s, steps);
            && t.job.Idle? && !t.status.InFlight?
            && (t.status.Deleted? <==> forall i :: 0 <= i < |steps| ==> !Hides(steps[i]) && !Marks(steps[i]))
    decreases |steps|
  {
    if steps != [] {
      var n := |steps| - 1;
      RunLast(s, steps);
      DeletedStaysIff(s, steps[..n]);
      assert forall i :: 0 <= i < n ==> steps[..n][i] == steps[i];
      DeletedStep(RunFrom(s, steps[..n]), steps[n]);
    }
  }

  lemma DeletedStep(t: State, step: Step)
    requires Legal(t, step) && Background(step) && t.job.Idle? && !t.status.InFlight?
    ensures var t' := Apply(t, step);
            && t'.job.Idle? && !t'.status.InFlight?
            && (t'.status.Deleted? <==> t.status.Deleted? && !Hides(step) && !Marks(step))
  {
    if step.Meanwhile? { BesideStatus(t, step.b); }
  }

  /** The retry of such a revoke has nothing left to take away and ends in 'deleted'. */
  lemma RetryEndsDeleted(s: State, doomed: iset<Key>)
    requires s.status.Removing? && s.job.Idle? && s.w.roles == map[] && !AnyActive(s.w.rows)
    ensures var steps := [RevokeStart(doomed), RevokeRecorded, Finalize(false)];
            LegalFrom(s, steps) && RunFrom(s, steps) == s.(status := Deleted, job := Idle)
  {
    var steps := [RevokeStart(doomed), RevokeRecorded, Finalize(false)];
    RunAfter(s, steps[0], steps[1..]);
    RunAfter(Apply(s, steps[0]), steps[1], steps[2..]);
    assert steps[1..][1..] == steps[2..];
    RunAfter(Apply(Apply(s, steps[0]), steps[1]), steps[2], []);
    assert steps[2..] == [steps[2]] + [];
  }

  lemma RunAfter(s: State, step: Step, rest: seq<Step>)
    requires Legal(s, step) && LegalFrom(Apply(s, step), rest)
    ensures LegalFrom(s, [step] + rest) && RunFrom(s, [step] + rest) == RunFrom(Apply(s, step), rest)
  {
    assert ([step] + rest)[1..] == rest;
  }

  // --- Where it does not hold ---

  ghost predicate Reachable(s: State) {
    exists steps :: LegalFrom(START, steps) && RunFrom(START, steps) == s
  }

  lemma Reach(s: State, step: Step)
    requires Reachable(s) && Legal(s, step)
    ensures Reachable(Apply(s, step))
  {
    var steps :| LegalFrom(START, steps) && RunFrom(START, steps) == s;
    RunThen(START, steps, step);
    assert LegalFrom(START, steps + [step]);
  }

  lemma {:induction false} RunThen(s: State, steps: seq<Step>, step: Step)
    requires LegalFrom(s, steps) && Legal(RunFrom(s, steps), step)
    ensures LegalFrom(s, steps + [step]) && RunFrom(s, steps + [step]) == Apply(RunFrom(s, steps), step)
    decreases |steps|
  {
    if steps == [] {
      RunAfter(s, step, []);
      assert [step] + [] == [step] == [] + [step];
    } else {
      RunThen(Apply(s, steps[0]), steps[1..], step);
      assert (steps + [step])[1..] == steps[1..] + [step];
    }
  }

  /** A plan is live on a door, another plan with the same door waits for its hardware or its start, and
      nothing else of the member has been granted. The first plan's cancel keeps the door for the other
      and deletes the row that names the role; then neither its retry nor the other plan's cancel finds
      the member, whose role stays live. */
  lemma WaitingPlanHidesLiveDoor(s: State, k: Key, o: Key)
    requires Inv(s) && s.job.Idle? && Findable(s) && k in s.w.rows && o in s.w.rows && k != o && k.group == o.group
    requires !k.kind.DayPass? && !o.kind.DayPass? && k.group in s.w.roles
    requires forall r :: r in s.w.rows ==> (s.w.rows[r].role.Some? <==> r == k)
    ensures var steps := [RevokeStart(iset{k}), Call(DropRow(k)), RevokeRecorded, Finalize(false)];
            && LegalFrom(s, steps)
            && var t := RunFrom(s, steps);
               k.group in t.w.roles && t.job.Idle? && o in t.w.rows && !Findable(t)
  {
    var steps := [RevokeStart(iset{k}), Call(DropRow(k)), RevokeRecorded, Finalize(false)];
    var s1 := s.(status := InFlight, job := Revoking(iset{k}));
    assert Kept(s1.w, iset{k}, k.group);
    var s2 := s1.(w := s.w.(rows := s.w.rows - {k}));
    assert Apply(s1, steps[1]) == s2;
    var s3 := s2.(status := Off, job := Finalizing);
    assert Apply(s2, steps[2]) == s3;
    RunOf4(s, steps[0], steps[1], steps[2], steps[3]);
  }

  lemma RunOf4(s: State, a: Step, b: Step, c: Step, d: Step)
    requires Legal(s, a) && Legal(Apply(s, a), b) && Legal(Apply(Apply(s, a), b), c)
    requires Legal(Apply(Apply(Apply(s, a), b), c), d)
    ensures LegalFrom(s, [a, b, c, d])
    ensures RunFrom(s, [a, b, c, d]) == Apply(Apply(Apply(Apply(s, a), b), c), d)
  {
    var s3 := Apply(Apply(Apply(s, a), b), c);
    RunAfter(s3, d, []);
    RunAfter(Apply(Apply(s, a), b), c, [d]);
    RunAfter(Apply(s, a), b, [c, d]);
    RunAfter(s, a, [b, c, d]);
    assert [d] + [] == [d] && [c] + [d] == [c, d] && [b] + [c, d] == [b, c, d] && [a] + [b, c, d] == [a, b, c, d];
  }

  const OLD_PLAN := Key(Plan, "old", "door")
  const NEW_PLAN := Key(Plan, "new", "door")
  const OLD_ROW := Row("m1", Some(0), SourceStatus.Active)
  const NEW_ROW := Row("m2", None, PendingStart)

  /** The members of WaitingPlanHidesLiveDoor exist: buy a plan, then one with the same door that starts
      later. */
  lemma WaitingPlanIsReachable()
    ensures Reachable(State(World(map[OLD_PLAN := OLD_ROW, NEW_PLAN := NEW_ROW], map["door" := 0], {}, 1), On, true,
              Idle, multiset{}))
  {
    GrantedIsReachable();
    var s3 := State(World(map[OLD_PLAN := OLD_ROW], map["door" := 0], {}, 1), InFlight, true, Granting, multiset{});
    var park := Park(map[NEW_PLAN := "m2"], PendingStart, true);
    Reach(s3, park);
    var s4 := Apply(s3, park);
    assert s4.w.rows == map[OLD_PLAN := OLD_ROW, NEW_PLAN := NEW_ROW];
    assert s4.w.rows[OLD_PLAN].status.Active?;
  }

  lemma BoughtIsReachable()
    ensures Reachable(State(World(map[OLD_PLAN := OLD_ROW], map["door" := 0], {}, 1), On, true, Idle, multiset{}))
  {
    var a := Assignment(Mapping("m1", "door", "kisi"), 0, true);
    GrantOnEmpty(a);
    assert LegalFrom(START, []) && RunFrom(START, []) == START;
    Reach(START, GrantStart);
    var s1 := Apply(START, GrantStart);
    var grant := GrantDone(GrantEvent(false, "old"), [a]);
    Reach(s1, grant);
    var s2 := Apply(s1, grant);
    assert OLD_PLAN in s2.w.rows && s2.w.rows[OLD_PLAN].status.Active?;
  }

  lemma GrantedIsReachable()
    ensures Reachable(State(World(map[OLD_PLAN := OLD_ROW], map["door" := 0], {}, 1), InFlight, true, Granting,
              multiset{}))
  {
    BoughtIsReachable();
    var s := State(World(map[OLD_PLAN := OLD_ROW], map["door" := 0], {}, 1), On, true, Idle, multiset{});
    Reach(s, GrantStart);
  }

  lemma GrantOnEmpty(a: Assignment)
    requires a == Assignment(Mapping("m1", "door", "kisi"), 0, true)
    ensures Opened(EMPTY_WORLD, AssignAll(EMPTY_WORLD, Called([a])), [a])
    ensures Regrant(EMPTY_WORLD, GrantEvent(false, "old"), [a])
              == World(map[OLD_PLAN := OLD_ROW], map["door" := 0], {}, 1)
  {
    assert [a][..0] == [] && [a][1..] == [] && [] + [a.m] == [a.m];
    assert Called([a]) == [a.m];
    AssignOne(EMPTY_WORLD, a.m);
    var wa := WithRole(EMPTY_WORLD, "door");
    assert Grounded(EMPTY_WORLD, wa, a);
    var ev := GrantEvent(false, "old");
    var w' := Record(wa, ev.KeyFor("door"), "m1", Some(0));
    assert RecordEach(wa, ev, [a]) == RecordEach(w', ev, [a][1..]) == w';
    assert w'.rows == map[OLD_PLAN := OLD_ROW];
  }

  /** Parking a plan over a row that names a live role puts that role out of the lookup's reach, unless
      another row of the member still gives it something to remove. */
  lemma ParkingOverLiveRow(s: State, k: Key, mapping: string, status: SourceStatus)
    requires Inv(s) && s.job.Granting? && Waiting(status)
    requires k.group in s.w.roles && Names(s.w, k, k.group, s.w.roles[k.group])
    ensures var step := Park(map[k := mapping], status, true);
            && Legal(s, step)
            && var t := Apply(s, step);
               t.w.roles == s.w.roles && (Findable(t) <==> SomethingToRemove(s.w.rows - {k}))
  {
    var rows := WithParked(s.w.rows, map[k := mapping], status);
    var rest := s.w.rows - {k};
    assert forall o :: o in rest ==> o in rows && rows[o] == rest[o];
    assert forall o :: o in rows && o != k ==> o in rest;
  }

  /** And that happens: a plan is bought, and while the door system's key is missing its purchase comes
      once more. The role is live, and no revoke finds the member. */
  lemma ParkedOverIsReachable()
    ensures exists s :: Reachable(s) && s.job.Idle? && s.w.roles == map["door" := 0] && !Findable(s)
  {
    var s1 := State(World(map[OLD_PLAN := OLD_ROW], map["door" := 0], {}, 1), InFlight, true, Granting, multiset{});
    GrantedIsReachable();
    ParkingOverLiveRow(s1, OLD_PLAN, "m1", PendingHardware);
    Reach(s1, Park(map[OLD_PLAN := "m1"], PendingHardware, true));
  }

  const BOUGHT := World(map[OLD_PLAN := OLD_ROW], map["door" := 0], {}, 1)
  const NOTHING_LEFT := World(map[], map[], {}, 1)

  lemma CancelRuns(s: State)
    requires Reachable(s) && s.w == BOUGHT && s.job == Revoking(iset{OLD_PLAN})
    ensures Reachable(s.(w := NOTHING_LEFT, status := Off, job := Finalizing))
  {
    assert !Kept(s.w, iset{OLD_PLAN}, "door");
    Reach(s, Call(DropRole(OLD_PLAN)));
    var s1 := s.(w := BOUGHT.(roles := map[]));
    assert Apply(s, Call(DropRole(OLD_PLAN))) == s1;
    Reach(s1, Call(DropRow(OLD_PLAN)));
    var s2 := s.(w := NOTHING_LEFT);
    assert Apply(s1, Call(DropRow(OLD_PLAN))) == s2;
    Reach(s2, RevokeRecorded);
  }

  /** A lapse loop reads its members; before it comes to this one, the member's only plan is cancelled. */
  lemma CancelledUnderALapse()
    ensures Reachable(State(NOTHING_LEFT, Off, true, Finalizing, multiset{LapseLoop}))
  {
    BoughtIsReachable();
    var s := State(BOUGHT, On, true, Idle, multiset{});
    assert OLD_PLAN in s.w.rows && s.w.rows[OLD_PLAN].status.Active?;
    Reach(s, Meanwhile(Listed(LapseLoop)));
    var s1 := State(BOUGHT, On, true, Idle, multiset{LapseLoop});
    Reach(s1, RevokeStart(iset{OLD_PLAN}));
    CancelRuns(State(BOUGHT, InFlight, true, Revoking(iset{OLD_PLAN}), multiset{LapseLoop}));
  }

  /** If the finalize then throws, its lock release parks the member as 'removing', and the loop writes
      'inactive' over that: no retry finds the member, whose user and personal data stay. */
  lemma LateLapseHidesMember()
    ensures exists s :: && Reachable(s) && s.job.Idle? && s.status.Removing? && s.user && Findable(s)
                        && MayHappen(s, Lapse({})) && !Findable(Happens(s, Lapse({})))
  {
    CancelledUnderALapse();
    var s := State(NOTHING_LEFT, Off, true, Finalizing, multiset{LapseLoop});
    Reach(s, FinalizeThrew(true));
    var u := s.(status := Removing, job := Idle);
    assert Apply(s, FinalizeThrew(true)) == u;
    assert Happens(u, Lapse({})).status.Off?;
  }

  /** If it goes through, the loop writes over 'deleted', and the next purchase keeps the user that was
      deleted, which it would have dropped. */
  lemma LateLapseReopensDeleted()
    ensures exists s :: && Reachable(s) && s.job.Idle? && s.status.Deleted? && !Apply(s, GrantStart).user
                        && MayHappen(s, Lapse({})) && Happens(s, Lapse({})).status.Off?
                        && Apply(Happens(s, Lapse({})), GrantStart).user
  {
    CancelledUnderALapse();
    var s := State(NOTHING_LEFT, Off, true, Finalizing, multiset{LapseLoop});
    Reach(s, Finalize(false));
    var u := s.(status := Deleted, job := Idle);
    assert Apply(s, Finalize(false)) == u;
    assert Happens(u, Lapse({})).status.Off?;
  }

  /** A job that dies, rather than throws, between the recorded revoke and the finalize is found again
      only if some row is left: after a full revoke the user and the personal data stay behind. */
  lemma CrashBeforeFinalizeIsFoundIff(s: State)
    requires s.job.Revoking?
    ensures Findable(Apply(Apply(s, RevokeRecorded), Crash)) <==> SomethingToRemove(s.w.rows)
  {
  }

  // --- Day-pass links ---

  /** Over every run a live group link has an active or paused row to find it by, and so the member is
      found, unless the access row is 'deleted': then every link still live is a paused pass's. */
  lemma EveryLiveLinkIsFindable(steps: seq<Step>, l: nat)
    requires LegalFrom(START, steps) && l in RunFrom(START, steps).w.links
    ensures var s := RunFrom(START, steps);
            && (exists k :: NamesLink(s.w, k, l) && (s.status.Deleted? ==> s.w.rows[k].status.Failed?))
            && (Findable(s) <==> !s.status.Deleted?)
  {
    RunKeepsInv(START, steps);
    var s := RunFrom(START, steps);
    var k :| NamesLink(s.w, k, l);
    assert s.w.rows[k].status.Active? ==> AnyActive(s.w.rows);
  }

  const PASS := Key(DayPass, "pass#order#1", "door")

  lemma PausedPassIsReachable()
    ensures Reachable(State(World(map[PASS := Row("", Some(0), Failed)], map[], {0}, 1), Off, false, Idle, multiset{}))
  {
    assert LegalFrom(START, []) && RunFrom(START, []) == START;
    Reach(START, GrantStart);
    var s1 := Apply(START, GrantStart);
    Reach(s1, PassDone(PASS));
    var s2 := Apply(s1, PassDone(PASS));
    assert PASS in s2.w.rows && s2.w.rows[PASS].status.Active?;
    Reach(s2, RevokeStart(iset{}));
    var s3 := Apply(s2, RevokeStart(iset{}));
    assert s3 == s2.(status := InFlight, job := Revoking(iset{}));
    Reach(s3, Paused);
    assert Apply(s3, Paused).w.rows == map[PASS := Row("", Some(0), Failed)];
  }

  /** And that happens: the finalize looks at roles, not at links. A pass that is paused when the member's
      last plan is cancelled stays live behind a deleted access row. */
  lemma PausedPassOutlivesFinalize()
    ensures exists s :: Reachable(s) && s.status.Deleted? && 0 in s.w.links
  {
    PausedPassIsReachable();
    var s4 := State(World(map[PASS := Row("", Some(0), Failed)], map[], {0}, 1), Off, false, Idle, multiset{});
    assert PASS in s4.w.rows && s4.w.rows[PASS].status.Failed?;
    Reach(s4, RevokeStart(iset{}));
    var s5 := Apply(s4, RevokeStart(iset{}));
    Reach(s5, RevokeRecorded);
    var s6 := Apply(s5, RevokeRecorded);
    Reach(s6, Finalize(false));
    var s7 := Apply(s6, Finalize(false));
    assert Reachable(s7) && s7.status.Deleted? && 0 in s7.w.links;
  }
}
