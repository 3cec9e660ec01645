/** What a completed grant or cancel job does to the two stores, and what any sequence of them adds
    up to: door access as a reference count over the plans a member holds. */
module GrantCancel {
  import opened Prelude
  import opened DoorWorld
  import DayPassKeys

  /** One door group of one plan mapping; `account` is the platform and key it is reached with. */
  datatype Mapping = Mapping(id: string, group: string, account: string)

  datatype GrantEvent = GrantEvent(booking: bool, plan: string) {
    function Kind(): Kind { if booking then Booking else Plan }
    function KeyFor(group: string): Key { Key(Kind(), plan, group) }

    /** The row key `k` is one a grant of this event over `ms` writes. */
    ghost predicate Writes(ms: seq<Mapping>, k: Key) {
      exists m :: m in ms && k == KeyFor(m.group)
    }
  }

  /** plan.cancelled or booking.cancelled; "" for an id the event does not carry. */
  datatype CancelEvent = CancelEvent(booking: bool, plan: string, order: string) {
    function Kind(): Kind { if booking then Booking else Plan }

    /** The rows this event is about. Day passes are matched whatever the event's type. */
    predicate Names(k: Key) {
      if k.kind.DayPass? then DayPassKeys.RowMatches(k.plan, plan, order)
      else k.kind == Kind() && k.plan == plan
    }

    ghost function Doomed(): iset<Key> { iset k | Names(k) }
  }

  // --- Grant ---

  function AssignAll(w: World, ms: seq<Mapping>): World
    decreases |ms|
  {
    if ms == [] then w else AssignAll(WithRole(w, ms[0].group), ms[1..])
  }

  /** The upsert of one source row: on conflict the mapping it was first written under stays. */
  function Record(w: World, k: Key, mapping: string, role: Option<nat>): World {
    WithRow(w, k, Row(if k in w.rows then w.rows[k].mapping else mapping, role, Active))
  }

  function RecordAll(w: World, ev: GrantEvent, ms: seq<Mapping>): World
    requires forall m :: m in ms ==> m.group in w.roles
    decreases |ms|
  {
    if ms == [] then w
    else RecordAll(Record(w, ev.KeyFor(ms[0].group), ms[0].id, Some(w.roles[ms[0].group])), ev, ms[1..])
  }

  function Granted(w: World, ev: GrantEvent, ms: seq<Mapping>): World {
    AssignAllRoles(w, ms);
    RecordAll(AssignAll(w, ms), ev, ms)
  }

  /** A role is created for exactly the doors that have none, under a fresh id; every other role
      keeps its id. */
  lemma {:induction false} AssignAllRoles(w: World, ms: seq<Mapping>)
    ensures var w' := AssignAll(w, ms);
            && w'.rows == w.rows && w'.links == w.links && w.nextId <= w'.nextId
            && (forall g :: g in w'.roles <==> g in w.roles || exists m :: m in ms && m.group == g)
            && (forall g :: g in w.roles ==> w'.roles[g] == w.roles[g])
            && (forall g :: g in w'.roles && g !in w.roles ==> w.nextId <= w'.roles[g] < w'.nextId)
    ensures (forall g :: g in w.roles ==> w.roles[g] < w.nextId) ==>
              forall g :: g in AssignAll(w, ms).roles ==> AssignAll(w, ms).roles[g] < AssignAll(w, ms).nextId
    ensures (forall g :: g in w.roles ==> w.roles[g] < w.nextId) && RolesDistinct(w) ==> RolesDistinct(AssignAll(w, ms))
    decreases |ms|
  {
    if ms != [] {
      AssignAllRoles(WithRole(w, ms[0].group), ms[1..]);
    }
  }

  lemma {:induction false} RecordAllRows(w: World, ev: GrantEvent, ms: seq<Mapping>)
    requires forall m :: m in ms ==> m.group in w.roles
    ensures var w' := RecordAll(w, ev, ms);
            && w'.roles == w.roles && w'.links == w.links && w'.nextId == w.nextId
            && (forall k :: k in w'.rows <==> k in w.rows || ev.Writes(ms, k))
            && (forall k :: k in w'.rows ==>
                  if ev.Writes(ms, k)
                  then k.group in w.roles && w'.rows[k].role == Some(w.roles[k.group]) && w'.rows[k].status.Active?
                  else w'.rows[k] == w.rows[k])
    decreases |ms|
  {
    if ms != [] {
      var m0 := ms[0];
      var w1 := Record(w, ev.KeyFor(m0.group), m0.id, Some(w.roles[m0.group]));
      RecordAllRows(w1, ev, ms[1..]);
      forall k ensures ev.Writes(ms, k) <==>
                       k == ev.KeyFor(m0.group) || ev.Writes(ms[1..], k)
      {
        if m :| m in ms && k == ev.KeyFor(m.group) {
          assert m == m0 || m in ms[1..];
        }
      }
    }
  }

  lemma {:induction false} AssignAllConcat(w: World, a: seq<Mapping>, b: seq<Mapping>)
    ensures AssignAll(w, a + b) == AssignAll(AssignAll(w, a), b)
    decreases |a|
  {
    if a == [] {
      assert a + b == b;
    } else {
      assert (a + b)[1..] == a[1..] + b;
      AssignAllConcat(WithRole(w, a[0].group), a[1..], b);
    }
  }

  lemma {:induction false} AssignAgain(w: World, ms: seq<Mapping>)
    requires forall m :: m in ms ==> m.group in w.roles
    ensures AssignAll(w, ms) == w
    decreases |ms|
  {
    if ms != [] { AssignAgain(w, ms[1..]); }
  }

  lemma {:induction false} RecordAllConcat(w: World, ev: GrantEvent, a: seq<Mapping>, b: seq<Mapping>)
    requires forall m :: m in a + b ==> m.group in w.roles
    requires forall m :: m in a ==> m in a + b
    requires forall m :: m in b ==> m in a + b
    ensures RecordAll(w, ev, a).roles == w.roles
    ensures RecordAll(w, ev, a + b) == RecordAll(RecordAll(w, ev, a), ev, b)
    decreases |a|
  {
    if a == [] {
      assert a + b == b;
    } else {
      assert (a + b)[1..] == a[1..] + b;
      RecordAllConcat(Record(w, ev.KeyFor(a[0].group), a[0].id, Some(w.roles[a[0].group])), ev, a[1..], b);
    }
  }

  lemma {:induction false} RecordAgain(w: World, ev: GrantEvent, ms: seq<Mapping>)
    requires forall m :: m in ms ==> m.group in w.roles
    requires forall m :: m in ms ==> var k := ev.KeyFor(m.group);
               k in w.rows && w.rows[k].role == Some(w.roles[m.group]) && w.rows[k].status.Active?
    ensures RecordAll(w, ev, ms) == w
    decreases |ms|
  {
    if ms != [] {
      var k := ev.KeyFor(ms[0].group);
      assert w.rows[k := w.rows[k]] == w.rows;
      RecordAgain(w, ev, ms[1..]);
    }
  }

  /** A grant cut off after any prefix of its door calls and then of its row writes, and run again,
      ends where the uninterrupted grant ends: same rows, same roles, same ids. */
  lemma GrantRetryConverges(w: World, ev: GrantEvent, ms: seq<Mapping>, called: nat, written: nat)
    requires called <= |ms| && written <= |ms| && (written > 0 ==> called == |ms|)
    requires forall m :: m in ms[..written] ==> m.group in AssignAll(w, ms[..called]).roles
    ensures Granted(RecordAll(AssignAll(w, ms[..called]), ev, ms[..written]), ev, ms) == Granted(w, ev, ms)
  {
    var a, b := ms[..called], ms[called..];
    assert a + b == ms;
    var wa := AssignAll(w, a);
    AssignAllRoles(w, a);
    AssignAllConcat(w, a, b);
    AssignAllConcat(wa, a, b);
    AssignAgain(wa, a);
    assert AssignAll(wa, ms) == AssignAll(w, ms);
    if written == 0 {
      assert ms[..0] == [];
    } else {
      assert a == ms;
      var c, d := ms[..written], ms[written..];
      assert c + d == ms;
      assert forall m :: m in c || m in d ==> m in ms;
      var wr := RecordAll(wa, ev, c);
      RecordAllRows(wa, ev, c);
      AssignAgain(wr, ms);
      RecordAllConcat(wa, ev, c, d);
      RecordAllConcat(wr, ev, c, d);
      RecordAgain(wr, ev, c);
    }
  }

  // --- What one job does, row by row and door by door ---

  /** A row of that plan, or of that booking. */
  ghost predicate Of(k: Key, booking: bool, plan: string) {
    k == Key(if booking then Booking else Plan, plan, k.group)
  }

  ghost predicate On(ms: seq<Mapping>, group: string) {
    exists m :: m in ms && m.group == group
  }

  lemma {:induction false} RecordedMappings(w: World, ev: GrantEvent, ms: seq<Mapping>, k: Key)
    requires forall m :: m in ms ==> m.group in w.roles
    ensures k in w.rows ==> k in RecordAll(w, ev, ms).rows && RecordAll(w, ev, ms).rows[k].mapping == w.rows[k].mapping
    ensures k in RecordAll(w, ev, ms).rows && k !in w.rows ==>
              exists m :: m in ms && m.group == k.group && m.id == RecordAll(w, ev, ms).rows[k].mapping
    decreases |ms|
  {
    if ms != [] {
      var own := ev.KeyFor(ms[0].group);
      var w1 := Record(w, own, ms[0].id, Some(w.roles[ms[0].group]));
      RecordedMappings(w1, ev, ms[1..], k);
      if k == own && k !in w.rows { assert w1.rows[k].mapping == ms[0].id && ms[0] in ms; }
    }
  }

  /** A completed grant: the plan's, or the booking's, row on each of its doors is there, active, with the
      door's one role, and under the mapping it was first written for; a door that was open keeps its role;
      nothing else changes. */
  lemma GrantMeans(w: World, booking: bool, plan: string, ms: seq<Mapping>)
    ensures var t := Granted(w, GrantEvent(booking, plan), ms);
            && (forall g :: g in t.roles <==> g in w.roles || On(ms, g))
            && (forall g :: g in w.roles ==> t.roles[g] == w.roles[g]) && t.links == w.links
            && (forall k :: k in t.rows <==> k in w.rows || (Of(k, booking, plan) && On(ms, k.group)))
            && (forall k :: k in w.rows && !(Of(k, booking, plan) && On(ms, k.group)) ==> t.rows[k] == w.rows[k])
            && (forall k :: Of(k, booking, plan) && On(ms, k.group) ==>
                  && t.rows[k].status == Active && k.group in t.roles && t.rows[k].role == Some(t.roles[k.group])
                  && if k in w.rows then t.rows[k].mapping == w.rows[k].mapping
                     else exists m :: m in ms && m.group == k.group && m.id == t.rows[k].mapping)
  {
    var ev, wa := GrantEvent(booking, plan), AssignAll(w, ms);
    AssignAllRoles(w, ms);
    RecordAllRows(wa, ev, ms);
    forall k: Key ensures Of(k, booking, plan) && On(ms, k.group) <==> ev.Writes(ms, k) {
      if m :| m in ms && k == ev.KeyFor(m.group) { assert On(ms, k.group); }
      if Of(k, booking, plan) && On(ms, k.group) {
        var m :| m in ms && m.group == k.group;
        assert k == ev.KeyFor(m.group);
      }
    }
    forall k: Key | Of(k, booking, plan) && On(ms, k.group) { RecordedMappings(wa, ev, ms, k); }
  }

  /** A completed cancellation: of the permanent rows exactly those of the plan, or of the booking, go;
      their roles go exactly where no other permanent row is on the door; nothing else of these changes. */
  lemma CancelMeans(w: World, booking: bool, plan: string, order: string)
    ensures var t := TornDown(w, CancelEvent(booking, plan, order).Doomed());
            && (forall k :: k in w.rows && k.kind != DayPass ==> (k in t.rows <==> !Of(k, booking, plan)))
            && (forall k :: k in t.rows ==> k in w.rows && t.rows[k] == w.rows[k])
            && (forall g :: g in t.roles ==> g in w.roles && t.roles[g] == w.roles[g])
            && (forall g :: g in w.roles ==> (g !in t.roles <==>
                  exists k :: && k in w.rows && Of(k, booking, plan) && w.rows[k].role == Some(w.roles[g])
                              && OnlyOf(w, booking, plan, k.group)))
  {
    var ev := CancelEvent(booking, plan, order);
    forall k: Key | k.kind != DayPass ensures k in ev.Doomed() <==> Of(k, booking, plan) {}
    forall g ensures Kept(w, ev.Doomed(), g) <==> !OnlyOf(w, booking, plan, g) {}
  }

  /** No permanent row of another plan, or of a booking beside a plan and the other way round, is on the
      door. */
  ghost predicate OnlyOf(w: World, booking: bool, plan: string, group: string) {
    forall k :: k in w.rows && k.kind != DayPass && k.group == group ==> Of(k, booking, plan)
  }

  // --- Job histories ---

  datatype Job =
    | Grant(grant: GrantEvent, ms: seq<Mapping>)
    | Cancel(cancel: CancelEvent)
    | GrantPass(claimKey: string, group: string)

  ghost function RunJob(w: World, job: Job): World {
    match job
    case Grant(ev, ms) => Granted(w, ev, ms)
    case Cancel(ev) => TornDown(w, ev.Doomed())
    case GrantPass(claimKey, group) =>
      var k := Key(DayPass, claimKey, group);
      if k in w.rows then w
      else WithRow(w, k, Row("", Some(w.nextId), Active)).(links := w.links + {w.nextId}, nextId := w.nextId + 1)
  }

  ghost function RunJobs(jobs: seq<Job>): World {
    if jobs == [] then EMPTY_WORLD else RunJob(RunJobs(jobs[..|jobs| - 1]), jobs[|jobs| - 1])
  }

  lemma GrantSettles(w: World, ev: GrantEvent, ms: seq<Mapping>)
    requires Settled(w)
    ensures Settled(Granted(w, ev, ms))
  {
    AssignAllRoles(w, ms);
    RecordAllRows(AssignAll(w, ms), ev, ms);
    GrantBacks(w, ev, ms);
  }

  lemma GrantBacks(w: World, ev: GrantEvent, ms: seq<Mapping>)
    requires Settled(w)
    ensures Backed(Granted(w, ev, ms))
  {
    var w' := Granted(w, ev, ms);
    AssignAllRoles(w, ms);
    RecordAllRows(AssignAll(w, ms), ev, ms);
    forall g | g in w'.roles ensures exists k :: Names(w', k, g, w'.roles[g]) {
      if g in w.roles {
        var k :| Names(w, k, g, w.roles[g]);
        assert Names(w', k, g, w'.roles[g]);
      } else {
        var m :| m in ms && m.group == g;
        assert Names(w', ev.KeyFor(m.group), g, w'.roles[g]);
      }
    }
    forall l | l in w'.links ensures exists k :: k in w'.rows && k.kind.DayPass? && w'.rows[k].role == Some(l) {
      var k :| k in w.rows && k.kind.DayPass? && w.rows[k].role == Some(l);
      assert k in w'.rows;
    }
  }

  lemma TeardownSettles(w: World, doomed: iset<Key>)
    requires Settled(w)
    ensures Settled(TornDown(w, doomed))
  {
    TeardownBackedIff(w, doomed);
    var t := TornDown(w, doomed);
    forall k | k in t.rows && !k.kind.DayPass? ensures k.group in t.roles {
      assert Kept(w, doomed, k.group);
    }
  }

  lemma PassSettles(w: World, claimKey: string, group: string)
    requires Settled(w)
    ensures Settled(RunJob(w, GrantPass(claimKey, group)))
    ensures RunJob(w, GrantPass(claimKey, group)).roles == w.roles
  {
    var key := Key(DayPass, claimKey, group);
    if key !in w.rows { PassRowSettles(w, key); }
  }

  lemma PassRowSettles(w: World, key: Key)
    requires Settled(w) && key.kind.DayPass? && key !in w.rows
    ensures Settled(WithRow(w, key, Row("", Some(w.nextId), Active))
              .(links := w.links + {w.nextId}, nextId := w.nextId + 1))
  {
    var w' := WithRow(w, key, Row("", Some(w.nextId), Active)).(links := w.links + {w.nextId}, nextId := w.nextId + 1);
    forall g | g in w'.roles ensures exists k :: Names(w', k, g, w'.roles[g]) {
      var k :| Names(w, k, g, w.roles[g]);
      assert Names(w', k, g, w'.roles[g]);
    }
    forall l | l in w'.links ensures exists k :: k in w'.rows && k.kind.DayPass? && w'.rows[k].role == Some(l) {
      if l in w.links {
        var k :| k in w.rows && k.kind.DayPass? && w.rows[k].role == Some(l);
        assert k in w'.rows;
      } else {
        assert key in w'.rows;
      }
    }
  }

  lemma JobSettles(w: World, job: Job)
    requires Settled(w)
    ensures Settled(RunJob(w, job))
  {
    match job
    case Grant(ev, ms) => GrantSettles(w, ev, ms);
    case Cancel(ev) => TeardownSettles(w, ev.Doomed());
    case GrantPass(claimKey, group) => PassSettles(w, claimKey, group);
  }

  /** While a door stays open across a job its role keeps the id every row has recorded. */
  lemma RoleIdIsStable(w: World, job: Job, g: string)
    requires Settled(w) && g in w.roles && g in RunJob(w, job).roles
    ensures RunJob(w, job).roles[g] == w.roles[g]
  {
    match job
    case Grant(ev, ms) =>
      AssignAllRoles(w, ms);
      RecordAllRows(AssignAll(w, ms), ev, ms);
    case Cancel(ev) =>
    case GrantPass(claimKey, group) =>
  }

  ghost predicate Grants(job: Job, k: Key) {
    job.Grant? && Of(k, job.grant.booking, job.grant.plan) && On(job.ms, k.group)
  }

  ghost predicate Cancels(job: Job, k: Key) {
    job.Cancel? && Of(k, job.cancel.booking, job.cancel.plan)
  }

  /** Said of the history alone: job `i` granted the permanent row `k` and nothing since cancelled
      its plan. */
  ghost predicate HeldSince(jobs: seq<Job>, i: nat, k: Key) {
    && i < |jobs| && Grants(jobs[i], k)
    && forall j :: i < j < |jobs| ==> !Cancels(jobs[j], k)
  }

  ghost predicate Held(jobs: seq<Job>, k: Key) {
    exists i: nat :: HeldSince(jobs, i, k)
  }

  lemma HeldStep(jobs: seq<Job>, job: Job, k: Key)
    ensures Held(jobs + [job], k) <==>
              Grants(job, k) || (Held(jobs, k) && !Cancels(job, k))
  {
    var all, n := jobs + [job], |jobs|;
    assert all[n] == job;
    if i: nat :| HeldSince(all, i, k) {
      if i < n {
        assert forall j :: 0 <= j < n ==> all[j] == jobs[j];
        assert HeldSince(jobs, i, k);
      }
    }
    if Grants(job, k) {
      assert HeldSince(all, n, k);
    }
    if i: nat :| HeldSince(jobs, i, k) {
      if !Cancels(job, k) {
        assert forall j :: 0 <= j < n ==> all[j] == jobs[j];
        assert HeldSince(all, i, k);
      }
    }
  }

  lemma RowsFollowStep(w: World, job: Job, k: Key)
    requires !k.kind.DayPass?
    ensures k in RunJob(w, job).rows <==>
              Grants(job, k) || (k in w.rows && !Cancels(job, k))
  {
    match job
    case Grant(ev, ms) => GrantMeans(w, ev.booking, ev.plan, ms);
    case Cancel(ev) => CancelMeans(w, ev.booking, ev.plan, ev.order);
    case GrantPass(_, _) =>
  }

  /** Reference counting, over any sequence of grant and cancel jobs whose plans share doors: the
      permanent rows are the plans still held, the live roles are exactly the doors those plans
      grant, and every row on a door carries that door's one role id. */
  lemma {:induction false} DoorsAreTheUnionOfHeldPlans(jobs: seq<Job>)
    ensures Settled(RunJobs(jobs))
    ensures forall k: Key :: !k.kind.DayPass? ==> (k in RunJobs(jobs).rows <==> Held(jobs, k))
    ensures forall g :: g in RunJobs(jobs).roles <==> exists k: Key :: !k.kind.DayPass? && k.group == g && Held(jobs, k)
    ensures forall k: Key :: !k.kind.DayPass? && Held(jobs, k) ==>
              k.group in RunJobs(jobs).roles && RunJobs(jobs).rows[k].role == Some(RunJobs(jobs).roles[k.group])
  {
    var w := RunJobs(jobs);
    if jobs == [] {
      forall k ensures !Held(jobs, k) {}
    } else {
      var n := |jobs| - 1;
      var prior := RunJobs(jobs[..n]);
      DoorsAreTheUnionOfHeldPlans(jobs[..n]);
      JobSettles(prior, jobs[n]);
      assert jobs[..n] + [jobs[n]] == jobs;
      forall k: Key | !k.kind.DayPass? ensures k in w.rows <==> Held(jobs, k) {
        HeldStep(jobs[..n], jobs[n], k);
        RowsFollowStep(prior, jobs[n], k);
      }
    }
    forall g ensures g in w.roles <==> exists k: Key :: !k.kind.DayPass? && k.group == g && Held(jobs, k) {
      if g in w.roles {
        var k :| Names(w, k, g, w.roles[g]);
        assert Held(jobs, k);
      }
      if k: Key :| !k.kind.DayPass? && k.group == g && Held(jobs, k) {
        assert k in w.rows;
      }
    }
  }
}
