/** Ingress of webhook events: check the processed mark, set it, queue a job, take the mark off again
    if the queue refuses. Any number of deliveries of any events run these steps interleaved; each
    call to the database or the queue may fail, with or without effect, and each delivery may die. */
module WebhookPipeline {
  import opened Prelude

  datatype JobName = Grant | Revoke | EmailSwap {
    function Label(): string {
      match this
      case Grant => "grant"
      case Revoke => "revoke"
      case EmailSwap => "email_swap"
    }
  }

  function JobId(name: JobName, event: string): string {
    name.Label() + "-" + event
  }

  /** `client` is whose event it is. */
  datatype Job = Job(name: JobName, event: string, client: string) {
    function Id(): string { JobId(name, event) }
  }

  /** No two events, and no two kinds of job, share a job id. */
  lemma JobIdInjective(j: Job, k: Job)
    requires j.Id() == k.Id()
    ensures j.name == k.name && j.event == k.event
  {
    assert j.Id()[0] == j.name.Label()[0] && k.Id()[0] == k.name.Label()[0];
    assert j.name == k.name;
    var n := |j.name.Label()| + 1;
    assert j.Id()[n..] == j.event && k.Id()[n..] == k.event;
  }

  lemma JobIdsAre(event: string)
    ensures JobId(Grant, event) == "grant-" + event
    ensures JobId(Revoke, event) == "revoke-" + event
    ensures JobId(EmailSwap, event) == "email_swap-" + event
  {
  }

  // --- Whose event it is ---

  datatype Tenant = Resolved(client: string) | Mismatch | Unresolved

  /** `hint` is the client whose secret signed the request, `site` the one its site id names. */
  function ResolveTenant(hint: Option<string>, site: Option<string>): (t: Tenant)
    ensures hint.Some? ==> t == Resolved(hint.value) || t.Mismatch?
    ensures t.Resolved? && hint.Some? && site.Some? ==> site == hint
    ensures t.Unresolved? <==> hint.None? && site.None?
  {
    if hint.Some? then
      if site.Some? && site != hint then Mismatch else Resolved(hint.value)
    else if site.Some? then Resolved(site.value) else Unresolved
  }

  /** What a delivery carries: `route` is the job its event type calls for, if any. */
  datatype Event = Event(id: string, wellFormed: bool, hint: Option<string>, site: Option<string>,
                         route: Option<JobName>)
  {
    predicate Routable() { ResolveTenant(hint, site).Resolved? && route.Some? }
    function ToJob(): Job
      requires Routable()
    {
      Job(route.value, id, ResolveTenant(hint, site).client)
    }
  }

  /** The event is that client's: signed with its secret and named by no other site, or, if no client is
      known to have signed it, sent from its site. */
  ghost predicate Belongs(event: Event, client: string) {
    || (event.hint == Some(client) && (event.site == None || event.site == Some(client)))
    || (event.hint == None && event.site == Some(client))
  }

  /** Which events become a job, which job, and whose. */
  lemma RoutableMeans(event: Event)
    ensures event.Routable() <==> event.route != None && exists client :: Belongs(event, client)
    ensures event.Routable() ==>
              && Some(event.ToJob().name) == event.route && event.ToJob().event == event.id
              && Belongs(event, event.ToJob().client)
    ensures forall b, c :: Belongs(event, b) && Belongs(event, c) ==> b == c
  {
    if event.Routable() { assert Belongs(event, event.ToJob().client); }
  }

  // --- Steps ---

  datatype Pc = Arrived | Checked | Marked | AddFailed

  datatype Delivery = Delivery(event: Event, pc: Pc) {
    predicate PastMark() { pc.Marked? || pc.AddFailed? }
  }

  /** `created` and `pruned` count the jobs the queue ever took in and ever forgot; `lost` are the
      events a delivery left marked when it died or could not unmark, `dropped` those a delivery
      marked and then had no client or no job for. */
  datatype State = State(
    marks: set<string>, queue: map<string, Job>, flying: map<nat, Delivery>,
    created: multiset<string>, pruned: multiset<string>, lost: set<string>, dropped: set<string>)
  {
    function Gone(d: nat): State { this.(flying := flying - {d}) }
    function At(d: nat, pc: Pc): State
      requires d in flying
    {
      this.(flying := flying[d := flying[d].(pc := pc)])
    }

    /** A job id the queue still knows is not taken in twice. */
    function Queued(job: Job): State {
      if job.Id() in queue then this
      else this.(queue := queue[job.Id() := job], created := created + multiset{job.Id()})
    }

    ghost predicate EverQueued(event: string) {
      exists name :: JobId(name, event) in created
    }

    ghost predicate Underway(event: string) {
      exists d :: d in flying && flying[d].event.id == event && flying[d].PastMark()
    }
  }

  const START := State({}, map[], map[], multiset{}, multiset{}, {}, {})

  datatype Step =
    | Deliver(d: nat, event: Event)
    | Check(d: nat)
    | Mark(d: nat, answer: Answer)
    | Drop(d: nat)
    | Add(d: nat, answer: Answer)
    | Unmark(d: nat, answer: Answer)
    | Crash(d: nat)
    | Prune(id: string)

  predicate Legal(s: State, step: Step) {
    match step
    case Deliver(d, _) => d !in s.flying
    case Check(d) => d in s.flying && s.flying[d].pc.Arrived?
    case Mark(d, _) => d in s.flying && s.flying[d].pc.Checked?
    case Drop(d) => d in s.flying && s.flying[d].pc.Marked? && !s.flying[d].event.Routable()
    case Add(d, _) => d in s.flying && s.flying[d].pc.Marked? && s.flying[d].event.Routable()
    case Unmark(d, _) => d in s.flying && s.flying[d].pc.AddFailed?
    case Crash(d) => d in s.flying
    case Prune(id) => id in s.queue
  }

  function Apply(s: State, step: Step): State
    requires Legal(s, step)
  {
    match step
    case Deliver(d, event) => s.(flying := s.flying[d := Delivery(event, Arrived)])
    case Check(d) =>
      var e := s.flying[d].event;
      if !e.wellFormed || e.id in s.marks then s.Gone(d) else s.At(d, Checked)
    case Mark(d, answer) =>
      var id := s.flying[d].event.id;
      (match answer
       case Ok => s.At(d, Marked).(marks := s.marks + {id})
       case Refused => s.Gone(d)
       case TimedOut => s.Gone(d).(marks := s.marks + {id}, lost := s.lost + {id}))
    case Drop(d) => s.Gone(d).(dropped := s.dropped + {s.flying[d].event.id})
    case Add(d, answer) =>
      var job := s.flying[d].event.ToJob();
      (match answer
       case Ok => s.Gone(d).Queued(job)
       case Refused => s.At(d, AddFailed)
       case TimedOut => s.At(d, AddFailed).Queued(job))
    case Unmark(d, answer) =>
      var id := s.flying[d].event.id;
      if answer.Refused? then s.Gone(d).(lost := s.lost + {id})
      else s.Gone(d).(marks := s.marks - {id}, lost := s.lost - {id}, dropped := s.dropped - {id})
    case Crash(d) =>
      if s.flying[d].PastMark() then s.Gone(d).(lost := s.lost + {s.flying[d].event.id}) else s.Gone(d)
    case Prune(id) => s.(queue := s.queue - {id}, pruned := s.pruned + multiset{id})
  }

  /** What the queue forgets it would take in again; nothing else is gone. */
  lemma PruneMeans(s: State, id: string)
    requires id in s.queue
    ensures Legal(s, Prune(id))
    ensures var t := Apply(s, Prune(id));
            && (forall o :: o in t.queue <==> o in s.queue && o != id)
            && (forall o :: o in t.queue ==> t.queue[o] == s.queue[o])
            && t == s.(queue := t.queue, pruned := t.pruned) && t.pruned[id] == s.pruned[id] + 1
  {
  }

  ghost predicate LegalFrom(s: State, steps: seq<Step>)
    decreases |steps|
  {
    steps == [] || (Legal(s, steps[0]) && LegalFrom(Apply(s, steps[0]), steps[1..]))
  }

  ghost function RunFrom(s: State, steps: seq<Step>): State
    requires LegalFrom(s, steps)
    decreases |steps|
  {
    if steps == [] then s else RunFrom(Apply(s, steps[0]), steps[1..])
  }

  // --- What every step keeps ---

  ghost predicate Accounted(s: State, event: string) {
    s.EverQueued(event) || s.Underway(event) || event in s.lost || event in s.dropped
  }

  ghost predicate Counted(s: State, id: string) {
    s.created[id] == s.pruned[id] + (if id in s.queue then 1 else 0)
  }

  ghost predicate Inv(s: State) {
    && (forall e :: e in s.marks ==> Accounted(s, e))
    && (forall id :: Counted(s, id))
    && (forall id :: id in s.queue ==> s.queue[id].Id() == id)
  }

  lemma QueuedIsCreated(s: State, job: Job)
    requires Counted(s, job.Id())
    ensures job.Id() in s.Queued(job).created
  {
  }

  lemma StaysQueued(s: State, step: Step, e: string)
    requires Legal(s, step) && s.EverQueued(e)
    ensures Apply(s, step).EverQueued(e)
  {
    var name :| JobId(name, e) in s.created;
    assert JobId(name, e) in Apply(s, step).created;
  }

  lemma AddedIsQueued(s: State, d: nat, answer: Answer)
    requires Legal(s, Add(d, answer)) && Counted(s, s.flying[d].event.ToJob().Id()) && !answer.Refused?
    ensures Apply(s, Add(d, answer)).EverQueued(s.flying[d].event.id)
  {
    var event := s.flying[d].event;
    QueuedIsCreated(s, event.ToJob());
    assert JobId(event.route.value, event.id) in Apply(s, Add(d, answer)).created;
  }

  lemma StaysUnderway(s: State, step: Step, e: string)
    requires Legal(s, step) && s.Underway(e) && e in Apply(s, step).marks
    requires step.Add? ==> Counted(s, s.flying[step.d].event.ToJob().Id())
    ensures Accounted(Apply(s, step), e)
  {
    var s' := Apply(s, step);
    var d :| d in s.flying && s.flying[d].event.id == e && s.flying[d].PastMark();
    if d in s'.flying {
      assert s'.flying[d].PastMark();
      assert s'.Underway(e);
    } else if step.Add? {
      AddedIsQueued(s, d, step.answer);
    }
  }

  lemma MarkIsAccounted(s: State, step: Step)
    requires Legal(s, step) && step.Mark? && !step.answer.Refused?
    ensures Accounted(Apply(s, step), s.flying[step.d].event.id)
  {
    var s' := Apply(s, step);
    if step.answer.Ok? {
      assert s'.flying[step.d].PastMark();
      assert s'.Underway(s.flying[step.d].event.id);
    }
  }

  lemma StepKeepsAccounted(s: State, step: Step, e: string)
    requires Legal(s, step) && e in Apply(s, step).marks
    requires e in s.marks ==> Accounted(s, e)
    requires step.Add? ==> Counted(s, s.flying[step.d].event.ToJob().Id())
    ensures Accounted(Apply(s, step), e)
  {
    if step.Mark? && !step.answer.Refused? && s.flying[step.d].event.id == e {
      MarkIsAccounted(s, step);
    } else if s.EverQueued(e) {
      StaysQueued(s, step, e);
    } else if s.Underway(e) {
      StaysUnderway(s, step, e);
    } else {
      assert e in s.marks;
      assert e in Apply(s, step).lost || e in Apply(s, step).dropped;
    }
  }

  lemma StepKeepsCount(s: State, step: Step, id: string)
    requires Legal(s, step) && Counted(s, id)
    ensures Counted(Apply(s, step), id)
  {
  }

  lemma StepKeepsInv(s: State, step: Step)
    requires Inv(s) && Legal(s, step)
    ensures Inv(Apply(s, step))
  {
    forall e | e in Apply(s, step).marks ensures Accounted(Apply(s, step), e) {
      StepKeepsAccounted(s, step, e);
    }
    forall id ensures Counted(Apply(s, step), id) {
      StepKeepsCount(s, step, id);
    }
  }

  lemma {:induction false} RunKeepsInv(s: State, steps: seq<Step>)
    requires Inv(s) && LegalFrom(s, steps)
    ensures Inv(RunFrom(s, steps))
    decreases |steps|
  {
    if steps != [] {
      StepKeepsInv(s, steps[0]);
      RunKeepsInv(Apply(s, steps[0]), steps[1..]);
    }
  }

  // --- Main results ---

  /** In any interleaving, an event marked processed has been queued or has a delivery past its mark,
      unless a delivery of it died there, could not unmark, or turned out to have nowhere to go. */
  lemma MarkedIsQueuedOrUnderway(steps: seq<Step>, e: string)
    requires LegalFrom(START, steps) && e in RunFrom(START, steps).marks
    requires e !in RunFrom(START, steps).lost && e !in RunFrom(START, steps).dropped
    ensures RunFrom(START, steps).EverQueued(e) || RunFrom(START, steps).Underway(e)
  {
    RunKeepsInv(START, steps);
    assert Accounted(RunFrom(START, steps), e);
  }

  /** `e` is never left behind: the run has no crash past the mark of `e`, no failed unmark of it, no
      mark that took effect and still threw, and no delivery of it without a client or a job. */
  ghost predicate Undisturbed(s: State, steps: seq<Step>, e: string)
    requires LegalFrom(s, steps)
    decreases |steps|
  {
    steps == [] || (Smooth(s, steps[0], e) && Undisturbed(Apply(s, steps[0]), steps[1..], e))
  }

  ghost predicate Smooth(s: State, step: Step, e: string)
    requires Legal(s, step)
  {
    match step
    case Crash(d) => s.flying[d].event.id == e ==> !s.flying[d].PastMark()
    case Unmark(d, answer) => s.flying[d].event.id == e ==> !answer.Refused?
    case Mark(d, answer) => s.flying[d].event.id == e ==> !answer.TimedOut?
    case Drop(d) => s.flying[d].event.id != e
    case _ => true
  }

  lemma {:induction false} UndisturbedIsNotLost(s: State, steps: seq<Step>, e: string)
    requires LegalFrom(s, steps) && Undisturbed(s, steps, e)
    requires e !in s.lost && e !in s.dropped
    ensures e !in RunFrom(s, steps).lost && e !in RunFrom(s, steps).dropped
    decreases |steps|
  {
    if steps != [] { UndisturbedIsNotLost(Apply(s, steps[0]), steps[1..], e); }
  }

  /** Once every delivery of an event has failed to queue it and taken its mark off, the next one is
      not turned away as a duplicate, and with both stores up it becomes a job. */
  lemma NextDeliveryGetsThrough(steps: seq<Step>, d: nat, event: Event)
    requires LegalFrom(START, steps) && Undisturbed(START, steps, event.id)
    requires !RunFrom(START, steps).EverQueued(event.id) && !RunFrom(START, steps).Underway(event.id)
    requires d !in RunFrom(START, steps).flying && event.wellFormed && event.Routable()
    ensures var s := RunFrom(START, steps);
            var next := [Deliver(d, event), Check(d), Mark(d, Ok), Add(d, Ok)];
            && event.id !in s.marks
            && LegalFrom(s, next)
            && RunFrom(s, next).queue == s.queue[event.ToJob().Id() := event.ToJob()]
            && event.id in RunFrom(s, next).marks
  {
    var s := RunFrom(START, steps);
    RunKeepsInv(START, steps);
    UndisturbedIsNotLost(START, steps, event.id);
    assert event.id in s.marks ==> Accounted(s, event.id);
    assert event.ToJob().Id() == JobId(event.route.value, event.id);
    assert Counted(s, event.ToJob().Id());
    var s1 := Apply(s, Deliver(d, event));
    var s2 := Apply(s1, Check(d));
    var s3 := Apply(s2, Mark(d, Ok));
    var s4 := Apply(s3, Add(d, Ok));
    RunOf4(s, Deliver(d, event), Check(d), Mark(d, Ok), Add(d, Ok));
  }

  lemma RunOf4(s: State, a: Step, b: Step, c: Step, d: Step)
    requires Legal(s, a) && Legal(Apply(s, a), b) && Legal(Apply(Apply(s, a), b), c)
    requires Legal(Apply(Apply(Apply(s, a), b), c), d)
    ensures LegalFrom(s, [a, b, c, d])
    ensures RunFrom(s, [a, b, c, d]) == Apply(Apply(Apply(Apply(s, a), b), c), d)
  {
    assert [a, b, c, d][1..] == [b, c, d] && [b, c, d][1..] == [c, d] && [c, d][1..] == [d] && [d][1..] == [];
    var s3 := Apply(Apply(Apply(s, a), b), c);
    assert LegalFrom(Apply(s3, d), []) && LegalFrom(s3, [d]) && RunFrom(s3, [d]) == Apply(s3, d);
    assert LegalFrom(Apply(Apply(s, a), b), [c, d]) && LegalFrom(Apply(s, a), [b, c, d]);
    assert RunFrom(Apply(Apply(s, a), b), [c, d]) == Apply(s3, d);
    assert RunFrom(Apply(s, a), [b, c, d]) == Apply(s3, d);
  }

  /** At most one job per job id: the queue takes an id in again only after it has pruned it, and
      what it holds under an id is that very event's job. */
  lemma OneJobPerId(steps: seq<Step>, job: Job)
    requires LegalFrom(START, steps)
    ensures var s := RunFrom(START, steps);
            && s.created[job.Id()] <= s.pruned[job.Id()] + 1
            && (s.created[job.Id()] == s.pruned[job.Id()] + 1 <==> job.Id() in s.queue)
            && (job.Id() in s.queue ==> s.queue[job.Id()].name == job.name && s.queue[job.Id()].event == job.event)
  {
    RunKeepsInv(START, steps);
    var s := RunFrom(START, steps);
    assert Counted(s, job.Id());
    if job.Id() in s.queue { JobIdInjective(s.queue[job.Id()], job); }
  }

  /** Over every interleaving, whatever is queued is the job that some well-formed delivered event calls
      for, and for the client that event belongs to: nothing a client has signed or sent becomes another
      client's job. */
  lemma QueuedForItsOwner(steps: seq<Step>, id: string)
    requires LegalFrom(START, steps) && id in RunFrom(START, steps).queue
    ensures var job := RunFrom(START, steps).queue[id];
            exists event :: && Delivered(steps, event) && event.wellFormed && event.id == job.event
                            && event.route == Some(job.name) && Belongs(event, job.client)
  {
    RunTraces(START, steps);
    var job := RunFrom(START, steps).queue[id];
    assert Calls(steps, job);
    var event :| Delivered(steps, event) && event.wellFormed && event.Routable() && event.ToJob() == job;
    RoutableMeans(event);
  }

  ghost predicate Delivered(steps: seq<Step>, event: Event) {
    exists i :: 0 <= i < |steps| && steps[i].Deliver? && steps[i].event == event
  }

  ghost predicate Calls(steps: seq<Step>, job: Job) {
    exists event :: Delivered(steps, event) && event.wellFormed && event.Routable() && event.ToJob() == job
  }

  ghost predicate TracedDelivery(steps: seq<Step>, d: Delivery) {
    Delivered(steps, d.event) && (!d.pc.Arrived? ==> d.event.wellFormed)
  }

  /** Every delivery under way and every job goes back to a delivered event. */
  ghost predicate Traced(steps: seq<Step>, s: State) {
    && (forall d :: d in s.flying ==> TracedDelivery(steps, s.flying[d]))
    && (forall id :: id in s.queue ==> Calls(steps, s.queue[id]))
  }

  lemma StaysDelivered(steps: seq<Step>, step: Step, event: Event)
    requires Delivered(steps, event) || (step.Deliver? && step.event == event)
    ensures Delivered(steps + [step], event)
  {
    var all := steps + [step];
    if i :| 0 <= i < |steps| && steps[i].Deliver? && steps[i].event == event {
      assert all[i] == steps[i];
    } else {
      assert all[|steps|] == step;
    }
  }

  lemma StaysCalled(steps: seq<Step>, step: Step, job: Job)
    requires Calls(steps, job)
    ensures Calls(steps + [step], job)
  {
    var event :| Delivered(steps, event) && event.wellFormed && event.Routable() && event.ToJob() == job;
    StaysDelivered(steps, step, event);
  }

  lemma TraceStep(steps: seq<Step>, s: State, step: Step)
    requires Traced(steps, s) && Legal(s, step)
    ensures Traced(steps + [step], Apply(s, step))
  {
    forall d | d in Apply(s, step).flying ensures TracedDelivery(steps + [step], Apply(s, step).flying[d]) {
      FlightStep(steps, s, step, d);
    }
    forall id | id in Apply(s, step).queue ensures Calls(steps + [step], Apply(s, step).queue[id]) {
      QueueStep(steps, s, step, id);
    }
  }

  lemma FlightStep(steps: seq<Step>, s: State, step: Step, d: nat)
    requires Traced(steps, s) && Legal(s, step) && d in Apply(s, step).flying
    ensures TracedDelivery(steps + [step], Apply(s, step).flying[d])
  {
    var t := Apply(s, step);
    if d in s.flying { assert TracedDelivery(steps, s.flying[d]); }
    StaysDelivered(steps, step, t.flying[d].event);
  }

  lemma QueueStep(steps: seq<Step>, s: State, step: Step, id: string)
    requires Traced(steps, s) && Legal(s, step) && id in Apply(s, step).queue
    ensures Calls(steps + [step], Apply(s, step).queue[id])
  {
    if id in s.queue && Apply(s, step).queue[id] == s.queue[id] {
      StaysCalled(steps, step, s.queue[id]);
    } else {
      assert step.Add?;
      var event := s.flying[step.d].event;
      StaysDelivered(steps, step, event);
      assert Calls(steps + [step], event.ToJob());
    }
  }

  /** A run without its last step. */
  lemma {:induction false} RunLast(s: State, steps: seq<Step>)
    requires LegalFrom(s, steps) && steps != []
    ensures var n := |steps| - 1;
            && LegalFrom(s, steps[..n]) && Legal(RunFrom(s, steps[..n]), steps[n])
            && RunFrom(s, steps) == Apply(RunFrom(s, steps[..n]), steps[n])
    decreases |steps|
  {
    var n := |steps| - 1;
    if n == 0 {
      assert steps[..n] == [] && steps[1..] == [];
      assert RunFrom(Apply(s, steps[0]), steps[1..]) == Apply(s, steps[0]);
    } else {
      RunLast(Apply(s, steps[0]), steps[1..]);
      assert steps[1..][..n - 1] == steps[..n][1..] && steps[..n][0] == steps[0];
    }
  }

  lemma {:induction false} RunTraces(s: State, steps: seq<Step>)
    requires LegalFrom(s, steps) && s.flying == map[] && s.queue == map[]
    ensures Traced(steps, RunFrom(s, steps))
    decreases |steps|
  {
    if steps != [] {
      var n := |steps| - 1;
      RunLast(s, steps);
      RunTraces(s, steps[..n]);
      TraceStep(steps[..n], RunFrom(s, steps[..n]), steps[n]);
      assert steps[..n] + [steps[n]] == steps;
    }
  }

  /** A marked event lets no new delivery through: it is checked and gone, and nothing else has changed. */
  lemma MarkedTurnsAway(s: State, d: nat, event: Event)
    requires event.id in s.marks && d !in s.flying
    ensures LegalFrom(s, [Deliver(d, event), Check(d)]) && RunFrom(s, [Deliver(d, event), Check(d)]) == s
  {
    var s1 := Apply(s, Deliver(d, event));
    assert s1.flying - {d} == s.flying;
    assert [Deliver(d, event), Check(d)][1..] == [Check(d)] && [Check(d)][1..] == [];
    var s2 := Apply(s1, Check(d));
    var last := [Check(d)];
    assert last[0] == Check(d) && last[1..] == [];
    assert RunFrom(s2, []) == s2 && LegalFrom(s2, []);
    assert RunFrom(s1, last) == RunFrom(s2, last[1..]);
  }

  // --- Where it does not hold ---

  /** The event is lost: nothing of it is queued or on its way, and every redelivery is turned away. */
  ghost predicate Lost(s: State, event: Event) {
    && !s.EverQueued(event.id) && !s.Underway(event.id)
    && forall d :: d !in s.flying ==>
         LegalFrom(s, [Deliver(d, event), Check(d)]) && RunFrom(s, [Deliver(d, event), Check(d)]) == s
  }

  lemma MarkedIsLost(s: State, event: Event)
    requires event.id in s.marks && !s.EverQueued(event.id) && s.flying == map[]
    ensures Lost(s, event)
  {
    forall d: nat | d !in s.flying
      ensures LegalFrom(s, [Deliver(d, event), Check(d)]) && RunFrom(s, [Deliver(d, event), Check(d)]) == s
    {
      MarkedTurnsAway(s, d, event);
    }
  }

  /** A crash between mark and queue loses the event: no job, and its retry is a duplicate. */
  lemma CrashAfterMarkLosesTheEvent(event: Event)
    requires event.wellFormed
    ensures exists steps :: LegalFrom(START, steps) && Lost(RunFrom(START, steps), event)
  {
    var steps := [Deliver(0, event), Check(0), Mark(0, Ok), Crash(0)];
    RunOf4(START, steps[0], steps[1], steps[2], steps[3]);
    assert RunFrom(START, steps).flying == map[];
    MarkedIsLost(RunFrom(START, steps), event);
  }

  /** So does a delivery that names no known client: the mark is set first and stays. A later delivery
      under the same id is turned away even if its client has become known. */
  lemma UnknownClientStaysMarked(event: Event, again: Event)
    requires event.wellFormed && !event.Routable() && again.id == event.id
    ensures exists steps :: LegalFrom(START, steps) && Lost(RunFrom(START, steps), again)
  {
    var steps := [Deliver(0, event), Check(0), Mark(0, Ok), Drop(0)];
    RunOf4(START, steps[0], steps[1], steps[2], steps[3]);
    assert RunFrom(START, steps).flying == map[];
    MarkedIsLost(RunFrom(START, steps), again);
  }

  // --- One delivery at a time ---

  datatype Outcome = Rejected | Duplicate | NowhereToGo | Enqueued | Threw

  class Ingress {
    var state: State

    constructor ()
      ensures state == START && Inv(state)
    {
      state := START;
    }

    method Take(step: Step)
      requires Legal(state, step)
      modifies this
      ensures state == Apply(old(state), step)
      ensures old(Inv(state)) ==> Inv(state)
    {
      if Inv(state) { StepKeepsInv(state, step); }
      state := Apply(state, step);
    }

    /** enqueueOrUnmark. */
    method EnqueueOrUnmark(d: nat, add: Answer, unmark: Answer) returns (queued: bool)
      requires d in state.flying && state.flying[d].pc.Marked? && state.flying[d].event.Routable()
      modifies this
      ensures queued == add.Ok?
      ensures var s, e := old(state), old(state.flying[d].event);
              && state.queue == (if add.Refused? then s else s.Queued(e.ToJob())).queue
              && state.marks == (if add.Ok? || unmark.Refused? then s.marks else s.marks - {e.id})
              && state.flying == s.flying - {d}
      ensures old(Inv(state)) ==> Inv(state)
    {
      Take(Add(d, add));
      if add.Ok? { return true; }
      Take(Unmark(d, unmark));
      return false;
    }

    /** Up to the mark: `known` if the event was already marked, `through` if it is this delivery's
        to route. */
    method Register(d: nat, event: Event, mark: Answer) returns (known: bool, through: bool)
      requires d !in state.flying
      modifies this
      ensures known == (event.wellFormed && event.id in old(state.marks))
      ensures through == (event.wellFormed && !known && mark.Ok?)
      ensures state.queue == old(state.queue)
      ensures state.marks == old(state.marks) + if event.wellFormed && !known && !mark.Refused? then {event.id} else {}
      ensures state.flying == if through then old(state.flying)[d := Delivery(event, Marked)] else old(state.flying)
      ensures old(Inv(state)) ==> Inv(state)
    {
      ghost var before := state.flying;
      Take(Deliver(d, event));
      assert state.flying - {d} == before;
      known := event.wellFormed && event.id in state.marks;
      Take(Check(d));
      if !event.wellFormed || known { return known, false; }
      Take(Mark(d, mark));
      assert state.flying - {d} == before;
      return known, mark.Ok?;
    }

    /** A delivery nobody races with. A refused queue with a working unmark leaves no trace of it. */
    method ProcessIncoming(d: nat, event: Event, mark: Answer, add: Answer, unmark: Answer) returns (out: Outcome)
      requires d !in state.flying
      modifies this
      ensures old(Inv(state)) ==> Inv(state)
      ensures state.flying == old(state.flying)
      ensures out ==
                if !event.wellFormed then Rejected
                else if event.id in old(state.marks) then Duplicate
                else if !mark.Ok? then Threw
                else if !event.Routable() then NowhereToGo
                else if add.Ok? then Enqueued else Threw
      ensures state.marks == old(state.marks) +
                (if out.Enqueued? || out.NowhereToGo?
                    || (out.Threw? && (mark.TimedOut? || (mark.Ok? && unmark.Refused?)))
                 then {event.id} else {})
      ensures state.queue ==
                if out.Enqueued? || (out.Threw? && mark.Ok? && add.TimedOut?)
                then old(state).Queued(event.ToJob()).queue else old(state.queue)
    {
      ghost var before := state.flying;
      assert before[d := Delivery(event, Marked)] - {d} == before;
      var known, through := Register(d, event, mark);
      if !through { return if !event.wellFormed then Rejected else if known then Duplicate else Threw; }
      if !event.Routable() {
        Take(Drop(d));
        return NowhereToGo;
      }
      var queued := EnqueueOrUnmark(d, add, unmark);
      return if queued then Enqueued else Threw;
    }
  }
}
