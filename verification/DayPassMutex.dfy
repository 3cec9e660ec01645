/** The day-pass claim: how the echoes of one paid order, run side by side, come to one door code.
    All jobs here carry the same member and claim key; what they race for are the rows, one per door
    group, that the unique index lets only one of them insert. */
module DayPassMutex {
  import opened Prelude

  datatype Mapping = Mapping(id: string, group: string)

  /** A row and the job whose insert made it: claimed, or settled with its link. */
  datatype Row = Claimed(claimer: nat) | Active(claimer: nat, link: nat)

  datatype Phase = Claiming | Creating | Releasing | Settling

  /** `todo` is what its loop has left, `won` the claims it made, `made` the links it knows of.
      `held` are the groups it still answers for: while it claims and creates those it won, while it
      releases those it gives back and those it has a link for, while it settles the latter. */
  datatype Job = Job(phase: Phase, todo: seq<Mapping>, won: seq<Mapping>, held: set<string>, made: map<string, nat>)

  /** The door system: its links by group, and how many creations on a group the caller learnt of
      (`confirmed`) and how many took effect and still failed for it (`ambiguous`). */
  datatype Doors = Doors(links: map<nat, string>, next: nat, confirmed: multiset<string>, ambiguous: multiset<string>) {
    function Create(group: string, answer: Answer): Doors {
      match answer
      case Ok => Doors(links[next := group], next + 1, confirmed + multiset{group}, ambiguous)
      case Refused => this
      case TimedOut => Doors(links[next := group], next + 1, confirmed, ambiguous + multiset{group})
    }

    ghost function LinksOf(group: string): set<nat> {
      set l | l in links && links[l] == group
    }

    ghost predicate Valid() { forall l :: l in links ==> l < next }
  }

  datatype State = State(rows: map<string, Row>, jobs: map<nat, Job>, nextJob: nat, doors: Doors)

  const START := State(map[], map[], 0, Doors(map[], 0, multiset{}, multiset{}))

  function Groups(ms: seq<Mapping>): set<string> { set m | m in ms :: m.group }

  /** The claims to give back: those of mappings none of whose doors got a link. */
  function FailedClaims(won: seq<Mapping>, made: map<string, nat>): set<string> {
    set m | m in won && !HasLink(won, made, m.id) :: m.group
  }

  predicate HasLink(won: seq<Mapping>, made: map<string, nat>, id: string) {
    exists o :: o in won && o.group in made && o.id == id
  }

  datatype Step =
    | Start(ms: seq<Mapping>)
    | ClaimOne(j: nat, answer: Answer)
    | ClaimsDone(j: nat)
    | CreateOne(j: nat, answer: Answer)
    | CreatesDone(j: nat)
    | Release(j: nat, answer: Answer)
    | Settle(j: nat, group: string, answer: Answer)
    | Crash(j: nat)
  {
    function Actor(s: State): nat { if Start? then s.nextJob else j }
  }

  predicate Legal(s: State, step: Step) {
    step.Start? ||
    (step.j in s.jobs &&
     var job := s.jobs[step.j];
     match step
     case Start(_) => true
     case ClaimOne(_, _) => job.phase.Claiming? && job.todo != []
     case ClaimsDone(_) => job.phase.Claiming? && job.todo == []
     case CreateOne(_, _) => job.phase.Creating? && job.todo != []
     case CreatesDone(_) => job.phase.Creating? && job.todo == []
     case Release(_, _) => job.phase.Releasing?
     case Settle(_, group, _) => job.phase.Settling? && group in job.made
     case Crash(_) => true)
  }

  /** The whole batch failed: everything claimed goes back. Part of it did: the failed claims go
      back, if any, and the links that were made are settled. */
  function AfterCreates(job: Job): Job {
    if job.made == map[] then job.(phase := Releasing, held := Groups(job.won))
    else if FailedClaims(job.won, job.made) == {} then job.(phase := Settling, held := job.made.Keys)
    else job.(phase := Releasing, held := FailedClaims(job.won, job.made) + job.made.Keys)
  }

  /** DELETE ... WHERE the group is listed AND status = 'pending_hardware'. */
  function Released(rows: map<string, Row>, groups: set<string>): map<string, Row> {
    map g | g in rows && !(g in groups && rows[g].Claimed?) :: rows[g]
  }

  function RowsAfter(s: State, step: Step): map<string, Row>
    requires Legal(s, step)
  {
    match step
    case ClaimOne(j, answer) =>
      // INSERT ... ON CONFLICT DO NOTHING; a mapping without a group is skipped
      var g := s.jobs[j].todo[0].group;
      if g == "" || g in s.rows || answer.Refused? then s.rows else s.rows[g := Claimed(j)]
    case Release(j, answer) =>
      if answer.Refused? then s.rows else Released(s.rows, s.jobs[j].held - s.jobs[j].made.Keys)
    case Settle(j, g, answer) =>
      // completeGrant's upsert, one row at a time
      if answer.Refused? then s.rows else s.rows[g := Active(j, s.jobs[j].made[g])]
    case _ => s.rows
  }

  function DoorsAfter(s: State, step: Step): Doors
    requires Legal(s, step)
  {
    if step.CreateOne? then s.doors.Create(s.jobs[step.j].todo[0].group, step.answer) else s.doors
  }

  function ClaimJob(job: Job, taken: bool, answer: Answer): Option<Job>
    requires job.todo != []
  {
    var m, next := job.todo[0], job.(todo := job.todo[1..]);
    if m.group == "" then Some(next)
    else if !answer.Ok? then None
    else if taken then Some(next)
    else Some(next.(won := job.won + [m], held := job.held + {m.group}))
  }

  /** The job after its step; None once it has returned, thrown or died. */
  function JobAfter(s: State, step: Step): Option<Job>
    requires Legal(s, step)
  {
    match step
    case Start(ms) => Some(Job(Claiming, ms, [], {}, map[]))
    case ClaimOne(j, answer) => ClaimJob(s.jobs[j], s.jobs[j].todo[0].group in s.rows, answer)
    case ClaimsDone(j) =>
      if s.jobs[j].won == [] then None else Some(s.jobs[j].(phase := Creating, todo := s.jobs[j].won))
    case CreateOne(j, answer) =>
      var job := s.jobs[j];
      Some(job.(todo := job.todo[1..],
                    made := if answer.Ok? then job.made[job.todo[0].group := s.doors.next] else job.made))
    case CreatesDone(j) => Some(AfterCreates(s.jobs[j]))
    case Release(j, _) =>
      // a release that fails is ignored; without any link the job then throws
      if s.jobs[j].made == map[] then None else Some(s.jobs[j].(phase := Settling, held := s.jobs[j].made.Keys))
    case Settle(j, g, answer) =>
      if !answer.Ok? || s.jobs[j].made.Keys == {g} then None
      else Some(s.jobs[j].(made := s.jobs[j].made - {g}, held := s.jobs[j].held - {g}))
    case Crash(_) => None
  }

  function Apply(s: State, step: Step): State
    requires Legal(s, step)
  {
    var job := JobAfter(s, step);
    State(RowsAfter(s, step),
          if job.Some? then s.jobs[step.Actor(s) := job.value] else s.jobs - {step.Actor(s)},
          if step.Start? then s.nextJob + 1 else s.nextJob,
          DoorsAfter(s, step))
  }

  // --- The steps in the words of the rows ---

  /** A claim is inserted exactly if the mapping has a door, no row is on it, and the call takes effect; the
      job holds it exactly if it also learns of that. A call that fails ends the job. */
  lemma ClaimMeans(s: State, j: nat, answer: Answer)
    requires Legal(s, ClaimOne(j, answer))
    ensures var m, t := s.jobs[j].todo[0], Apply(s, ClaimOne(j, answer));
            && t.doors == s.doors
            && t.rows == (if m.group != "" && m.group !in s.rows && answer != Refused
                          then s.rows[m.group := Claimed(j)] else s.rows)
            && (j in t.jobs <==> m.group == "" || answer == Ok)
            && (j in t.jobs ==>
                  && t.jobs[j].phase == Claiming && t.jobs[j].todo == s.jobs[j].todo[1..]
                  && t.jobs[j].won == s.jobs[j].won + if m.group != "" && m.group !in s.rows then [m] else [])
  {
  }

  /** A release that takes effect deletes exactly the claims it gives back, no active row; whatever becomes
      of it, a job without a link ends and one with links goes on to settle them. */
  lemma ReleaseMeans(s: State, j: nat, answer: Answer)
    requires Legal(s, Release(j, answer))
    ensures var job, t := s.jobs[j], Apply(s, Release(j, answer));
            && t.doors == s.doors
            && (forall g :: g in t.rows ==> g in s.rows && t.rows[g] == s.rows[g])
            && (forall g :: g in s.rows ==> (g !in t.rows <==>
                  answer != Refused && g in job.held && g !in job.made && exists o :: s.rows[g] == Claimed(o)))
            && (j in t.jobs <==> job.made != map[])
            && (j in t.jobs ==> t.jobs[j].phase == Settling && t.jobs[j].made == job.made)
  {
  }

  /** A settlement that takes effect makes the row active with the link; the job ends with the last of them
      or with the first that fails. */
  lemma SettleMeans(s: State, j: nat, g: string, answer: Answer)
    requires Legal(s, Settle(j, g, answer))
    ensures var job, t := s.jobs[j], Apply(s, Settle(j, g, answer));
            && t.doors == s.doors
            && t.rows == (if answer == Refused then s.rows else s.rows[g := Active(j, job.made[g])])
            && (j in t.jobs <==> answer == Ok && exists o :: o in job.made && o != g)
            && (j in t.jobs ==> t.jobs[j].made == job.made - {g})
  {
    assert (forall o :: o in s.jobs[j].made ==> o == g) ==> s.jobs[j].made.Keys == {g};
  }

  ghost predicate LegalFrom(s: State, steps: seq<Step>)
    decreases |steps|
  {
    steps == [] || (Legal(s, steps[0]) && LegalFrom(Apply(s, steps[0]), steps[1..]))
  }

  ghost function RunFrom(s: State, steps: seq<Step>): State
    requires LegalFrom(s, steps)
    decreases |steps|
  {
    if steps == [] then s else RunFrom(Apply(s, steps[0]), steps[1..])
  }

  // --- One job ---

  ghost predicate DistinctGroups(ms: seq<Mapping>) {
    forall i, k :: 0 <= i < k < |ms| ==> ms[i].group != ms[k].group
  }

  ghost predicate Shaped(job: Job) {
    match job.phase
    case Claiming => DistinctGroups(job.won) && job.held == Groups(job.won) && job.made == map[]
    case Creating =>
      && DistinctGroups(job.todo) && DistinctGroups(job.won) && job.held == Groups(job.won)
      && Groups(job.todo) + job.made.Keys <= job.held && job.made.Keys !! Groups(job.todo)
    case Releasing => job.made.Keys <= job.held
    case Settling => job.held == job.made.Keys
  }

  /** Each group a live job answers for has a row, a claim this job inserted, and each link it knows
      of is on its door. */
  ghost predicate Faithful(rows: map<string, Row>, doors: Doors, j: nat, job: Job) {
    && Shaped(job)
    && (forall g :: g in job.held ==> g in rows && rows[g] == Claimed(j))
    && (forall g :: g in job.made ==> job.made[g] in doors.links && doors.links[job.made[g]] == g)
  }

  lemma FailedClaimsIff(won: seq<Mapping>, made: map<string, nat>, m: Mapping)
    requires DistinctGroups(won) && m in won
    ensures m.group in FailedClaims(won, made) <==> !HasLink(won, made, m.id)
  {
    forall o | o in won && o.group == m.group ensures o == m {}
  }

  lemma FailedClaimsSpareMade(won: seq<Mapping>, made: map<string, nat>)
    ensures FailedClaims(won, made) !! made.Keys && FailedClaims(won, made) <= Groups(won)
  {
  }

  lemma ClaimShape(job: Job, m: Mapping)
    requires Shaped(job) && job.phase.Claiming? && m.group !in job.held
    ensures Shaped(job.(won := job.won + [m], held := job.held + {m.group}))
  {
    assert forall i :: 0 <= i < |job.won| ==> job.won[i] in job.won && job.won[i].group in Groups(job.won);
    assert Groups(job.won + [m]) == Groups(job.won) + {m.group};
  }

  lemma CreateShape(job: Job, link: nat)
    requires Shaped(job) && job.phase.Creating? && job.todo != []
    ensures var g := job.todo[0].group;
            && g in job.held && g !in job.made
            && Shaped(job.(todo := job.todo[1..]))
            && Shaped(job.(todo := job.todo[1..], made := job.made[g := link]))
  {
    var todo := job.todo;
    assert todo[0] in todo;
    assert Groups(todo) == {todo[0].group} + Groups(todo[1..]);
    forall m | m in todo[1..] ensures m.group != todo[0].group {
      var i :| 0 <= i < |todo[1..]| && todo[1..][i] == m;
      assert todo[i + 1] == m;
    }
  }

  lemma ClaimsDoneShape(job: Job)
    requires Shaped(job) && job.phase.Claiming?
    ensures Shaped(job.(phase := Creating, todo := job.won))
  {
  }

  lemma AfterCreatesShape(job: Job)
    requires Shaped(job) && job.phase.Creating?
    ensures Shaped(AfterCreates(job)) && AfterCreates(job).made == job.made && AfterCreates(job).held <= job.held
  {
    FailedClaimsSpareMade(job.won, job.made);
  }

  lemma AfterCreatesGivesBack(job: Job, m: Mapping)
    requires Shaped(job) && job.phase.Creating? && m in job.won
    ensures m.group in AfterCreates(job).held - job.made.Keys <==> !HasLink(job.won, job.made, m.id)
    ensures m.group in job.made ==> HasLink(job.won, job.made, m.id)
  {
    FailedClaimsIff(job.won, job.made, m);
    assert m.group in Groups(job.won);
    if m.group in job.made { assert HasLink(job.won, job.made, m.id); }
  }

  lemma ActorStaysShaped(s: State, step: Step)
    requires Legal(s, step) && JobAfter(s, step).Some?
    requires !step.Start? ==> Faithful(s.rows, s.doors, step.j, s.jobs[step.j])
    ensures Shaped(JobAfter(s, step).value)
    ensures step.CreatesDone? ==> JobAfter(s, step).value.held <= s.jobs[step.j].held
  {
    match step
    case Start(_) =>
    case ClaimOne(j, _) =>
      var job := s.jobs[j];
      if job.todo[0].group !in s.rows { ClaimShape(job.(todo := job.todo[1..]), job.todo[0]); }
    case ClaimsDone(j) => ClaimsDoneShape(s.jobs[j]);
    case CreateOne(j, _) => CreateShape(s.jobs[j], s.doors.next);
    case CreatesDone(j) => AfterCreatesShape(s.jobs[j]);
    case Release(j, _) =>
    case _ =>
  }

  lemma ActorKeepsRows(s: State, step: Step, g: string)
    requires Legal(s, step) && JobAfter(s, step).Some? && g in JobAfter(s, step).value.held
    requires !step.Start? ==> Faithful(s.rows, s.doors, step.j, s.jobs[step.j])
    ensures g in RowsAfter(s, step) && RowsAfter(s, step)[g] == Claimed(step.Actor(s))
  {
    ActorStaysShaped(s, step);
  }

  lemma ActorKnowsLinks(s: State, step: Step, g: string)
    requires Legal(s, step) && s.doors.Valid() && JobAfter(s, step).Some? && g in JobAfter(s, step).value.made
    requires !step.Start? ==> Faithful(s.rows, s.doors, step.j, s.jobs[step.j])
    ensures JobAfter(s, step).value.made[g] in DoorsAfter(s, step).links
    ensures DoorsAfter(s, step).links[JobAfter(s, step).value.made[g]] == g
  {
  }

  lemma ActorStaysFaithful(s: State, step: Step)
    requires Legal(s, step) && s.doors.Valid() && JobAfter(s, step).Some?
    requires !step.Start? ==> Faithful(s.rows, s.doors, step.j, s.jobs[step.j])
    ensures Faithful(RowsAfter(s, step), DoorsAfter(s, step), step.Actor(s), JobAfter(s, step).value)
  {
    var job := JobAfter(s, step).value;
    ActorStaysShaped(s, step);
    forall g | g in job.held ensures g in RowsAfter(s, step) && RowsAfter(s, step)[g] == Claimed(step.Actor(s)) {
      ActorKeepsRows(s, step, g);
    }
    forall g | g in job.made ensures job.made[g] in DoorsAfter(s, step).links
        && DoorsAfter(s, step).links[job.made[g]] == g {
      ActorKnowsLinks(s, step, g);
    }
  }

  /** A row the acting job does not answer for stays as it is. */
  lemma OtherRowsStay(s: State, step: Step, g: string)
    requires Legal(s, step) && g in s.rows
    requires !step.Start? ==> Faithful(s.rows, s.doors, step.j, s.jobs[step.j]) && g !in s.jobs[step.j].held
    ensures g in RowsAfter(s, step) && RowsAfter(s, step)[g] == s.rows[g]
  {
  }

  // --- The invariant ---

  /** Nobody may create a link on `g` again, nor give its row back. */
  ghost predicate Sealed(s: State, g: string) {
    && g in s.rows
    && forall j :: j in s.jobs && g in s.jobs[j].held ==> g in s.jobs[j].made
  }

  ghost predicate CountSound(s: State, g: string) {
    && |s.doors.LinksOf(g)| == s.doors.confirmed[g] + s.doors.ambiguous[g]
    && s.doors.confirmed[g] <= 1
    && (s.doors.confirmed[g] == 1 ==> Sealed(s, g))
  }

  ghost predicate RowSound(s: State, g: string)
    requires g in s.rows
  {
    && s.rows[g].claimer < s.nextJob
    && (s.rows[g].Active? ==>
          s.rows[g].link in s.doors.links && s.doors.links[s.rows[g].link] == g && s.doors.confirmed[g] == 1)
  }

  ghost predicate JobSound(s: State, j: nat)
    requires j in s.jobs
  {
    && j < s.nextJob && Faithful(s.rows, s.doors, j, s.jobs[j])
    && (forall g :: g in s.jobs[j].made ==> s.doors.confirmed[g] == 1)
  }

  ghost predicate Inv(s: State) {
    && s.doors.Valid()
    && (forall j :: j in s.jobs ==> JobSound(s, j))
    && (forall g :: g in s.rows ==> RowSound(s, g))
    && (forall g :: CountSound(s, g))
  }

  /** What Inv says of the job that takes a step. */
  ghost predicate ActorSound(s: State, step: Step)
    requires Legal(s, step)
  {
    s.doors.Valid() && (step.Start? || JobSound(s, step.j))
  }

  /** The acting job never gains a claim on a sealed group, nor sheds the link it has there. */
  lemma ActorStaysSealed(s: State, step: Step, g: string)
    requires Legal(s, step) && ActorSound(s, step) && Sealed(s, g)
    requires JobAfter(s, step).Some? && g in JobAfter(s, step).value.held
    ensures g in JobAfter(s, step).value.made
  {
    ActorStaysShaped(s, step);
  }

  lemma SealedRowStays(s: State, step: Step, g: string)
    requires Legal(s, step) && ActorSound(s, step) && Sealed(s, g)
    ensures g in RowsAfter(s, step)
  {
    if step.Start? || g !in s.jobs[step.j].held { OtherRowsStay(s, step, g); }
  }

  lemma StepKeepsSealed(s: State, step: Step, g: string)
    requires Legal(s, step) && ActorSound(s, step) && Sealed(s, g)
    ensures Sealed(Apply(s, step), g)
  {
    SealedRowStays(s, step, g);
    if JobAfter(s, step).Some? && g in JobAfter(s, step).value.held { ActorStaysSealed(s, step, g); }
  }

  lemma DoorsStay(d: Doors, g: string, answer: Answer)
    requires d.Valid()
    ensures d.Create(g, answer).Valid()
    ensures forall l :: l in d.links ==> l in d.Create(g, answer).links && d.Create(g, answer).links[l] == d.links[l]
    ensures d.Create(g, answer).LinksOf(g) == d.LinksOf(g) + if answer.Refused? then {} else {d.next}
    ensures forall h :: h != g ==> d.Create(g, answer).LinksOf(h) == d.LinksOf(h)
  {
  }

  /** A link is created only on a group without any link its creator learnt of. */
  lemma CreatesOnlyUnsealed(s: State, j: nat, answer: Answer)
    requires Legal(s, CreateOne(j, answer)) && JobSound(s, j)
    ensures !Sealed(s, s.jobs[j].todo[0].group) && s.jobs[j].todo[0].group in s.jobs[j].held
  {
    CreateShape(s.jobs[j], 0);
  }

  lemma CreateSeals(s: State, j: nat)
    requires Legal(s, CreateOne(j, Ok)) && Inv(s)
    ensures Sealed(Apply(s, CreateOne(j, Ok)), s.jobs[j].todo[0].group)
  {
    var g, s' := s.jobs[j].todo[0].group, Apply(s, CreateOne(j, Ok));
    assert JobSound(s, j);
    CreatesOnlyUnsealed(s, j, Ok);
    assert forall o :: o in s.jobs && JobSound(s, o) && g in s.jobs[o].held ==> s.rows[g] == Claimed(o);
    assert s.rows[g] == Claimed(j);
  }

  lemma CreateKeepsCount(s: State, j: nat, answer: Answer, g: string)
    requires Inv(s) && Legal(s, CreateOne(j, answer))
    ensures CountSound(Apply(s, CreateOne(j, answer)), g)
  {
    var h := s.jobs[j].todo[0].group;
    assert JobSound(s, j) && CountSound(s, h) && CountSound(s, g);
    CreatesOnlyUnsealed(s, j, answer);
    DoorsStay(s.doors, h, answer);
    if g == h {
      if answer.Ok? { CreateSeals(s, j); }
    } else if s.doors.confirmed[g] == 1 {
      StepKeepsSealed(s, CreateOne(j, answer), g);
    }
  }

  lemma StepKeepsCount(s: State, step: Step, g: string)
    requires Inv(s) && Legal(s, step)
    ensures CountSound(Apply(s, step), g)
  {
    if step.CreateOne? {
      CreateKeepsCount(s, step.j, step.answer, g);
    } else {
      assert CountSound(s, g);
      assert step.Start? || JobSound(s, step.j);
      if s.doors.confirmed[g] == 1 { StepKeepsSealed(s, step, g); }
    }
  }

  /** Confirmed once, confirmed for good. */
  lemma ConfirmedStays(s: State, step: Step, g: string)
    requires Inv(s) && Legal(s, step) && s.doors.confirmed[g] == 1
    ensures DoorsAfter(s, step).confirmed[g] == 1
  {
    StepKeepsCount(s, step, g);
  }

  lemma StepKeepsJob(s: State, step: Step, j: nat)
    requires Inv(s) && Legal(s, step) && j in Apply(s, step).jobs
    ensures JobSound(Apply(s, step), j)
  {
    var s' := Apply(s, step);
    assert step.Start? || JobSound(s, step.j);
    if step.CreateOne? { DoorsStay(s.doors, s.jobs[step.j].todo[0].group, step.answer); }
    if j == step.Actor(s) {
      ActorStaysFaithful(s, step);
    } else {
      assert JobSound(s, j);
      forall g | g in s.jobs[j].held ensures g in s'.rows && s'.rows[g] == Claimed(j) { OtherRowsStay(s, step, g); }
    }
    forall g | g in s'.jobs[j].made ensures s'.doors.confirmed[g] == 1 {
      if s.doors.confirmed[g] == 1 { ConfirmedStays(s, step, g); } else { NewlyMade(s, step, j, g); }
    }
  }

  lemma NewlyMade(s: State, step: Step, j: nat, g: string)
    requires Inv(s) && Legal(s, step) && j in Apply(s, step).jobs && g in Apply(s, step).jobs[j].made
    requires s.doors.confirmed[g] != 1
    ensures Apply(s, step).doors.confirmed[g] == 1
  {
    assert j in s.jobs ==> JobSound(s, j);
    assert step.CreateOne? && step.j == j;
    assert CountSound(s, g);
  }

  lemma StepKeepsRow(s: State, step: Step, g: string)
    requires Inv(s) && Legal(s, step) && g in Apply(s, step).rows
    ensures RowSound(Apply(s, step), g)
  {
    assert g in s.rows ==> RowSound(s, g);
    assert step.Start? || JobSound(s, step.j);
    if step.CreateOne? { DoorsStay(s.doors, s.jobs[step.j].todo[0].group, step.answer); }
    if Apply(s, step).rows[g].Active? { ConfirmedStays(s, step, g); }
  }

  lemma StepKeepsInv(s: State, step: Step)
    requires Inv(s) && Legal(s, step)
    ensures Inv(Apply(s, step))
  {
    var s' := Apply(s, step);
    if step.CreateOne? { DoorsStay(s.doors, s.jobs[step.j].todo[0].group, step.answer); }
    forall j | j in s'.jobs ensures JobSound(s', j) { StepKeepsJob(s, step, j); }
    forall g | g in s'.rows ensures RowSound(s', g) { StepKeepsRow(s, step, g); }
    forall g ensures CountSound(s', g) { StepKeepsCount(s, step, g); }
  }

  lemma {:induction false} RunKeepsInv(s: State, steps: seq<Step>)
    requires Inv(s) && LegalFrom(s, steps)
    ensures Inv(RunFrom(s, steps))
    decreases |steps|
  {
    if steps != [] {
      StepKeepsInv(s, steps[0]);
      RunKeepsInv(Apply(s, steps[0]), steps[1..]);
    }
  }

  lemma StartIsSound()
    ensures Inv(START)
  {
    forall g ensures CountSound(START, g) {
      assert START.doors.LinksOf(g) == {};
    }
  }

  // --- Main results ---

  /** However many echoes race, in whatever interleaving with failures, releases and crashes, a
      group gets at most one link that a job learnt of, and its other links are exactly those whose
      creation took effect and still failed for its caller. Without such failures it is one at most. */
  lemma AtMostOneLinkPerGroup(steps: seq<Step>, g: string)
    requires LegalFrom(START, steps)
    ensures var doors := RunFrom(START, steps).doors;
            && |doors.LinksOf(g)| == doors.confirmed[g] + doors.ambiguous[g]
            && doors.confirmed[g] <= 1
  {
    StartIsSound();
    RunKeepsInv(START, steps);
    assert CountSound(RunFrom(START, steps), g);
  }

  /** A release takes back only claims of its own job on groups no link is known for: never an active
      pass, never a claim of another job. */
  lemma ReleaseTakesOnlyItsOwn(steps: seq<Step>, j: nat, answer: Answer, g: string)
    requires LegalFrom(START, steps) && Legal(RunFrom(START, steps), Release(j, answer))
    requires g in RunFrom(START, steps).rows && g !in Apply(RunFrom(START, steps), Release(j, answer)).rows
    ensures RunFrom(START, steps).rows[g] == Claimed(j) && RunFrom(START, steps).doors.confirmed[g] == 0
  {
    var s := RunFrom(START, steps);
    StartIsSound();
    RunKeepsInv(START, steps);
    assert JobSound(s, j) && CountSound(s, g);
    assert g in s.jobs[j].held && g !in s.jobs[j].made;
  }

  /** An active pass names a live link to its own door, and nothing ever takes its row. */
  lemma {:induction false} ActiveStays(s: State, steps: seq<Step>, g: string)
    requires Inv(s) && LegalFrom(s, steps) && g in s.rows && s.rows[g].Active?
    ensures var t := RunFrom(s, steps);
            && g in t.rows && t.rows[g] == s.rows[g]
            && t.rows[g].link in t.doors.links && t.doors.links[t.rows[g].link] == g
    decreases |steps|
  {
    assert RowSound(s, g);
    if steps != [] {
      assert steps[0].Start? || JobSound(s, steps[0].j);
      OtherRowsStay(s, steps[0], g);
      StepKeepsInv(s, steps[0]);
      ActiveStays(Apply(s, steps[0]), steps[1..], g);
    }
  }

  /** The claim on `g` is left: no live job answers for it any more. */
  ghost predicate LeftClaim(s: State, g: string) {
    g in s.rows && s.rows[g].Claimed? && forall j :: j in s.jobs ==> g !in s.jobs[j].held
  }

  lemma HeldGrowsOnlyByClaiming(s: State, step: Step, g: string)
    requires Legal(s, step) && ActorSound(s, step) && JobAfter(s, step).Some? && g in JobAfter(s, step).value.held
    ensures g !in s.rows || (!step.Start? && g in s.jobs[step.j].held)
  {
    ActorStaysShaped(s, step);
  }

  /** A left claim is never given back or taken over: no echo that comes later creates a link on
      that group. */
  lemma {:induction false} LeftClaimStays(s: State, steps: seq<Step>, g: string)
    requires Inv(s) && LegalFrom(s, steps) && LeftClaim(s, g)
    ensures LeftClaim(RunFrom(s, steps), g) && RunFrom(s, steps).doors.LinksOf(g) == s.doors.LinksOf(g)
    decreases |steps|
  {
    if steps != [] {
      var step := steps[0];
      assert step.Start? || JobSound(s, step.j);
      OtherRowsStay(s, step, g);
      if JobAfter(s, step).Some? && g in JobAfter(s, step).value.held { HeldGrowsOnlyByClaiming(s, step, g); }
      if step.CreateOne? {
        CreatesOnlyUnsealed(s, step.j, step.answer);
        DoorsStay(s.doors, s.jobs[step.j].todo[0].group, step.answer);
      }
      StepKeepsInv(s, step);
      LeftClaimStays(Apply(s, step), steps[1..], g);
    }
  }

  /** A crash leaves every claim of the job that holds no link yet or was not settled. */
  lemma CrashLeavesClaims(s: State, j: nat, g: string)
    requires Inv(s) && j in s.jobs && g in s.jobs[j].held
    ensures LeftClaim(Apply(s, Crash(j)), g)
  {
    assert JobSound(s, j);
    assert forall o :: o in s.jobs && JobSound(s, o) && g in s.jobs[o].held ==> s.rows[g] == Claimed(o);
  }

  /** Which claims a job gives back: exactly those without a link on it and without one on any other
      door of the same mapping. */
  lemma GivenBackIff(s: State, j: nat, m: Mapping)
    requires Inv(s) && Legal(s, CreatesDone(j)) && m in s.jobs[j].won
    ensures var job := Apply(s, CreatesDone(j)).jobs[j];
            m.group in job.held - job.made.Keys <==> !HasLink(s.jobs[j].won, s.jobs[j].made, m.id)
  {
    assert JobSound(s, j);
    AfterCreatesGivesBack(s.jobs[j], m);
  }

  /** So a failed door beside a successful one of its mapping is left. */
  lemma FailedDoorIsLeft(s: State, j: nat, m: Mapping)
    requires Inv(s) && Legal(s, CreatesDone(j)) && m in s.jobs[j].won
    requires m.group !in s.jobs[j].made && HasLink(s.jobs[j].won, s.jobs[j].made, m.id)
    ensures LeftClaim(Apply(s, CreatesDone(j)), m.group)
  {
    GivenBackIff(s, j, m);
    assert JobSound(s, j) && m.group in Groups(s.jobs[j].won);
    assert forall o :: o in s.jobs && JobSound(s, o) && m.group in s.jobs[o].held ==> s.rows[m.group] == Claimed(o);
  }

  // --- How a second link comes about ---

  ghost predicate Reachable(s: State) {
    exists steps :: LegalFrom(START, steps) && RunFrom(START, steps) == s
  }

  lemma Reach(s: State, step: Step)
    requires Reachable(s) && Legal(s, step)
    ensures Reachable(Apply(s, step))
  {
    var steps :| LegalFrom(START, steps) && RunFrom(START, steps) == s;
    RunThen(START, steps, step);
    assert LegalFrom(START, steps + [step]);
  }

  lemma {:induction false} RunThen(s: State, steps: seq<Step>, step: Step)
    requires LegalFrom(s, steps) && Legal(RunFrom(s, steps), step)
    ensures LegalFrom(s, steps + [step]) && RunFrom(s, steps + [step]) == Apply(RunFrom(s, steps), step)
    decreases |steps|
  {
    if steps == [] {
      assert [] + [step] == [step] && [step][1..] == [];
      assert RunFrom(Apply(s, step), []) == Apply(s, step);
    } else {
      RunThen(Apply(s, steps[0]), steps[1..], step);
      assert (steps + [step])[1..] == steps[1..] + [step];
    }
  }

  const DOOR := Mapping("m1", "door")

  /** Job `j`, whose only mapping is the door, has claimed it and is about to create its link. */
  ghost predicate AboutToCreate(s: State, j: nat) {
    && s.jobs == map[j := Job(Creating, [DOOR], [DOOR], {"door"}, map[])]
    && s.rows == map["door" := Claimed(j)] && s.nextJob == j + 1
  }

  lemma ClaimTheDoor(s: State)
    requires Reachable(s) && s.jobs == map[] && s.rows == map[]
    ensures exists t :: Reachable(t) && AboutToCreate(t, s.nextJob) && t.doors == s.doors
  {
    var j := s.nextJob;
    Reach(s, Start([DOOR]));
    var s1 := Apply(s, Start([DOOR]));
    Reach(s1, ClaimOne(j, Ok));
    var s2 := Apply(s1, ClaimOne(j, Ok));
    assert s2.jobs[j] == Job(Claiming, [], [DOOR], {"door"}, map[]);
    Reach(s2, ClaimsDone(j));
    var s3 := Apply(s2, ClaimsDone(j));
    assert AboutToCreate(s3, j);
  }

  /** The creation takes effect and fails for the job, which gives the claim back. */
  lemma CreateAndGiveBack(s: State, j: nat)
    requires Reachable(s) && AboutToCreate(s, j)
    ensures exists t :: && Reachable(t) && t.jobs == map[] && t.rows == map[]
                        && t.doors == s.doors.Create("door", TimedOut)
  {
    Reach(s, CreateOne(j, TimedOut));
    var s1 := Apply(s, CreateOne(j, TimedOut));
    assert s1.jobs[j] == Job(Creating, [], [DOOR], {"door"}, map[]);
    Reach(s1, CreatesDone(j));
    var s2 := Apply(s1, CreatesDone(j));
    assert Groups([DOOR]) == {"door"} by { assert DOOR in [DOOR]; }
    Reach(s2, Release(j, Ok));
    var s3 := Apply(s2, Release(j, Ok));
    assert s3.rows == map[] && s3.jobs == map[];
  }

  /** The bound is reached: one order can come to two live links on a door. */
  lemma TwoLinksForOneOrder()
    ensures exists s :: Reachable(s) && |s.doors.LinksOf("door")| == 2
  {
    assert LegalFrom(START, []) && RunFrom(START, []) == START;
    ClaimTheDoor(START);
    var s1 :| Reachable(s1) && AboutToCreate(s1, START.nextJob) && s1.doors == START.doors;
    CreateAndGiveBack(s1, START.nextJob);
    var s2 :| Reachable(s2) && s2.jobs == map[] && s2.rows == map[] && s2.doors == s1.doors.Create("door", TimedOut);
    ClaimTheDoor(s2);
    var s3 :| Reachable(s3) && AboutToCreate(s3, s2.nextJob) && s3.doors == s2.doors;
    CreateIsReachable(s3, s2.nextJob);
    TwoCreatesLeaveTwo();
  }

  lemma CreateIsReachable(s: State, j: nat)
    requires Reachable(s) && AboutToCreate(s, j)
    ensures exists t :: Reachable(t) && t.doors == s.doors.Create("door", Ok)
  {
    Reach(s, CreateOne(j, Ok));
    assert Apply(s, CreateOne(j, Ok)).doors == s.doors.Create("door", Ok);
  }

  lemma TwoCreatesLeaveTwo()
    ensures |START.doors.Create("door", TimedOut).Create("door", Ok).LinksOf("door")| == 2
  {
    assert START.doors.Create("door", TimedOut).Create("door", Ok).LinksOf("door") == {0, 1};
  }

  /** A job that nothing disturbs ends with the row active and its link live. */
  lemma LoneJobSettles()
    ensures exists s :: Reachable(s) && s.jobs == map[] && s.rows == map["door" := Active(0, 0)]
                        && s.doors.links == map[0 := "door"]
  {
    assert LegalFrom(START, []) && RunFrom(START, []) == START;
    ClaimTheDoor(START);
    var s :| Reachable(s) && AboutToCreate(s, 0) && s.doors == START.doors;
    CreateAndSettle(s);
  }

  lemma CreateAndSettle(s: State)
    requires Reachable(s) && AboutToCreate(s, 0) && s.doors == START.doors
    ensures exists t :: Reachable(t) && t.jobs == map[] && t.rows == map["door" := Active(0, 0)]
                        && t.doors.links == map[0 := "door"]
  {
    Reach(s, CreateOne(0, Ok));
    var doors := s.doors.Create("door", Ok);
    var made := Job(Creating, [], [DOOR], {"door"}, map["door" := 0]);
    var s1 := s.(jobs := map[0 := made], doors := doors);
    assert [DOOR][1..] == [] && map[]["door" := 0] == map["door" := 0];
    assert s1.jobs[0] == Apply(s, CreateOne(0, Ok)).jobs[0];
    assert Apply(s, CreateOne(0, Ok)) == s1;
    AllMade();
    Reach(s1, CreatesDone(0));
    var s2 := s1.(jobs := map[0 := made.(phase := Settling)]);
    assert made.made.Keys == {"door"};
    assert s2.jobs[0] == Apply(s1, CreatesDone(0)).jobs[0];
    assert Apply(s1, CreatesDone(0)) == s2;
    Reach(s2, Settle(0, "door", Ok));
    assert Apply(s2, Settle(0, "door", Ok)) == s2.(jobs := map[], rows := map["door" := Active(0, 0)]);
  }

  lemma AllMade()
    ensures FailedClaims([DOOR], map["door" := 0]) == {}
  {
    assert DOOR in [DOOR] && HasLink([DOOR], map["door" := 0], "m1");
  }
}
