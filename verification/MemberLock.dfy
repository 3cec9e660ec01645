/** The per-member lock jobs run under, as a timed state machine: any number of attempts of any jobs,
    interleaved with the passing of time, locks running out, crashes and releases that come late. */
module MemberLock {

  const TTL_MS := 120000

  datatype Member = Member(tenant: string, person: string) {
    function LockKey(): string { "accesssync:member-lock:" + tenant + ":" + person }
  }

  /** A lock as Redis keeps it, plus who really took it: the attempt, not just the job. */
  datatype Lock = Lock(owner: string, expires: int, taker: nat, member: Member)

  datatype Phase = InBody | Releasing

  /** One attempt of a job that got the lock at `start`; a parked attempt leaves no trace. */
  datatype Attempt = Attempt(job: string, member: Member, start: int, phase: Phase)

  datatype State = State(now: int, locks: map<string, Lock>, live: map<nat, Attempt>) {
    /** A key whose time is up is gone for GET and for SET NX alike. */
    predicate Taken(key: string) {
      key in locks && now < locks[key].expires
    }
  }

  const START := State(0, map[], map[])

  datatype Step =
    | Tick(to: int)
    | Try(attempt: nat, job: string, member: Member)
    | EndBody(attempt: nat)
    | Release(attempt: nat, reached: bool)
    | Crash(attempt: nat)

  predicate Legal(s: State, step: Step) {
    match step
    case Tick(to) => to >= s.now
    case Try(a, job, _) => a !in s.live
    case EndBody(a) => a in s.live && s.live[a].phase.InBody?
    case Release(a, _) => a in s.live && s.live[a].phase.Releasing?
    case Crash(a) => a in s.live
  }

  function Apply(s: State, step: Step): State
    requires Legal(s, step)
  {
    match step
    case Tick(to) => s.(now := to)
    case Try(a, job, member) =>
      // SET key owner PX ttl NX; when it is refused the job is parked and its body does not run
      if s.Taken(member.LockKey()) then s
      else s.(locks := s.locks[member.LockKey() := Lock(job, s.now + TTL_MS, a, member)],
              live := s.live[a := Attempt(job, member, s.now, InBody)])
    case EndBody(a) => s.(live := s.live[a := s.live[a].(phase := Releasing)])
    case Release(a, reached) =>
      s.(locks := if reached && Frees(s, a) then s.locks - {s.live[a].member.LockKey()} else s.locks,
         live := s.live - {a})
    case Crash(a) => s.(live := s.live - {a})
  }

  /** Compare-and-delete: the key is still there and holds this job's id. */
  predicate Frees(s: State, a: nat)
    requires a in s.live
  {
    var key := s.live[a].member.LockKey();
    s.Taken(key) && s.locks[key].owner == s.live[a].job
  }

  /** An attempt gets the lock of its member exactly if none is kept or its time is up, then for two minutes
      and in its own name; otherwise it leaves no trace. */
  lemma TryMeans(s: State, a: nat, job: string, member: Member)
    requires a !in s.live
    ensures Legal(s, Try(a, job, member))
    ensures var key := "accesssync:member-lock:" + member.tenant + ":" + member.person;
            var t := Apply(s, Try(a, job, member));
            if key in s.locks && s.now < s.locks[key].expires then t == s
            else && t.now == s.now
                 && t.locks == s.locks[key := Lock(job, s.now + 2 * 60 * 1000, a, member)]
                 && t.live == s.live[a := Attempt(job, member, s.now, InBody)]
  {
  }

  /** A release takes the lock away exactly if it reaches the store in time and finds its own job's name in
      it; a crash takes nothing away; either ends the attempt. */
  lemma LeavingMeans(s: State, a: nat, reached: bool)
    requires a in s.live
    ensures Legal(s, EndBody(a)) <==> s.live[a].phase == InBody
    ensures Legal(s, Release(a, reached)) <==> s.live[a].phase == Releasing
    ensures Legal(s, Crash(a)) && Apply(s, Crash(a)) == s.(live := s.live - {a})
    ensures Legal(s, Release(a, reached)) ==>
              var key := "accesssync:member-lock:" + s.live[a].member.tenant + ":" + s.live[a].member.person;
              var t := Apply(s, Release(a, reached));
              && t.now == s.now && t.live == s.live - {a}
              && t.locks == if && reached && key in s.locks && s.now < s.locks[key].expires
                               && s.locks[key].owner == s.live[a].job
                            then s.locks - {key} else s.locks
  {
  }

  ghost predicate LegalRun(steps: seq<Step>)
    decreases |steps|, 0
  {
    steps == [] || (LegalRun(steps[..|steps| - 1]) && Legal(After(steps[..|steps| - 1]), steps[|steps| - 1]))
  }

  ghost function After(steps: seq<Step>): State
    requires LegalRun(steps)
    decreases |steps|, 1
  {
    if steps == [] then START else Apply(After(steps[..|steps| - 1]), steps[|steps| - 1])
  }

  /** No job is tried while an attempt with its id is still live. */
  ghost predicate DistinctJobs(steps: seq<Step>)
    requires LegalRun(steps)
  {
    steps == [] ||
    var last, s := steps[|steps| - 1], After(steps[..|steps| - 1]);
    && DistinctJobs(steps[..|steps| - 1])
    && Fresh(s, last)
  }

  // --- What every run keeps ---

  ghost predicate HoldsOwn(s: State, a: nat)
    requires a in s.live
  {
    var t := s.live[a];
    t.member.LockKey() in s.locks && s.locks[t.member.LockKey()] == Lock(t.job, t.start + TTL_MS, a, t.member)
  }

  /** While its time lasts a body has its lock; a lock with a live attempt's id is that attempt's. */
  ghost predicate Kept(s: State, a: nat)
    requires a in s.live
  {
    var t := s.live[a];
    && t.start <= s.now
    && (t.phase.InBody? && s.now < t.start + TTL_MS ==> HoldsOwn(s, a))
    && (t.member.LockKey() in s.locks && s.locks[t.member.LockKey()].owner == t.job ==> HoldsOwn(s, a))
  }

  /** Two bodies on one member: the later one began only when the earlier one's lock had run out. */
  ghost predicate Apart(s: State, a: nat, b: nat)
    requires a in s.live && b in s.live
  {
    var t, u := s.live[a], s.live[b];
    a != b && t.phase.InBody? && u.phase.InBody? && t.member.LockKey() == u.member.LockKey() ==>
      t.start + TTL_MS <= u.start || u.start + TTL_MS <= t.start
  }

  ghost predicate Inv(s: State) {
    && (forall a :: a in s.live ==> Kept(s, a))
    && (forall a, b :: a in s.live && b in s.live ==> Apart(s, a, b))
    && (forall k :: k in s.locks ==> s.locks[k].expires <= s.now + TTL_MS && k == s.locks[k].member.LockKey())
  }

  ghost predicate Fresh(s: State, step: Step) {
    step.Try? ==> forall b :: b in s.live ==> s.live[b].job != step.job
  }

  lemma StepKeepsKept(s: State, step: Step, a: nat)
    requires Inv(s) && Legal(s, step) && Fresh(s, step) && a in Apply(s, step).live
    ensures Kept(Apply(s, step), a)
  {
    if a in s.live { assert Kept(s, a); }
    if step.Release? { assert Kept(s, step.attempt); }
  }

  lemma StepKeepsApart(s: State, step: Step, a: nat, b: nat)
    requires Inv(s) && Legal(s, step) && a in Apply(s, step).live && b in Apply(s, step).live
    ensures Apart(Apply(s, step), a, b)
  {
    if a in s.live && b in s.live {
      assert Apart(s, a, b);
    } else if a in s.live {
      assert Kept(s, a);
    } else if b in s.live {
      assert Kept(s, b);
    }
  }

  lemma StepKeepsInv(s: State, step: Step)
    requires Inv(s) && Legal(s, step) && Fresh(s, step)
    ensures Inv(Apply(s, step))
  {
    var s' := Apply(s, step);
    forall a | a in s'.live ensures Kept(s', a) {
      StepKeepsKept(s, step, a);
    }
    forall a, b | a in s'.live && b in s'.live ensures Apart(s', a, b) {
      StepKeepsApart(s, step, a, b);
    }
  }

  lemma {:induction false} RunKeepsInv(steps: seq<Step>)
    requires LegalRun(steps) && DistinctJobs(steps)
    ensures Inv(After(steps))
  {
    if steps != [] {
      RunKeepsInv(steps[..|steps| - 1]);
      StepKeepsInv(After(steps[..|steps| - 1]), steps[|steps| - 1]);
    }
  }

  // --- Main results ---

  /** With distinct job ids a release, however late it comes, frees at most the lock that this very
      attempt took: never one a sibling took after this one's ran out. */
  lemma ReleaseFreesOnlyItsOwn(steps: seq<Step>, a: nat)
    requires LegalRun(steps) && DistinctJobs(steps)
    requires Legal(After(steps), Release(a, true))
    ensures var s := After(steps); var s' := Apply(s, Release(a, true));
            forall k :: k in s.locks && k !in s'.locks ==> s.locks[k].taker == a && k == s.live[a].member.LockKey()
  {
    RunKeepsInv(steps);
    assert Kept(After(steps), a);
  }

  /** Whenever two bodies of one member overlap, one of them was still running after its time to
      live, and the other only began then. */
  lemma OverlapNeedsAnOverrun(steps: seq<Step>, a: nat, b: nat)
    requires LegalRun(steps) && DistinctJobs(steps) && a != b
    requires a in After(steps).live && b in After(steps).live
    requires After(steps).live[a].phase.InBody? && After(steps).live[b].phase.InBody?
    requires After(steps).live[a].member == After(steps).live[b].member
    ensures var s := After(steps);
            || s.live[a].start + TTL_MS <= s.live[b].start <= s.now
            || s.live[b].start + TTL_MS <= s.live[a].start <= s.now
  {
    RunKeepsInv(steps);
    var s := After(steps);
    assert Kept(s, a) && Kept(s, b) && Apart(s, a, b);
  }

  ghost predicate BodiesEndInTime(s: State) {
    forall a :: a in s.live && s.live[a].phase.InBody? ==> s.now < s.live[a].start + TTL_MS
  }

  /** So if every body ends within its time to live, one body at a time runs for a member. */
  lemma OneBodyPerMember(steps: seq<Step>, a: nat, b: nat)
    requires LegalRun(steps) && DistinctJobs(steps) && BodiesEndInTime(After(steps))
    requires a in After(steps).live && b in After(steps).live
    requires After(steps).live[a].phase.InBody? && After(steps).live[b].phase.InBody?
    requires After(steps).live[a].member == After(steps).live[b].member
    ensures a == b
  {
    if a != b { OverlapNeedsAnOverrun(steps, a, b); }
  }

  /** A crashed job holds its member for the time to live at most: after that an attempt gets in. */
  lemma CrashedHolderExpires(steps: seq<Step>, to: int, a: nat, job: string, member: Member)
    requires LegalRun(steps) && DistinctJobs(steps) && to >= After(steps).now + TTL_MS && a !in After(steps).live
    ensures var s := Apply(After(steps), Tick(to));
            a in Apply(s, Try(a, job, member)).live && Apply(s, Try(a, job, member)).live[a].phase.InBody?
  {
    RunKeepsInv(steps);
  }

  /** A job is parked only behind a lock taken for the same person of the same client, as long as
      client ids hold no colon. */
  lemma OnlyTheSameMemberWaits(steps: seq<Step>, member: Member)
    requires LegalRun(steps) && DistinctJobs(steps) && After(steps).Taken(member.LockKey())
    requires ':' !in member.tenant && ':' !in After(steps).locks[member.LockKey()].member.tenant
    ensures After(steps).locks[member.LockKey()].member == member
  {
    RunKeepsInv(steps);
    LockKeyInjective(member, After(steps).locks[member.LockKey()].member);
  }

  lemma LockKeyInjective(m: Member, n: Member)
    requires ':' !in m.tenant && ':' !in n.tenant && m.LockKey() == n.LockKey()
    ensures m == n
  {
    var p := "accesssync:member-lock:";
    assert forall x: Member :: x.LockKey()[|p|..] == x.tenant + ":" + x.person;
    var s := m.tenant + ":" + m.person;
    assert s == n.tenant + ":" + n.person;
    assert s[|m.tenant|] == ':' && s[|n.tenant|] == ':';
    assert forall i :: 0 <= i < |m.tenant| ==> s[i] == m.tenant[i];
    assert forall i :: 0 <= i < |n.tenant| ==> s[i] == n.tenant[i];
    assert m.tenant == s[..|m.tenant|] && n.tenant == s[..|n.tenant|];
    assert m.person == s[|m.tenant| + 1..] && n.person == s[|n.tenant| + 1..];
  }

  // --- Without distinct job ids ---

  const ANN := Member("gym", "ann")

  /** Two bodies of one member, both within their time to live. */
  ghost predicate TwoBodies(s: State, a: nat, b: nat) {
    && a != b && a in s.live && b in s.live && s.live[a].member == s.live[b].member
    && s.live[a].phase.InBody? && s.live[b].phase.InBody? && BodiesEndInTime(s)
  }

  /** One job delivered twice while its first attempt is still running: the first attempt's release
      frees the second one's lock, and a third job's body joins the second one's. */
  lemma RedeliveredJobBreaksTheLock()
    ensures exists steps :: LegalRun(steps) && !DistinctJobs(steps) && TwoBodies(After(steps), 1, 2)
  {
    var steps := OverrunAndRedelivered();
    steps := FirstReleases(steps);
    var s := After(steps);
    var step := Try(2, "revoke-8", ANN);
    RunStep(steps, s, step, Apply(s, step));
    assert TwoBodies(Apply(s, step), 1, 2);
    assert LegalRun(steps + [step]);
  }

  const FIRST := Attempt("grant-7", ANN, 0, InBody)
  const SECOND := Attempt("grant-7", ANN, TTL_MS, InBody)
  const SECONDS_LOCK := Lock("grant-7", 2 * TTL_MS, 1, ANN)

  lemma OverrunAndRedelivered() returns (steps: seq<Step>)
    ensures LegalRun(steps) && !DistinctJobs(steps)
    ensures After(steps) == State(TTL_MS, map[ANN.LockKey() := SECONDS_LOCK], map[0 := FIRST, 1 := SECOND])
  {
    var w1 := State(0, map[ANN.LockKey() := Lock("grant-7", TTL_MS, 0, ANN)], map[0 := FIRST]);
    var w2 := w1.(now := TTL_MS);
    RunStep([], START, Try(0, "grant-7", ANN), w1);
    steps := [] + [Try(0, "grant-7", ANN)];
    RunStep(steps, w1, Tick(TTL_MS), w2);
    steps := steps + [Tick(TTL_MS)];
    RunStep(steps, w2, Try(1, "grant-7", ANN),
        State(TTL_MS, map[ANN.LockKey() := SECONDS_LOCK], map[0 := FIRST, 1 := SECOND]));
    assert 0 in w2.live && w2.live[0].job == "grant-7";
    steps := steps + [Try(1, "grant-7", ANN)];
  }

  lemma FirstReleases(before: seq<Step>) returns (steps: seq<Step>)
    requires LegalRun(before) && !DistinctJobs(before)
    requires After(before) == State(TTL_MS, map[ANN.LockKey() := SECONDS_LOCK], map[0 := FIRST, 1 := SECOND])
    ensures LegalRun(steps) && !DistinctJobs(steps)
    ensures After(steps) == State(TTL_MS, map[], map[1 := SECOND])
  {
    var w := After(before);
    var w' := w.(live := map[0 := FIRST.(phase := Releasing), 1 := SECOND]);
    RunStep(before, w, EndBody(0), w');
    steps := before + [EndBody(0)];
    RunStep(steps, w', Release(0, true), State(TTL_MS, map[], map[1 := SECOND]));
    steps := steps + [Release(0, true)];
  }

  lemma RunStep(before: seq<Step>, s: State, step: Step, s': State)
    requires LegalRun(before) && After(before) == s
    requires Legal(s, step) && Apply(s, step) == s'
    ensures LegalRun(before + [step]) && After(before + [step]) == s'
    ensures !DistinctJobs(before) ==> !DistinctJobs(before + [step])
    ensures step.Try? && (exists b :: b in s.live && s.live[b].job == step.job) ==> !DistinctJobs(before + [step])
  {
    assert (before + [step])[..|before|] == before;
  }
}
