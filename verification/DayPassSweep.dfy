/** The expiry sweep of day passes: the revoke events it queues and the orphan links it deletes, and
    what such an event does once the revoke job runs it. */
module DayPassSweep {
  import opened Prelude
  import opened DoorWorld
  import opened GrantCancel
  import opened DayPassKeys

  /** Ids never hold the separator, so a permanent row's plan never looks like a claim key. A pass is
      stored under product, order and unit, without an order under the bare product, or under no key. */
  ghost predicate KeysShaped(w: World) {
    forall k :: k in w.rows ==> HashFree(k.plan) || (k.kind.DayPass? && OrderBearing(k.plan))
  }

  ghost predicate OrderBearing(key: string) {
    exists p, o, u :: HashFree(p) && HashFree(o) && HashFree(u) && p != "" && key == PassKey(p, o, u)
  }

  /** The event the sweep makes out of an expired row. */
  function ExpiryOf(key: string): CancelEvent {
    CancelEvent(false, key, "")
  }

  ghost predicate LinkOfPass(w: World, gone: iset<string>, l: nat) {
    exists k :: k in w.rows && k.kind.DayPass? && k.plan in gone && w.rows[k].role == Some(l)
  }

  /** What is left when the day passes `gone` picks, and nothing else, are taken away. */
  ghost function WithoutPasses(w: World, gone: iset<string>): World {
    World(
      map k | k in w.rows && !(k.kind.DayPass? && k.plan in gone) :: w.rows[k],
      w.roles,
      (set l | l in w.links && !LinkOfPass(w, gone, l)),
      w.nextId)
  }

  lemma PermanentUntouched(w: World, ev: CancelEvent, gone: iset<string>)
    requires forall k :: k in w.rows ==> (k in ev.Doomed() <==> k.kind.DayPass? && k.plan in gone)
    ensures TornDown(w, ev.Doomed()) == WithoutPasses(w, gone)
  {
    var t := TornDown(w, ev.Doomed());
    assert t.roles == w.roles;
    forall l | l in w.links ensures l in t.links <==> l in WithoutPasses(w, gone).links {
      if k :| k in w.rows && k.kind.DayPass? && k.plan in gone && w.rows[k].role == Some(l) {
        assert k in ev.Doomed();
      }
      if k :| k in w.rows && k.kind.DayPass? && k in ev.Doomed() && w.rows[k].role == Some(l) {
        assert k.plan in gone;
      }
    }
  }

  // --- When an expiry takes its own pass only ---

  /** No other pass is stored without a key or under an extension of this one, the key is not missing,
      and no plan has it for an id. */
  ghost predicate Isolated(w: World, key: string) {
    && (forall k :: k in w.rows && k.kind.DayPass? && k.plan != key ==>
          key != "" && k.plan != "" && !(key + "#" <= k.plan))
    && (forall k :: k in w.rows && k.kind.Plan? ==> k.plan != key)
  }

  /** Whatever key a pass is stored under: its expiry deletes the rows under that key and no others if and
      only if the key is isolated, and then no other link and no role goes either. */
  lemma ExpiryIsolatedIff(w: World, key: string)
    ensures TornDown(w, ExpiryOf(key).Doomed()).rows == WithoutPasses(w, iset{key}).rows <==> Isolated(w, key)
    ensures Isolated(w, key) ==> TornDown(w, ExpiryOf(key).Doomed()) == WithoutPasses(w, iset{key})
  {
    var ev := ExpiryOf(key);
    var t, p := TornDown(w, ev.Doomed()).rows, WithoutPasses(w, iset{key}).rows;
    if Isolated(w, key) {
      PermanentUntouched(w, ev, iset{key});
    }
    if t == p {
      forall k | k in w.rows ensures k in ev.Doomed() <==> k.kind.DayPass? && k.plan == key {
        assert k in t <==> k !in ev.Doomed();
        assert k in p <==> !(k.kind.DayPass? && k.plan == key);
      }
    }
  }

  /** The event of one expired pass with an order takes that pass, whatever passes are stored without a
      key, and nothing else: no other pass and no permanent row or role. */
  lemma ExpiryTakesOnePass(w: World, p: string, o: string, u: string)
    requires KeysShaped(w) && HashFree(p) && HashFree(o) && HashFree(u) && p != ""
    ensures TornDown(w, ExpiryOf(PassKey(p, o, u)).Doomed()) == WithoutPasses(w, iset{PassKey(p, o, u), ""})
  {
    var key := PassKey(p, o, u);
    var ev := ExpiryOf(key);
    assert key[|p|] == '#';
    forall k | k in w.rows ensures k in ev.Doomed() <==> k.kind.DayPass? && (k.plan == key || k.plan == "") {
      if k.kind.DayPass? && k.plan != "" {
        if OrderBearing(k.plan) {
          var p', o', u' :| HashFree(p') && HashFree(o') && HashFree(u') && p' != "" && k.plan == PassKey(p', o', u');
          ExpiryNamesOnePass(k.plan, p, o, u, p', o', u');
        } else {
          BareKeyMatches(k.plan, p, o, u);
        }
      }
    }
    PermanentUntouched(w, ev, iset{key, ""});
  }

  ghost predicate OfOrder(k: Key, p: string, o: string) {
    exists u :: HashFree(u) && k.plan == PassKey(p, o, u)
  }

  ghost predicate OfProduct(k: Key, p: string) {
    exists o, u :: HashFree(o) && HashFree(u) && k.plan == PassKey(p, o, u)
  }

  /** A pass bought without an order is stored under its bare product. Its expiry takes every pass of that
      product, valid ones included, and any plan that has the product for an id. */
  lemma BareExpiryTakesTheProduct(w: World, p: string, k: Key)
    requires KeysShaped(w) && HashFree(p) && p != "" && k in w.rows
    ensures k !in TornDown(w, ExpiryOf(p).Doomed()).rows <==>
              if k.kind.DayPass? then k.plan == p || k.plan == "" || OfProduct(k, p)
              else k.kind.Plan? && k.plan == p
  {
    if k.kind.DayPass? && k.plan != "" {
      if OrderBearing(k.plan) {
        var p', o', u' :| HashFree(p') && HashFree(o') && HashFree(u') && p' != "" && k.plan == PassKey(p', o', u');
        CancelNamesOneOrder(p, "", p', o', u');
        assert k.plan[|p'|] == '#';
        if o, u :| HashFree(o) && HashFree(u) && k.plan == PassKey(p, o, u) { PassKeyInjective(p, o, u, p', o', u'); }
      } else {
        BareKeyMatches(k.plan, p, "", "");
        forall o, u | HashFree(o) && HashFree(u) ensures k.plan != PassKey(p, o, u) {
          assert PassKey(p, o, u)[|p|] == '#';
        }
      }
    }
  }

  ghost function AnyKey(): iset<string> {
    iset key: string | |key| >= 0
  }

  /** An expired row stored without a key makes an event that names nothing, and such an event takes
      every day pass of the member, valid ones included. */
  lemma KeylessExpiryTakesEveryPass(w: World)
    requires forall k :: k in w.rows && !k.kind.DayPass? ==> k.plan != ""
    ensures TornDown(w, ExpiryOf("").Doomed()) == WithoutPasses(w, AnyKey())
  {
    PermanentUntouched(w, ExpiryOf(""), AnyKey());
  }

  // --- What a cancellation of one order takes ---

  ghost predicate Cancelled(k: Key, p: string, o: string) {
    if k.kind.DayPass? then k.plan == p || k.plan == "" || OfOrder(k, p, o)
    else k.kind.Plan? && k.plan == p
  }

  /** A cancellation naming product and order dooms exactly that order's passes, the passes stored under
      the bare product or no key, and the plan rows of that product. */
  lemma CancelNames(w: World, p: string, o: string, k: Key)
    requires KeysShaped(w) && HashFree(p) && HashFree(o) && p != "" && o != "" && k in w.rows
    ensures k in CancelEvent(false, p, o).Doomed() <==> Cancelled(k, p, o)
  {
    if k.kind.DayPass? && k.plan != "" {
      if OrderBearing(k.plan) {
        var p', o', u' :| HashFree(p') && HashFree(o') && HashFree(u') && p' != "" && k.plan == PassKey(p', o', u');
        CancelNamesOneOrder(p, o, p', o', u');
        assert k.plan[|p'|] == '#';
        if u :| HashFree(u) && k.plan == PassKey(p, o, u) { PassKeyInjective(p, o, u, p', o', u'); }
      } else {
        BareKeyMatches(k.plan, p, o, "");
        forall u | HashFree(u) ensures k.plan != PassKey(p, o, u) {
          assert PassKey(p, o, u)[|p|] == '#';
        }
      }
    }
  }

  /** The rows, links and roles it takes: of the links exactly those of the cancelled passes, of the roles
      exactly those of the cancelled plan's doors that no other plan has a row on. */
  lemma CancelTakesOneOrder(w: World, p: string, o: string)
    requires KeysShaped(w) && HashFree(p) && HashFree(o) && p != "" && o != ""
    ensures var t := TornDown(w, CancelEvent(false, p, o).Doomed());
            && (forall k :: k in w.rows ==> (k !in t.rows <==> Cancelled(k, p, o)))
            && (forall l :: l in w.links ==> (l !in t.links <==>
                  exists k :: k in w.rows && k.kind.DayPass? && Cancelled(k, p, o) && w.rows[k].role == Some(l)))
            && (forall g :: g in w.roles ==> (g !in t.roles <==>
                  exists k :: && k in w.rows && !k.kind.DayPass? && Cancelled(k, p, o)
                      && w.rows[k].role == Some(w.roles[g])
                              && !NeededByOthers(w, p, k.group)))
  {
    var doomed := CancelEvent(false, p, o).Doomed();
    forall k | k in w.rows ensures k in doomed <==> Cancelled(k, p, o) { CancelNames(w, p, o, k); }
    forall g ensures Kept(w, doomed, g) <==> NeededByOthers(w, p, g) {}
  }

  /** A permanent row of another plan, or of a booking, is on the door. */
  ghost predicate NeededByOthers(w: World, p: string, g: string) {
    exists k :: k in w.rows && !k.kind.DayPass? && k.group == g && !(k.kind.Plan? && k.plan == p)
  }

  // --- Pass A: events for expired rows ---

  datatype PassRow = PassRow(access: string, key: string)

  /** A job id is the member and the millisecond it was queued in. */
  datatype JobId = JobId(access: string, stamp: int)

  type Jobs = map<JobId, PassRow>

  /** The expired rows in the order read, what the clock shows at each, and which of them the queue
      refuses when asked; `unsure` are the calls that take effect and still throw. */
  datatype Sweep = Sweep(expired: seq<PassRow>, stamps: seq<int>, refused: set<nat>, unsure: set<nat>) {
    predicate Valid() { |stamps| == |expired| }

    /** Row `i` is the first of its member and key, so it is the one an event is made for. */
    predicate First(i: nat)
      requires i < |expired|
    {
      expired[i] !in expired[..i]
    }

    function Slot(i: nat): JobId
      requires Valid() && i < |expired|
    {
      JobId(expired[i].access, stamps[i])
    }

    /** An event is sent for row `i` and reaches the queue. */
    predicate Sent(i: nat)
      requires i < |expired|
    {
      First(i) && i !in refused
    }

    /** The sweep's own count: the calls that returned. */
    function CountedUpTo(n: nat): set<nat>
      requires n <= |expired|
    {
      set i: nat | i < n && Sent(i) && i !in unsure
    }

    /** And it becomes a job: its job id was not known and none of this sweep had taken it. */
    ghost predicate Wins(before: Jobs, i: nat)
      requires Valid() && i < |expired|
    {
      Sent(i) && Slot(i) !in before && forall j: nat :: j < i && Sent(j) ==> Slot(j) != Slot(i)
    }
  }

  /** The first `n` rows have been handled. */
  ghost predicate SweptUpTo(s: Sweep, before: Jobs, jobs: Jobs, n: nat) {
    && s.Valid() && n <= |s.expired|
    && (forall id :: id in before ==> id in jobs && jobs[id] == before[id])
    && (forall i: nat :: i < n && s.Wins(before, i) ==> s.Slot(i) in jobs && jobs[s.Slot(i)] == s.expired[i])
    && (forall id :: id in jobs && id !in before ==> exists i: nat :: i < n && s.Wins(before, i) && s.Slot(i) == id)
  }

  ghost predicate Swept(s: Sweep, before: Jobs, jobs: Jobs) {
    SweptUpTo(s, before, jobs, |s.expired|)
  }

  lemma SentTakesSlot(s: Sweep, before: Jobs, jobs: Jobs, n: nat, j: nat)
    requires SweptUpTo(s, before, jobs, n) && j < n && s.Sent(j)
    ensures s.Slot(j) in jobs
    decreases j
  {
    if !s.Wins(before, j) && s.Slot(j) !in before {
      var i: nat :| i < j && s.Sent(i) && s.Slot(i) == s.Slot(j);
      SentTakesSlot(s, before, jobs, n, i);
    }
  }

  /** Row `n` gets a job now exactly if it wins its slot. */
  lemma SweepNext(s: Sweep, before: Jobs, jobs: Jobs, jobs': Jobs, n: nat)
    requires SweptUpTo(s, before, jobs, n) && n < |s.expired|
    requires jobs' == if s.Sent(n) && s.Slot(n) !in jobs then jobs[s.Slot(n) := s.expired[n]] else jobs
    ensures SweptUpTo(s, before, jobs', n + 1)
  {
    if s.Sent(n) {
      if s.Slot(n) in jobs && s.Slot(n) !in before {
        var i: nat :| i < n && s.Wins(before, i) && s.Slot(i) == s.Slot(n);
        assert !s.Wins(before, n);
      } else if s.Slot(n) !in jobs {
        forall j: nat | j < n && s.Sent(j) ensures s.Slot(j) != s.Slot(n) { SentTakesSlot(s, before, jobs, n, j); }
        assert s.Wins(before, n);
      }
    }
    forall id | id in jobs' && id !in before
        ensures exists i: nat :: i < n + 1 && s.Wins(before, i) && s.Slot(i) == id {
      if id in jobs {
        var i: nat :| i < n && s.Wins(before, i) && s.Slot(i) == id;
        assert i < n + 1;
      } else {
        assert s.Wins(before, n) && s.Slot(n) == id;
      }
    }
  }

  ghost predicate Queued(jobs: Jobs, r: PassRow) {
    exists id :: id in jobs && jobs[id] == r
  }

  lemma FirstIsUnique(s: Sweep, i: nat, j: nat)
    requires i < |s.expired| && j < |s.expired| && s.First(i) && s.First(j)
    ensures s.expired[i] == s.expired[j] ==> i == j
  {
    assert i < j ==> s.expired[..j][i] == s.expired[i];
    assert j < i ==> s.expired[..i][j] == s.expired[j];
  }

  lemma CountedNext(s: Sweep, n: nat)
    requires n < |s.expired|
    ensures |s.CountedUpTo(n + 1)| == |s.CountedUpTo(n)| + if s.Sent(n) && n !in s.unsure then 1 else 0
    ensures forall r :: r in s.expired[..n + 1] <==> r in s.expired[..n] || r == s.expired[n]
  {
    assert s.CountedUpTo(n + 1) == s.CountedUpTo(n) + if s.Sent(n) && n !in s.unsure then {n} else {};
    assert s.expired[..n + 1] == s.expired[..n] + [s.expired[n]];
  }

  /** Exactly which events survive: a pass not queued before has a job after the sweep if and only if its
      event won its slot; equal milliseconds of different members cost nothing. */
  lemma QueuedIffItWins(s: Sweep, before: Jobs, jobs: Jobs, i: nat)
    requires Swept(s, before, jobs) && i < |s.expired| && s.First(i) && !Queued(before, s.expired[i])
    ensures Queued(jobs, s.expired[i]) <==> s.Wins(before, i)
  {
    if id :| id in jobs && jobs[id] == s.expired[i] {
      assert id !in before;
      var j: nat :| j < |s.expired| && s.Wins(before, j) && s.Slot(j) == id;
      FirstIsUnique(s, i, j);
    }
    if s.Wins(before, i) { assert jobs[s.Slot(i)] == s.expired[i]; }
  }

  /** One event per member and key: no two jobs of one sweep are for the same pass. */
  lemma OneEventPerPass(s: Sweep, before: Jobs, jobs: Jobs, a: JobId, b: JobId)
    requires Swept(s, before, jobs) && a in jobs && b in jobs && a !in before && b !in before && jobs[a] == jobs[b]
    ensures a == b
  {
    var i: nat :| i < |s.expired| && s.Wins(before, i) && s.Slot(i) == a;
    var j: nat :| j < |s.expired| && s.Wins(before, j) && s.Slot(j) == b;
    FirstIsUnique(s, i, j);
  }

  /** How an event gets lost: two passes of one member swept in one millisecond share a job id, and the
      second is not queued, although the sweep counts it. */
  lemma SameMillisecondLosesOne(s: Sweep, before: Jobs, jobs: Jobs, i: nat, j: nat)
    requires Swept(s, before, jobs) && i < j < |s.expired| && s.Sent(i) && s.Sent(j)
    requires s.expired[i].access == s.expired[j].access && s.stamps[i] == s.stamps[j]
    requires !Queued(before, s.expired[j])
    ensures !Queued(jobs, s.expired[j])
  {
    QueuedIffItWins(s, before, jobs, j);
  }

  class Queue {
    var jobs: Jobs

    /** A job id that is already queued is ignored. */
    method Add(id: JobId, job: PassRow)
      modifies this
      ensures jobs == if id in old(jobs) then old(jobs) else old(jobs)[id := job]
    {
      if id !in jobs { jobs := jobs[id := job]; }
    }

    /** One expired row; a call that throws is logged and not counted, whether it took effect or not. */
    method Visit(s: Sweep, seen: set<PassRow>, enqueued: nat, i: nat, ghost before: Jobs)
      returns (seen': set<PassRow>, enqueued': nat)
      requires i < |s.expired| && LoopAt(s, before, jobs, seen, enqueued, i)
      modifies this
      ensures LoopAt(s, before, jobs, seen', enqueued', i + 1)
    {
      var r := s.expired[i];
      LoopNext(s, before, jobs, seen, enqueued, i);
      seen', enqueued' := seen + {r}, enqueued;
      if r !in seen && i !in s.refused {
        Add(JobId(r.access, s.stamps[i]), r);
        if i !in s.unsure { enqueued' := enqueued + 1; }
      }
    }

    /** One call to the queue per member and key among the expired rows. */
    method EnqueueExpired(s: Sweep) returns (enqueued: nat)
      requires s.Valid()
      modifies this
      ensures Swept(s, old(jobs), jobs)
      ensures enqueued == |s.CountedUpTo(|s.expired|)|
    {
      ghost var before := jobs;
      var seen := {};
      enqueued := 0;
      LoopStart(s, jobs);
      var i := 0;
      while i < |s.expired|
        invariant LoopAt(s, before, jobs, seen, enqueued, i)
      {
        seen, enqueued := Visit(s, seen, enqueued, i, before);
        i := i + 1;
      }
    }
  }

  ghost predicate LoopAt(s: Sweep, before: Jobs, jobs: Jobs, seen: set<PassRow>, enqueued: nat, n: nat) {
    && SweptUpTo(s, before, jobs, n)
    && (forall r :: r in seen <==> r in s.expired[..n])
    && enqueued == |s.CountedUpTo(n)|
  }

  lemma LoopStart(s: Sweep, before: Jobs)
    requires s.Valid()
    ensures LoopAt(s, before, before, {}, 0, 0)
  {
    assert s.CountedUpTo(0) == {};
  }

  lemma LoopNext(s: Sweep, before: Jobs, jobs: Jobs, seen: set<PassRow>, enqueued: nat, n: nat)
    requires LoopAt(s, before, jobs, seen, enqueued, n) && n < |s.expired|
    ensures var r := s.expired[n];
            var sent := r !in seen && n !in s.refused;
            var jobs' := if sent && s.Slot(n) !in jobs then jobs[s.Slot(n) := r] else jobs;
            LoopAt(s, before, jobs', seen + {r}, enqueued + if sent && n !in s.unsure then 1 else 0, n + 1)
  {
    var jobs' := if s.Sent(n) && s.Slot(n) !in jobs then jobs[s.Slot(n) := s.expired[n]] else jobs;
    CountedNext(s, n);
    SweepNext(s, before, jobs, jobs', n);
  }

  // --- Pass B: orphan links ---

  /** A group link as the door system lists it; `owner` is read from AccessSync's own marker. */
  datatype Link = Link(id: nat, owner: Option<string>, validUntil: Option<int>)

  predicate Orphan(l: Link, client: string, now: int, known: set<nat>) {
    l.owner == Some(client) && l.validUntil.Some? && l.validUntil.value <= now && l.id !in known
  }

  /** The delete calls among the first `n` that went through. */
  ghost function Deletions(listed: seq<Link>, client: string, now: int, known: set<nat>, fails: set<nat>, n: nat)
    : set<nat>
    requires n <= |listed|
  {
    set i: nat | i < n && Orphan(listed[i], client, now, known) && listed[i].id !in fails
  }

  lemma DeletionsNext(listed: seq<Link>, client: string, now: int, known: set<nat>, fails: set<nat>, n: nat)
    requires n < |listed|
    ensures |Deletions(listed, client, now, known, fails, n + 1)| ==
              |Deletions(listed, client, now, known, fails, n)| +
              if Orphan(listed[n], client, now, known) && listed[n].id !in fails then 1 else 0
  {
    assert Deletions(listed, client, now, known, fails, n + 1) ==
           Deletions(listed, client, now, known, fails, n) +
           if Orphan(listed[n], client, now, known) && listed[n].id !in fails then {n} else {};
  }

  /** Deletes exactly this client's own expired links that no source row references, apart from those
      whose deletion fails. `known` are the link ids on the client's day-pass rows. */
  method DeleteOrphanLinks(listed: seq<Link>, client: string, now: int, known: set<nat>, live: set<nat>,
      fails: set<nat>)
    returns (left: set<nat>, deleted: nat)
    ensures forall id :: id in left <==>
              id in live && !exists l :: l in listed && l.id == id && Orphan(l, client, now, known) && id !in fails
    ensures forall id :: id in live && id !in left ==>
              && id !in known && id !in fails
              && exists l, until ::
                   l in listed && l.id == id && l.owner == Some(client) && l.validUntil == Some(until) && until <= now
    ensures forall l, until ::
              && l in listed && l.id !in known && l.id !in fails
              && l.owner == Some(client) && l.validUntil == Some(until) && until <= now ==>
              l.id !in left
    ensures live * known <= left
    ensures deleted == |Deletions(listed, client, now, known, fails, |listed|)|
  {
    left, deleted := live, 0;
    assert Deletions(listed, client, now, known, fails, 0) == {};
    var i := 0;
    while i < |listed|
      invariant 0 <= i <= |listed|
      invariant forall id :: id in left <==>
                  id in live && !exists l ::
                    l in listed[..i] && l.id == id && Orphan(l, client, now, known) && id !in fails
      invariant deleted == |Deletions(listed, client, now, known, fails, i)|
    {
      var l := listed[i];
      assert listed[..i + 1] == listed[..i] + [l];
      DeletionsNext(listed, client, now, known, fails, i);
      if Orphan(l, client, now, known) && l.id !in fails {
        left := left - {l.id};
        deleted := deleted + 1;
      }
      i := i + 1;
    }
    assert listed[..|listed|] == listed;
  }
}
