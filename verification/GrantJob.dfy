/** The grant job: the reuse and partial-failure loop over a plan's doors, then the row writes. */
module GrantJob {
  import opened Prelude
  import opened DoorWorld
  import opened GrantCancel
  import opened GrantReuse

  /** What the user lookup says after a 404 or a 422 on the assignee. */
  datatype Lookup = UserNull | UserPresent | LookupUnclear

  /** How one assignRole call ends. `Broken` is any other error; the role may have been made. */
  datatype Answer =
    | Assigned
    | NotFound(lookup: Lookup)
    | AssigneeMissing(lookup: Lookup)
    | ConflictUnresolved
    | Broken(made: bool)
  {
    predicate SaysUserGone() { (NotFound? || AssigneeMissing?) && lookup.UserNull? }
    predicate SaysGroupGone() { NotFound? && lookup.UserPresent? }
  }

  /** The user is gone if a lookup after "not found" or "assignee must exist" finds nobody; the group is
      only if it was "not found" and the user is there. Everything else says neither. */
  lemma AnswersMean(a: Answer)
    ensures a.SaysUserGone() <==> a == NotFound(UserNull) || a == AssigneeMissing(UserNull)
    ensures a.SaysGroupGone() <==> a == NotFound(UserPresent)
  {
  }

  /** `Threw` carries nothing: the assignments collected so far are lost with the exception. */
  datatype GrantResult = Collected(assignments: seq<Assignment>, failed: seq<Mapping>) | Threw

  lemma OpenOne(w0: World, w: World, assignments: seq<Assignment>, a: Assignment)
    requires Opened(w0, w, assignments)
    requires Grounded(w0, if a.called then WithRole(w, a.m.group) else w, a)
    ensures Opened(w0, if a.called then WithRole(w, a.m.group) else w, assignments + [a])
  {
    var w' := if a.called then WithRole(w, a.m.group) else w;
    assert (assignments + [a])[..|assignments|] == assignments;
    AssignAllConcat(w0, Called(assignments), [a.m]);
    AssignOne(w, a.m);
    assert Called(assignments) + [] == Called(assignments);
    forall b | b in assignments + [a] ensures Grounded(w0, w', b) {
      if b != a { assert Grounded(w0, w, b); }
    }
  }

  /** What the loop collects is the plan for the mappings it collects it for. */
  lemma OpenedIsPlanned(w0: World, w: World, assignments: seq<Assignment>)
    requires Opened(w0, w, assignments) && IdsAgree(w0.rows)
    ensures Called(assignments) == Needing(w0.rows, MappingsOf(assignments))
    ensures assignments == Planned(w0.rows, w.roles, MappingsOf(assignments))
  {
    CalledIsNeeding(w0.rows, assignments);
    var p := Planned(w0.rows, w.roles, MappingsOf(assignments));
    forall i | 0 <= i < |assignments| ensures assignments[i] == p[i] {
      assert Grounded(w0, w, assignments[i]);
    }
  }

  lemma {:induction false} CalledIsNeeding(rows: map<Key, Row>, assignments: seq<Assignment>)
    requires forall a :: a in assignments ==> a.called == !HasReusable(rows, a.m.group)
    ensures Called(assignments) == Needing(rows, MappingsOf(assignments))
  {
    if assignments != [] {
      var n := |assignments| - 1;
      CalledIsNeeding(rows, assignments[..n]);
      assert MappingsOf(assignments)[..n] == MappingsOf(assignments[..n]);
      assert assignments[n] in assignments;
    }
  }

  /** The accounts known to have lost the user, from the calls since `c0`; no call follows such an
      answer on the same account. */
  ghost predicate GoneFrom(calls: seq<(Mapping, Answer)>, c0: nat, gone: set<string>) {
    && c0 <= |calls|
    && (forall c :: c0 <= c < |calls| && calls[c].1.SaysUserGone() ==> calls[c].0.account in gone)
    && (forall a :: a in gone ==> exists c :: c0 <= c < |calls| && calls[c].1.SaysUserGone() && calls[c].0.account == a)
    && (forall b, c :: c0 <= b < c < |calls| && calls[b].1.SaysUserGone() ==> calls[c].0.account != calls[b].0.account)
  }

  ghost predicate FlagsJustified(before: set<(string, string)>, after: set<(string, string)>,
      calls: seq<(Mapping, Answer)>, c0: nat) {
    && before <= after
    && forall u :: u in after - before ==>
         exists c :: c0 <= c < |calls| && Flags(calls[c], u)
  }

  ghost predicate Flags(call: (Mapping, Answer), u: (string, string)) {
    call.1.SaysGroupGone() && u == (call.0.id, call.0.group)
  }

  lemma LogCall(calls: seq<(Mapping, Answer)>, c0: nat, gone: set<string>, m: Mapping, answer: Answer,
                before: set<(string, string)>, after: set<(string, string)>)
    requires GoneFrom(calls, c0, gone) && m.account !in gone && FlagsJustified(before, after, calls, c0)
    ensures GoneFrom(calls + [(m, answer)], c0, if answer.SaysUserGone() then gone + {m.account} else gone)
    ensures FlagsJustified(before, if answer.SaysGroupGone() then after + {(m.id, m.group)} else after,
              calls + [(m, answer)], c0)
  {
    var calls' := calls + [(m, answer)];
    var gone' := if answer.SaysUserGone() then gone + {m.account} else gone;
    assert forall c :: 0 <= c < |calls| ==> calls'[c] == calls[c];
    assert calls'[|calls|] == (m, answer);
    forall a | a in gone'
      ensures exists c :: c0 <= c < |calls'| && calls'[c].1.SaysUserGone() && calls'[c].0.account == a
    {
      if a in gone {
        var c :| c0 <= c < |calls| && calls[c].1.SaysUserGone() && calls[c].0.account == a;
        assert calls'[c].1.SaysUserGone();
      } else {
        assert calls'[|calls|].1.SaysUserGone();
      }
    }
    var after' := if answer.SaysGroupGone() then after + {(m.id, m.group)} else after;
    forall u | u in after' - before
      ensures exists c :: c0 <= c < |calls'| && Flags(calls'[c], u)
    {
      if u in after {
        assert u in after - before;
        var c :| c0 <= c < |calls| && Flags(calls[c], u);
        assert Flags(calls'[c], u);
      } else {
        assert Flags(calls'[|calls|], u);
      }
    }
  }

  /** Each mapping so far is accounted for once: assigned or failed. */
  ghost predicate Sorted(ms: seq<Mapping>, i: nat, assignments: seq<Assignment>, failed: seq<Mapping>) {
    && i <= |ms|
    && multiset(MappingsOf(assignments)) + multiset(failed) == multiset(ms[..i])
    && (failed == [] ==> MappingsOf(assignments) == ms[..i])
  }

  lemma SortOne(ms: seq<Mapping>, i: nat, assignments: seq<Assignment>, failed: seq<Mapping>, a: Assignment)
    requires Sorted(ms, i, assignments, failed) && i < |ms|
    ensures a.m == ms[i] ==> Sorted(ms, i + 1, assignments + [a], failed)
    ensures Sorted(ms, i + 1, assignments, failed + [ms[i]])
  {
    assert ms[..i + 1] == ms[..i] + [ms[i]];
    assert MappingsOf(assignments + [a]) == MappingsOf(assignments) + [a.m];
  }

  /** No answer but success or an unexpected error. */
  ghost predicate Healthy(answers: seq<Answer>) {
    forall a :: a in answers ==> a.Assigned? || a.Broken?
  }

  /** Some prefix of the door calls was made before the job died. */
  ghost predicate CutShort(w0: World, w: World, ms: seq<Mapping>) {
    exists n: nat :: CutShortAt(w0, w, Needing(w0.rows, ms), n)
  }

  ghost predicate CutShortAt(w0: World, w: World, needing: seq<Mapping>, n: nat) {
    n <= |needing| && w == AssignAll(w0, needing[..n])
  }

  lemma CutAt(w0: World, w: World, w': World, ms: seq<Mapping>, i: nat)
    requires i < |ms| && w == AssignAll(w0, Needing(w0.rows, ms[..i])) && !HasReusable(w0.rows, ms[i].group)
    requires w' == w || w' == WithRole(w, ms[i].group)
    ensures CutShort(w0, w', ms)
  {
    var needing, before := Needing(w0.rows, ms), Needing(w0.rows, ms[..i]);
    NeedingNext(w0.rows, ms, i);
    CallNext(w0, before, ms[i]);
    assert CutShortAt(w0, w', needing, if w' == w then |before| else |before| + 1);
  }

  lemma NeedingNext(rows: map<Key, Row>, ms: seq<Mapping>, i: nat)
    requires i < |ms| && !HasReusable(rows, ms[i].group)
    ensures var needing, before := Needing(rows, ms), Needing(rows, ms[..i]);
            |before| < |needing| && needing[..|before|] == before && needing[..|before| + 1] == before + [ms[i]]
  {
    assert ms[..i + 1][..i] == ms[..i];
    assert Needing(rows, ms[..i + 1]) == Needing(rows, ms[..i]) + [ms[i]];
    NeedingPrefix(rows, ms, i + 1);
  }

  lemma CallNext(w0: World, before: seq<Mapping>, m: Mapping)
    ensures AssignAll(w0, before + [m]) == WithRole(AssignAll(w0, before), m.group)
  {
    AssignAllConcat(w0, before, [m]);
    AssignOne(AssignAll(w0, before), m);
  }

  /** What the loop has collected so far, and the accounts it knows to have lost the user. */
  datatype Progress = Progress(assignments: seq<Assignment>, failed: seq<Mapping>, gone: set<string>)

  const NOTHING := Progress([], [], {})

  datatype Turn = Got(a: Assignment) | Missed | Aborted

  /** Everything the loop over the mappings carries along. */
  datatype Loop = Loop(w: World, unhealthy: set<(string, string)>, calls: seq<(Mapping, Answer)>,
                       assignments: seq<Assignment>, failed: seq<Mapping>, gone: set<string>)

  ghost predicate Sound(ms: seq<Mapping>, answers: seq<Answer>, i: nat, start: Loop, l: Loop) {
    && Sorted(ms, i, l.assignments, l.failed)
    && Opened(start.w, l.w, l.assignments)
    && GoneFrom(l.calls, |start.calls|, l.gone)
    && FlagsJustified(start.unhealthy, l.unhealthy, l.calls, |start.calls|)
    && (Healthy(answers) ==> l.failed == [] && l.gone == {})
  }

  function Collect(l: Loop, m: Mapping, t: Turn): Loop
    requires !t.Aborted?
  {
    if t.Got? then l.(assignments := l.assignments + [t.a]) else l.(failed := l.failed + [m])
  }

  /** What one turn does to the stores and the logs. */
  ghost predicate TurnDoes(m: Mapping, answer: Answer, l: Loop, t: Turn, l': Loop) {
    && l'.assignments == l.assignments && l'.failed == l.failed
    && (t.Got? ==> t.a.m == m)
    && (t.Got? && t.a.called ==> l'.w == WithRole(l.w, m.group) && t.a.role == l'.w.roles[m.group])
    && (t.Got? && !t.a.called ==> l'.w == l.w && Reusable(l.w.rows, m.group, t.a.role))
    && (t.Missed? ==> l'.w == l.w && (m.account in l.gone || !(answer.Assigned? || answer.Broken?)))
    && (t.Aborted? ==> answer.Broken? && (l'.w == l.w || l'.w == WithRole(l.w, m.group)))
    && if HasReusable(l.w.rows, m.group) || m.account in l.gone
       then && l'.calls == l.calls && l'.gone == l.gone && l'.unhealthy == l.unhealthy
            && (if HasReusable(l.w.rows, m.group) then t.Got? && !t.a.called else t.Missed?)
       else && (t.Got? <==> answer.Assigned?) && (t.Got? ==> t.a.called)
            && l'.calls == l.calls + [(m, answer)]
            && l'.gone == (if answer.SaysUserGone() then l.gone + {m.account} else l.gone)
            && l'.unhealthy == (if answer.SaysGroupGone() then l.unhealthy + {(m.id, m.group)} else l.unhealthy)
  }

  /** Exactly when a mapping reported as granted has its door open: the reuse guard makes no call for a
      door with a recorded id, so such a door is open afterwards only if it was before. */
  lemma GrantedDoorIsOpenIff(m: Mapping, answer: Answer, l: Loop, t: Turn, l': Loop)
    requires TurnDoes(m, answer, l, t, l') && t.Got?
    ensures m.group in l'.w.roles <==> (HasReusable(l.w.rows, m.group) ==> m.group in l.w.roles)
  {
  }

  /** How it fails: a cancel that died between closing a door and deleting its row leaves the row with
      its dead role id, and a grant of any plan on that door then reports the door granted without a
      call, although it is shut. */
  lemma HalfCancelledDoorIsReused(w: World, k: Key, m: Mapping, answer: Answer, l: Loop, t: Turn, l': Loop)
    requires Settled(w) && k in w.rows && !k.kind.DayPass?
    requires l.w == WithoutRole(w, w.roles[k.group]) && m.group == k.group && TurnDoes(m, answer, l, t, l')
    ensures t.Got? && !t.a.called && t.a.role == w.roles[k.group]
    ensures m.group !in l'.w.roles && l'.calls == l.calls
  {
    assert k in l.w.rows && l.w.rows[k].role == Some(w.roles[k.group]);
    assert HasReusable(l.w.rows, m.group);
    var o :| o in l.w.rows && !o.kind.DayPass? && o.group == m.group && l.w.rows[o].role == Some(t.a.role);
    assert o in w.rows;
  }

  lemma TurnIsSound(ms: seq<Mapping>, answers: seq<Answer>, i: nat, start: Loop, l: Loop, t: Turn, l': Loop)
    requires |answers| == |ms| && Sound(ms, answers, i, start, l) && i < |ms|
    requires TurnDoes(ms[i], answers[i], l, t, l')
    ensures !t.Aborted? ==> Sound(ms, answers, i + 1, start, Collect(l', ms[i], t))
    ensures t.Aborted? && Healthy(answers) ==> CutShort(start.w, l'.w, ms)
    ensures DoorsOnly(start.w, l'.w) && CallsJustified(start, l')
  {
    var m, answer := ms[i], answers[i];
    assert answer in answers;
    AssignAllRoles(start.w, Called(l.assignments));
    assert l.w.rows == start.w.rows;
    if t.Aborted? && Healthy(answers) {
      CalledIsNeedingWhenOpened(start.w, l.w, l.assignments);
      CutAt(start.w, l.w, l'.w, ms, i);
    }
    if !(HasReusable(l.w.rows, m.group) || m.account in l.gone) {
      LogCall(l.calls, |start.calls|, l.gone, m, answer, start.unhealthy, l.unhealthy);
    }
    if t.Got? {
      OpenOne(start.w, l.w, l.assignments, t.a);
      SortOne(ms, i, l.assignments, l.failed, t.a);
    } else if t.Missed? {
      SortOne(ms, i, l.assignments, l.failed, Assignment(m, 0, false));
    }
  }

  lemma CalledIsNeedingWhenOpened(w0: World, w: World, assignments: seq<Assignment>)
    requires Opened(w0, w, assignments)
    ensures Called(assignments) == Needing(w0.rows, MappingsOf(assignments))
  {
    forall a | a in assignments ensures a.called == !HasReusable(w0.rows, a.m.group) {
      assert Grounded(w0, w, a);
    }
    CalledIsNeeding(w0.rows, assignments);
  }

  /** A grant loop writes no row and closes no door. */
  ghost predicate DoorsOnly(w0: World, w: World) {
    && w.rows == w0.rows && w.links == w0.links
    && (forall g :: g in w0.roles ==> g in w.roles && w.roles[g] == w0.roles[g])
  }

  /** The flags and the skipped accounts follow from the calls made since `start`. */
  ghost predicate CallsJustified(start: Loop, l: Loop) {
    && FlagsJustified(start.unhealthy, l.unhealthy, l.calls, |start.calls|)
    && exists gone :: GoneFrom(l.calls, |start.calls|, gone)
  }

  lemma StartIsSound(ms: seq<Mapping>, answers: seq<Answer>, start: Loop)
    requires start.assignments == [] && start.failed == [] && start.gone == {}
    ensures Sound(ms, answers, 0, start, start)
  {
    assert MappingsOf(start.assignments) == [];
    assert ms[..0] == [];
  }

  lemma EndIsSound(ms: seq<Mapping>, answers: seq<Answer>, start: Loop, l: Loop)
    requires Sound(ms, answers, |ms|, start, l)
    ensures DoorsOnly(start.w, l.w) && CallsJustified(start, l)
    ensures l.assignments == [] ==> l.w == start.w
    ensures Healthy(answers) ==> l.failed == []
    ensures forall a :: a in l.assignments ==>
              (a.m.group in l.w.roles <==> (HasReusable(start.w.rows, a.m.group) ==> a.m.group in start.w.roles))
  {
    AssignAllRoles(start.w, Called(l.assignments));
    forall a | a in l.assignments
      ensures a.m.group in l.w.roles <==> (HasReusable(start.w.rows, a.m.group) ==> a.m.group in start.w.roles)
    {
      OpenedDoors(start.w, l.w, l.assignments, a);
    }
  }

  lemma RecordNext(w0: World, w: World, ev: GrantEvent, assignments: seq<Assignment>, i: nat)
    requires i < |assignments| && w == RecordEach(w0, ev, assignments[..i])
    ensures var a := assignments[i];
            Record(w, ev.KeyFor(a.m.group), a.m.id, Some(a.role)) == RecordEach(w0, ev, assignments[..i + 1])
  {
    var one := [assignments[i]];
    assert assignments[..i + 1] == assignments[..i] + one;
    RecordEachConcat(w0, ev, assignments[..i], one);
    assert one[1..] == [];
  }

  class Doors {
    var rows: map<Key, Row>
    var roles: map<string, nat>
    var links: set<nat>
    var nextId: nat
    var unhealthy: set<(string, string)>
    ghost var calls: seq<(Mapping, Answer)>

    ghost function View(): World
      reads this
    {
      World(rows, roles, links, nextId)
    }

    ghost function State(c: Progress): Loop
      reads this
    {
      Loop(View(), unhealthy, calls, c.assignments, c.failed, c.gone)
    }

    method AssignRole(m: Mapping, answer: Answer)
      modifies this`roles, this`nextId, this`calls
      ensures calls == old(calls) + [(m, answer)]
      ensures View() == if answer.Assigned? || (answer.Broken? && answer.made) then WithRole(old(View()), m.group)
                else old(View())
    {
      calls := calls + [(m, answer)];
      if (answer.Assigned? || (answer.Broken? && answer.made)) && m.group !in roles {
        roles, nextId := roles[m.group := nextId], nextId + 1;
      }
    }

    /** One mapping of the loop. */
    method GrantOne(m: Mapping, answer: Answer, sofar: Progress) returns (t: Turn, next: Progress)
      modifies this
      ensures TurnDoes(m, answer, old(State(sofar)), t, State(next))
      ensures next == sofar.(gone := next.gone)
    {
      next := sofar;
      if HasReusable(rows, m.group) {
        var k :| k in rows && !k.kind.DayPass? && k.group == m.group && rows[k].role.Some?;
        return Got(Assignment(m, rows[k].role.value, false)), sofar;
      }
      if m.account in sofar.gone { return Missed, sofar; }
      AssignRole(m, answer);
      if answer.SaysUserGone() { next := sofar.(gone := sofar.gone + {m.account}); }
      if answer.SaysGroupGone() { unhealthy := unhealthy + {(m.id, m.group)}; }
      match answer
      case Assigned => t := Got(Assignment(m, roles[m.group], true));
      case Broken(_) => t := Aborted;
      case _ => t := Missed;
    }

    /** One turn of the loop, with what has been collected so far. */
    method TakeTurn(ms: seq<Mapping>, answers: seq<Answer>, i: nat, sofar: Progress, ghost start: Loop)
      returns (aborted: bool, next: Progress)
      requires |answers| == |ms| && i < |ms| && Sound(ms, answers, i, start, State(sofar))
      modifies this
      ensures !aborted ==> Sound(ms, answers, i + 1, start, State(next))
      ensures aborted ==> DoorsOnly(start.w, View()) && CallsJustified(start, State(next))
      ensures aborted ==> calls != [] && calls[|calls| - 1].1.Broken?
      ensures aborted && Healthy(answers) ==> CutShort(start.w, View(), ms)
    {
      ghost var l := State(sofar);
      var t;
      t, next := GrantOne(ms[i], answers[i], sofar);
      ghost var turned := State(next);
      TurnIsSound(ms, answers, i, start, l, t, turned);
      match t {
        case Aborted => return true, next;
        case Missed => next := next.(failed := next.failed + [ms[i]]);
        case Got(a) => next := next.(assignments := next.assignments + [a]);
      }
      assert State(next) == Collect(turned, ms[i], t);
      return false, next;
    }

    /** No row is written and no live role is touched. The doors opened are those of the assignments,
        in order; an assignment without a call copies the id an existing row carries. A group is
        flagged only when the user is confirmed present. Once an account is known to have lost the
        user it is not called again. If anything at all was collected it is returned, and of what is
        returned exactly those doors are shut that have a recorded id and were shut before. */
    method ProcessGrant(ms: seq<Mapping>, answers: seq<Answer>) returns (r: GrantResult)
      requires |answers| == |ms|
      modifies this
      ensures DoorsOnly(old(View()), View()) && CallsJustified(old(State(NOTHING)), State(NOTHING))
      ensures r.Collected? ==> Opened(old(View()), View(), r.assignments) && Sorted(ms, |ms|, r.assignments, r.failed)
      ensures r.Collected? ==> (r.assignments == [] ==> r.failed == [])
      ensures r.Threw? ==> View() == old(View()) || (calls != [] && calls[|calls| - 1].1.Broken?)
      ensures r.Collected? ==> forall a :: a in r.assignments ==>
                (a.m.group in roles <==> (HasReusable(rows, a.m.group) ==> a.m.group in old(roles)))
      ensures Healthy(answers) ==> if r.Threw? then CutShort(old(View()), View(), ms) else r.failed == []
    {
      var sofar := NOTHING;
      ghost var start := State(sofar);
      StartIsSound(ms, answers, start);
      var i := 0;
      while i < |ms|
        invariant i <= |ms| && Sound(ms, answers, i, start, State(sofar))
      {
        var aborted;
        aborted, sofar := TakeTurn(ms, answers, i, sofar, start);
        if aborted { return Threw; }
        i := i + 1;
      }
      EndIsSound(ms, answers, start, State(sofar));
      return if sofar.failed != [] && sofar.assignments == [] then Threw
          else Collected(sofar.assignments, sofar.failed);
    }

    /** The row writes of completeGrant; the process dies after `alive` of them. */
    method CompleteGrant(ev: GrantEvent, assignments: seq<Assignment>, alive: nat) returns (done: bool)
      modifies this`rows
      ensures done <==> alive >= |assignments|
      ensures View() == RecordEach(old(View()), ev, if done then assignments else assignments[..alive])
    {
      ghost var w0 := View();
      var i := 0;
      while i < |assignments| && i < alive
        invariant 0 <= i <= |assignments| && i <= alive
        invariant View() == RecordEach(w0, ev, assignments[..i])
      {
        var a := assignments[i];
        RecordNext(w0, View(), ev, assignments, i);
        var k := ev.KeyFor(a.m.group);
        rows := rows[k := Row(if k in rows then rows[k].mapping else a.m.id, Some(a.role), Active)];
        i := i + 1;
      }
      assert assignments[..|assignments|] == assignments;
      return i == |assignments|;
    }

    /** A grant job, alive for only so many row writes. Wherever it stops, a rerun to completion ends
        where the uninterrupted job ends, dead recorded ids included, unless two rows of one door
        disagree on its id. */
    method RunGrant(ev: GrantEvent, ms: seq<Mapping>, answers: seq<Answer>, alive: nat)
      returns (r: GrantResult, done: bool)
      requires |answers| == |ms|
      modifies this
      ensures done ==> r.Collected?
      ensures r.Threw? ==> DoorsOnly(old(View()), View())
      ensures done ==> View() == RecordEach(AssignAll(old(View()), Called(r.assignments)), ev, r.assignments)
      ensures old(IdsAgree(rows)) && r.Collected? ==>
                && Regranted(View(), ev, MappingsOf(r.assignments))
                     == Regranted(old(View()), ev, MappingsOf(r.assignments))
                && (done ==> View() == Regranted(old(View()), ev, MappingsOf(r.assignments)))
      ensures old(IdsAgree(rows)) && Healthy(answers) ==> Regranted(View(), ev, ms) == Regranted(old(View()), ev, ms)
    {
      ghost var w0 := View();
      r := ProcessGrant(ms, answers);
      if r.Threw? {
        if Healthy(answers) {
          ghost var n: nat :| CutShortAt(w0, View(), Needing(w0.rows, ms), n);
          CallsCutConverge(w0, ev, ms, n);
        }
        return r, false;
      }
      ghost var w := View();
      done := CompleteGrant(ev, r.assignments, alive);
      if IdsAgree(w0.rows) {
        OpenedIsPlanned(w0, w, r.assignments);
        ghost var named := MappingsOf(r.assignments);
        ghost var n := if done then |named| else alive;
        WritesCutConverge(w0, ev, named, n);
        assert r.assignments[..|r.assignments|] == r.assignments && ms[..|ms|] == ms;
      }
    }
  }
}
