/** What a grant means when some door already has a row with a role id: the id is copied and the door
    system is not called. Said on values, for the grant job and for the life of an access row. */
module GrantReuse {
  import opened Prelude
  import opened DoorWorld
  import opened GrantCancel

  datatype Assignment = Assignment(m: Mapping, role: nat, called: bool)

  function MappingsOf(assignments: seq<Assignment>): (ms: seq<Mapping>)
    ensures |ms| == |assignments|
    ensures forall i :: 0 <= i < |ms| ==> ms[i] == assignments[i].m
  {
    seq(|assignments|, i requires 0 <= i < |assignments| => assignments[i].m)
  }

  /** The mappings a door call was made for. */
  function Called(assignments: seq<Assignment>): seq<Mapping> {
    if assignments == [] then []
    else
      var n := |assignments| - 1;
      Called(assignments[..n]) + if assignments[n].called then [assignments[n].m] else []
  }

  /** Some permanent row on the door already carries `id`. */
  predicate Reusable(rows: map<Key, Row>, group: string, id: nat) {
    exists k :: k in rows && !k.kind.DayPass? && k.group == group && rows[k].role == Some(id)
  }

  predicate HasReusable(rows: map<Key, Row>, group: string) {
    exists k :: k in rows && !k.kind.DayPass? && k.group == group && rows[k].role.Some?
  }

  /** The id a grant copies; of several, some one. */
  ghost function RecordedId(rows: map<Key, Row>, group: string): (id: nat)
    requires HasReusable(rows, group)
    ensures Reusable(rows, group, id)
  {
    var k :| k in rows && !k.kind.DayPass? && k.group == group && rows[k].role.Some?;
    rows[k].role.value
  }

  /** The permanent rows of a door that carry an id carry one and the same. */
  ghost predicate IdsAgree(rows: map<Key, Row>) {
    forall g, id, id' :: Reusable(rows, g, id) && Reusable(rows, g, id') ==> id == id'
  }

  /** Recorded role ids are live: true whenever no revoke stopped half way. */
  ghost predicate RowsLive(w: World) {
    forall k :: k in w.rows && !k.kind.DayPass? && w.rows[k].role.Some? ==>
      k.group in w.roles && w.roles[k.group] == w.rows[k].role.value
  }

  lemma LiveIdsAgree(w: World)
    requires RowsLive(w)
    ensures IdsAgree(w.rows)
  {
  }

  /** The mappings whose door has no recorded id. */
  function Needing(rows: map<Key, Row>, ms: seq<Mapping>): seq<Mapping> {
    if ms == [] then []
    else
      var n := |ms| - 1;
      Needing(rows, ms[..n]) + if HasReusable(rows, ms[n].group) then [] else [ms[n]]
  }

  ghost function IdFor(rows: map<Key, Row>, roles: map<string, nat>, group: string): nat {
    if HasReusable(rows, group) then RecordedId(rows, group)
    else if group in roles then roles[group] else 0
  }

  ghost function Planned(rows: map<Key, Row>, roles: map<string, nat>, ms: seq<Mapping>): (p: seq<Assignment>)
    ensures |p| == |ms|
  {
    seq(|ms|, i requires 0 <= i < |ms| =>
      Assignment(ms[i], IdFor(rows, roles, ms[i].group), !HasReusable(rows, ms[i].group)))
  }

  /** The upserts of a grant, each under the id its assignment carries. */
  function RecordEach(w: World, ev: GrantEvent, assignments: seq<Assignment>): World
    decreases |assignments|
  {
    if assignments == [] then w
    else
      var a := assignments[0];
      RecordEach(Record(w, ev.KeyFor(a.m.group), a.m.id, Some(a.role)), ev, assignments[1..])
  }

  /** A completed grant: call for the doors without a recorded id, copy the id of the others, write. */
  ghost function Regranted(w: World, ev: GrantEvent, ms: seq<Mapping>): World {
    var wa := AssignAll(w, Needing(w.rows, ms));
    RecordEach(wa, ev, Planned(w.rows, wa.roles, ms))
  }

  /** Every assignment's role is the live one of a door that had no recorded id, or copied from a row. */
  ghost predicate Grounded(w0: World, w: World, a: Assignment) {
    if HasReusable(w0.rows, a.m.group)
    then !a.called && Reusable(w0.rows, a.m.group, a.role)
    else a.called && a.m.group in w.roles && w.roles[a.m.group] == a.role
  }

  /** The state of the loop after some mappings: opened, in order, are exactly the doors called for. */
  ghost predicate Opened(w0: World, w: World, assignments: seq<Assignment>) {
    && w == AssignAll(w0, Called(assignments))
    && (forall a :: a in assignments ==> Grounded(w0, w, a))
  }

  /** Exactly which assigned doors are open when the loop is through: those called for, and those with
      a recorded id that were open before. */
  lemma OpenedDoors(w0: World, w: World, assignments: seq<Assignment>, a: Assignment)
    requires Opened(w0, w, assignments) && a in assignments
    ensures a.m.group in w.roles <==> (HasReusable(w0.rows, a.m.group) ==> a.m.group in w0.roles)
    ensures forall g :: g in w.roles && g !in w0.roles ==>
              !HasReusable(w0.rows, g) && exists b :: b in assignments && b.m.group == g
  {
    AssignAllRoles(w0, Called(assignments));
    CalledAre(assignments);
    forall g | g in w.roles && g !in w0.roles
      ensures !HasReusable(w0.rows, g) && exists b :: b in assignments && b.m.group == g
    {
      var m :| m in Called(assignments) && m.group == g;
      var b :| b in assignments && b.called && b.m == m;
      assert Grounded(w0, w, b);
    }
    assert Grounded(w0, w, a);
  }

  lemma {:induction false} CalledAre(assignments: seq<Assignment>)
    ensures forall m :: m in Called(assignments) <==> exists a :: a in assignments && a.called && a.m == m
  {
    if assignments != [] {
      var n := |assignments| - 1;
      CalledAre(assignments[..n]);
      assert assignments == assignments[..n] + [assignments[n]];
      forall m ensures m in Called(assignments) <==> exists a :: a in assignments && a.called && a.m == m {
        if m in Called(assignments[..n]) {
          var a :| a in assignments[..n] && a.called && a.m == m;
          assert a in assignments;
        }
        if assignments[n].called && assignments[n].m == m { assert assignments[n] in assignments; }
      }
    }
  }

  // --- The writes ---

  /** The row of key `k` is one of the assignments' rows. */
  ghost predicate WrittenBy(ev: GrantEvent, assignments: seq<Assignment>, k: Key, role: nat) {
    exists a :: a in assignments && k == ev.KeyFor(a.m.group) && a.role == role
  }

  ghost predicate Written(ev: GrantEvent, assignments: seq<Assignment>, k: Key) {
    exists a :: a in assignments && k == ev.KeyFor(a.m.group)
  }

  lemma {:induction false} RecordEachRows(w: World, ev: GrantEvent, assignments: seq<Assignment>)
    ensures var w' := RecordEach(w, ev, assignments);
            && w'.roles == w.roles && w'.links == w.links && w'.nextId == w.nextId
            && (forall k :: k in w'.rows <==> k in w.rows || Written(ev, assignments, k))
            && (forall k :: k in w'.rows && !Written(ev, assignments, k) ==> w'.rows[k] == w.rows[k])
            && (forall k :: k in w'.rows && Written(ev, assignments, k) ==>
                  && w'.rows[k].status.Active? && w'.rows[k].role.Some?
                  && WrittenBy(ev, assignments, k, w'.rows[k].role.value))
    decreases |assignments|
  {
    if assignments != [] {
      var a, rest := assignments[0], assignments[1..];
      var w1 := Record(w, ev.KeyFor(a.m.group), a.m.id, Some(a.role));
      RecordEachRows(w1, ev, rest);
      var w' := RecordEach(w, ev, assignments);
      forall k ensures Written(ev, assignments, k) <==> k == ev.KeyFor(a.m.group) || Written(ev, rest, k) {
        if b :| b in assignments && k == ev.KeyFor(b.m.group) { assert b == a || b in rest; }
      }
      forall k | k in w'.rows && Written(ev, assignments, k)
        ensures w'.rows[k].role.Some? && WrittenBy(ev, assignments, k, w'.rows[k].role.value)
      {
        if Written(ev, rest, k) {
          var b :| b in rest && k == ev.KeyFor(b.m.group) && b.role == w'.rows[k].role.value;
          assert b in assignments;
        } else {
          assert w'.rows[k] == w1.rows[k];
          assert a in assignments;
        }
      }
    }
  }

  lemma {:induction false} RecordEachConcat(w: World, ev: GrantEvent, a: seq<Assignment>, b: seq<Assignment>)
    ensures RecordEach(w, ev, a + b) == RecordEach(RecordEach(w, ev, a), ev, b)
    decreases |a|
  {
    if a == [] {
      assert a + b == b;
    } else {
      assert (a + b)[1..] == a[1..] + b;
      RecordEachConcat(Record(w, ev.KeyFor(a[0].m.group), a[0].m.id, Some(a[0].role)), ev, a[1..], b);
    }
  }

  ghost predicate Recorded(rows: map<Key, Row>, ev: GrantEvent, a: Assignment) {
    var k := ev.KeyFor(a.m.group);
    k in rows && rows[k].role == Some(a.role) && rows[k].status.Active?
  }

  lemma {:induction false} RecordEachAgain(w: World, ev: GrantEvent, assignments: seq<Assignment>)
    requires forall a :: a in assignments ==> Recorded(w.rows, ev, a)
    ensures RecordEach(w, ev, assignments) == w
    decreases |assignments|
  {
    if assignments != [] {
      var a := assignments[0];
      var k := ev.KeyFor(a.m.group);
      assert Recorded(w.rows, ev, a);
      assert w.rows[k := w.rows[k]] == w.rows;
      RecordEachAgain(w, ev, assignments[1..]);
    }
  }

  ghost predicate OneRolePerDoor(assignments: seq<Assignment>) {
    forall a, b :: a in assignments && b in assignments && a.m.group == b.m.group ==> a.role == b.role
  }

  lemma RecordedOnce(w: World, ev: GrantEvent, assignments: seq<Assignment>)
    requires OneRolePerDoor(assignments)
    ensures RecordEach(RecordEach(w, ev, assignments), ev, assignments) == RecordEach(w, ev, assignments)
  {
    var w' := RecordEach(w, ev, assignments);
    RecordEachRows(w, ev, assignments);
    forall a | a in assignments ensures Recorded(w'.rows, ev, a) {
      var k := ev.KeyFor(a.m.group);
      assert Written(ev, assignments, k);
      var b :| b in assignments && k == ev.KeyFor(b.m.group) && b.role == w'.rows[k].role.value;
    }
    RecordEachAgain(w', ev, assignments);
  }

  /** Only mapping and role of an assignment are written, not how it was come by. */
  lemma {:induction false} SameWrites(w: World, ev: GrantEvent, a: seq<Assignment>, b: seq<Assignment>)
    requires |a| == |b| && forall i :: 0 <= i < |a| ==> a[i].m == b[i].m && a[i].role == b[i].role
    ensures RecordEach(w, ev, a) == RecordEach(w, ev, b)
    decreases |a|
  {
    if a != [] {
      SameWrites(Record(w, ev.KeyFor(a[0].m.group), a[0].m.id, Some(a[0].role)), ev, a[1..], b[1..]);
    }
  }

  // --- Stopped and run again ---

  lemma {:induction false} NeedingMembers(rows: map<Key, Row>, ms: seq<Mapping>)
    ensures forall m :: m in Needing(rows, ms) <==> m in ms && !HasReusable(rows, m.group)
  {
    if ms != [] {
      NeedingMembers(rows, ms[..|ms| - 1]);
      assert ms == ms[..|ms| - 1] + [ms[|ms| - 1]];
    }
  }

  lemma {:induction false} NeedingPrefix(rows: map<Key, Row>, ms: seq<Mapping>, i: nat)
    requires i <= |ms|
    ensures Needing(rows, ms[..i]) <= Needing(rows, ms)
  {
    if i < |ms| {
      NeedingPrefix(rows, ms[..|ms| - 1], i);
      assert ms[..|ms| - 1][..i] == ms[..i];
    } else {
      assert ms[..i] == ms;
    }
  }

  lemma AssignPrefixAgain(w: World, ms: seq<Mapping>, n: nat)
    requires n <= |ms|
    ensures AssignAll(AssignAll(w, ms[..n]), ms) == AssignAll(w, ms)
    ensures AssignAll(w, ms[..n]).rows == w.rows
  {
    assert ms[..n] + ms[n..] == ms;
    AssignAllRoles(w, ms[..n]);
    AssignAllConcat(w, ms[..n], ms[n..]);
    AssignAllConcat(AssignAll(w, ms[..n]), ms[..n], ms[n..]);
    AssignAgain(AssignAll(w, ms[..n]), ms[..n]);
  }

  /** Cut off after any number of its door calls, a grant run again ends where the uninterrupted one
      ends, whatever the recorded ids are. */
  lemma CallsCutConverge(w: World, ev: GrantEvent, ms: seq<Mapping>, n: nat)
    requires n <= |Needing(w.rows, ms)|
    ensures Regranted(AssignAll(w, Needing(w.rows, ms)[..n]), ev, ms) == Regranted(w, ev, ms)
  {
    AssignPrefixAgain(w, Needing(w.rows, ms), n);
  }

  lemma PlanIsOneRolePerDoor(rows: map<Key, Row>, roles: map<string, nat>, ms: seq<Mapping>)
    ensures OneRolePerDoor(Planned(rows, roles, ms))
    ensures forall n: nat :: n <= |ms| ==> OneRolePerDoor(Planned(rows, roles, ms)[..n])
  {
  }

  /** After some of the writes every door still has the id the grant uses on it. */
  lemma IdStays(w: World, ev: GrantEvent, roles: map<string, nat>, written: seq<Assignment>, group: string)
    requires IdsAgree(w.rows)
    requires forall a :: a in written ==> a.role == IdFor(w.rows, roles, a.m.group)
    ensures IdFor(RecordEach(w, ev, written).rows, roles, group) == IdFor(w.rows, roles, group)
  {
    RecordEachRows(w, ev, written);
    if HasReusable(w.rows, group) { StillReusable(w, ev, written, group); }
    var rows' := RecordEach(w, ev, written).rows;
    if HasReusable(rows', group) {
      var id := RecordedId(rows', group);
      var k :| k in rows' && !k.kind.DayPass? && k.group == group && rows'[k].role == Some(id);
      if Written(ev, written, k) {
        var a :| a in written && k == ev.KeyFor(a.m.group) && a.role == id;
      } else {
        assert Reusable(w.rows, group, id);
      }
    }
  }

  /** The plan of the rerun differs from the first one at most in what is called for. */
  lemma PlannedAgain(w: World, ev: GrantEvent, roles: map<string, nat>, ms: seq<Mapping>, n: nat)
    requires IdsAgree(w.rows) && n <= |ms|
    ensures var p := Planned(w.rows, roles, ms);
            var p' := Planned(RecordEach(w, ev, p[..n]).rows, roles, ms);
            forall i :: 0 <= i < |ms| ==> p'[i].m == p[i].m && p'[i].role == p[i].role
  {
    var p := Planned(w.rows, roles, ms);
    forall i | 0 <= i < |ms|
      ensures IdFor(RecordEach(w, ev, p[..n]).rows, roles, ms[i].group) == IdFor(w.rows, roles, ms[i].group)
    {
      IdStays(w, ev, roles, p[..n], ms[i].group);
    }
  }

  lemma NoCallsAgain(w: World, ev: GrantEvent, written: seq<Assignment>, ms: seq<Mapping>)
    requires forall m :: m in Needing(w.rows, ms) ==> m.group in w.roles
    ensures var w1 := RecordEach(w, ev, written); AssignAll(w1, Needing(w1.rows, ms)) == w1
  {
    var w1 := RecordEach(w, ev, written);
    RecordEachRows(w, ev, written);
    NeedingMembers(w.rows, ms);
    NeedingMembers(w1.rows, ms);
    forall m | m in Needing(w1.rows, ms) ensures m.group in w1.roles {
      if HasReusable(w.rows, m.group) { StillReusable(w, ev, written, m.group); }
    }
    AssignAgain(w1, Needing(w1.rows, ms));
  }

  lemma WritesAgain(w: World, ev: GrantEvent, p: seq<Assignment>, n: nat)
    requires n <= |p| && OneRolePerDoor(p[..n])
    ensures RecordEach(RecordEach(w, ev, p[..n]), ev, p) == RecordEach(w, ev, p)
  {
    assert p[..n] + p[n..] == p;
    RecordEachConcat(w, ev, p[..n], p[n..]);
    RecordEachConcat(RecordEach(w, ev, p[..n]), ev, p[..n], p[n..]);
    RecordedOnce(w, ev, p[..n]);
  }

  /** Cut off after all door calls and any number of row writes, too, as long as no two rows of a door
      disagree on its id. */
  lemma WritesCutConverge(w: World, ev: GrantEvent, ms: seq<Mapping>, n: nat)
    requires IdsAgree(w.rows) && n <= |ms|
    ensures var wa := AssignAll(w, Needing(w.rows, ms));
            Regranted(RecordEach(wa, ev, Planned(w.rows, wa.roles, ms)[..n]), ev, ms) == Regranted(w, ev, ms)
  {
    var wa := AssignAll(w, Needing(w.rows, ms));
    AssignAllRoles(w, Needing(w.rows, ms));
    var p := Planned(w.rows, wa.roles, ms);
    var w1 := RecordEach(wa, ev, p[..n]);
    RecordEachRows(wa, ev, p[..n]);
    NoCallsAgain(wa, ev, p[..n], ms);
    PlannedAgain(wa, ev, wa.roles, ms, n);
    SameWrites(w1, ev, Planned(w1.rows, w1.roles, ms), p);
    PlanIsOneRolePerDoor(w.rows, wa.roles, ms);
    WritesAgain(wa, ev, p, n);
  }

  lemma StillReusable(w: World, ev: GrantEvent, written: seq<Assignment>, group: string)
    requires HasReusable(w.rows, group)
    ensures HasReusable(RecordEach(w, ev, written).rows, group)
  {
    RecordEachRows(w, ev, written);
    var k :| k in w.rows && !k.kind.DayPass? && k.group == group && w.rows[k].role.Some?;
    assert k in RecordEach(w, ev, written).rows;
  }

  // --- Between completed jobs the reuse makes no difference ---

  lemma {:induction false} NeedingIsEnough(w: World, ms: seq<Mapping>)
    requires RowsLive(w)
    ensures AssignAll(w, Needing(w.rows, ms)) == AssignAll(w, ms)
  {
    if ms != [] {
      var n := |ms| - 1;
      var before := Needing(w.rows, ms[..n]);
      NeedingIsEnough(w, ms[..n]);
      assert ms[..n] + [ms[n]] == ms;
      AssignAllConcat(w, ms[..n], [ms[n]]);
      AssignAllConcat(w, before, [ms[n]]);
      AssignOne(AssignAll(w, before), ms[n]);
      AssignAllRoles(w, before);
      assert before + [] == before;
    }
  }

  lemma AssignOne(w: World, m: Mapping)
    ensures AssignAll(w, [m]) == WithRole(w, m.group)
  {
    assert AssignAll(w, [m]) == AssignAll(WithRole(w, m.group), [m][1..]);
  }

  lemma {:induction false} LiveWrites(w: World, ev: GrantEvent, assignments: seq<Assignment>)
    requires forall m :: m in MappingsOf(assignments) ==> m.group in w.roles
    requires forall a :: a in assignments ==> a.m.group in w.roles && w.roles[a.m.group] == a.role
    ensures RecordEach(w, ev, assignments) == RecordAll(w, ev, MappingsOf(assignments))
    decreases |assignments|
  {
    if assignments != [] {
      assert MappingsOf(assignments)[1..] == MappingsOf(assignments[1..]);
      var a := assignments[0];
      LiveWrites(Record(w, ev.KeyFor(a.m.group), a.m.id, Some(a.role)), ev, assignments[1..]);
    }
  }

  /** When recorded ids are live, copying an id and asking the door system for it come to the same. */
  lemma RegrantIsGranted(w: World, ev: GrantEvent, ms: seq<Mapping>)
    requires RowsLive(w)
    ensures Regranted(w, ev, ms) == Granted(w, ev, ms)
  {
    NeedingIsEnough(w, ms);
    var wa := AssignAll(w, ms);
    AssignAllRoles(w, ms);
    var p := Planned(w.rows, wa.roles, ms);
    assert MappingsOf(p) == ms;
    forall a | a in p ensures a.m.group in wa.roles && wa.roles[a.m.group] == a.role {
      assert a.m in ms;
      if HasReusable(w.rows, a.m.group) {
        var k :| k in w.rows && !k.kind.DayPass? && k.group == a.m.group && w.rows[k].role == Some(a.role);
      }
    }
    LiveWrites(wa, ev, p);
  }

  /** So the histories of completed jobs may take a grant to call for every door. */
  lemma SettledRegrant(w: World, ev: GrantEvent, ms: seq<Mapping>)
    requires Settled(w)
    ensures Regranted(w, ev, ms) == RunJob(w, Grant(ev, ms)) && Settled(Regranted(w, ev, ms))
  {
    RegrantIsGranted(w, ev, ms);
    JobSettles(w, Grant(ev, ms));
  }
}
