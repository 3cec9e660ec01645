/** The revoke jobs as the worker runs them: loops of door-system calls and row deletes over a mutable
    pair of stores, where any call may be refused, may take effect and still look failed, or may
    never be reached because the process died. */
module RevokeJobs {
  import opened Prelude
  import opened DoorWorld
  import opened GrantCancel

  /** `BadRequest`: removeRole without a role id is refused before it reaches the door system. */
  datatype Outcome = Completed | Stopped | BadRequest

  /** Every doomed row that is the last on its door carries the role id to remove. */
  ghost predicate Removable(w: World, doomed: iset<Key>) {
    forall k :: k in w.rows && k in doomed && !k.kind.DayPass? && !Kept(w, doomed, k.group) ==> w.rows[k].role.Some?
  }

  /** The rows a mapping stops granting on `groups`. */
  ghost function Unmapped(w: World, mapping: string, groups: set<string>): iset<Key> {
    iset k | k in w.rows && !k.kind.DayPass? && k.group in groups && w.rows[k].mapping == mapping
  }

  /** `w` is on the way from `w0` to the end of the teardown of `doomed`. */
  ghost predicate Underway(w0: World, w: World, doomed: iset<Key>) {
    && w.nextId == w0.nextId
    && TornDown(w, doomed) == TornDown(w0, doomed)
    && (Backed(w0) && SurvivorsName(w0, doomed) ==> Backed(w) && SurvivorsName(w, doomed))
    && (forall g :: Kept(w, doomed, g) <==> Kept(w0, doomed, g))
    && (forall k :: k in w.rows ==> k in w0.rows && w.rows[k] == w0.rows[k])
    && (forall k :: k in w0.rows && k !in doomed ==> k in w.rows)
  }

  /** The row goes only by its own turn in the loop. */
  ghost predicate OwnTurn(w0: World, doomed: iset<Key>, k: Key) {
    k in doomed && (k.kind.DayPass? || !Kept(w0, doomed, k.group))
  }

  /** Every row of the member. */
  ghost function Everything(w: World): iset<Key> {
    iset k | k in w.rows
  }

  /** SELECT DISTINCT role_assignment_id, source_type: the id and whether it is a day pass. */
  ghost function GrantedIds(rows: map<Key, Row>): set<(nat, bool)> {
    set k | k in rows && rows[k].role.Some? :: (rows[k].role.value, k.kind.DayPass?)
  }

  ghost predicate GoneUpTo(w: World, granted: seq<(nat, bool)>, i: nat)
    requires i <= |granted|
  {
    forall j :: 0 <= j < i ==> if granted[j].1 then granted[j].0 !in w.links else granted[j].0 !in w.roles.Values
  }

  /** Which rows a door change takes away, and which roles: those of the mapping's rows on these doors, where
      no permanent row of another mapping is on the door. */
  lemma DoorChangeMeans(w: World, mapping: string, groups: set<string>)
    ensures var t := TornDown(w, Unmapped(w, mapping, groups));
            && (forall k :: k in w.rows ==>
                  (k !in t.rows <==> k.kind != DayPass && k.group in groups && w.rows[k].mapping == mapping))
            && (forall g :: g in w.roles ==> (g !in t.roles <==>
                  exists k :: && k in w.rows && k.kind != DayPass && k.group in groups && w.rows[k].mapping == mapping
                              && w.rows[k].role == Some(w.roles[g]) && OnlyMapped(w, mapping, k.group)))
  {
    var doomed := Unmapped(w, mapping, groups);
    forall g | g in groups ensures Kept(w, doomed, g) <==> !OnlyMapped(w, mapping, g) {}
  }

  ghost predicate OnlyMapped(w: World, mapping: string, group: string) {
    forall k :: k in w.rows && k.kind != DayPass && k.group == group ==> w.rows[k].mapping == mapping
  }

  lemma AllGranted(w: World, granted: seq<(nat, bool)>)
    requires Enumerates(granted, GrantedIds(w.rows)) && GoneUpTo(w, granted, |granted|)
    ensures forall k :: k in w.rows && w.rows[k].role.Some? ==>
              if k.kind.DayPass? then w.rows[k].role.value !in w.links else w.rows[k].role.value !in w.roles.Values
  {
    forall k | k in w.rows && w.rows[k].role.Some?
      ensures if k.kind.DayPass? then w.rows[k].role.value !in w.links else w.rows[k].role.value !in w.roles.Values
    {
      assert (w.rows[k].role.value, k.kind.DayPass?) in GrantedIds(w.rows);
      assert (w.rows[k].role.value, k.kind.DayPass?) in granted;
    }
  }

  lemma GoneStep(w: World, w': World, granted: seq<(nat, bool)>, i: nat)
    requires i < |granted| && GoneUpTo(w, granted, i)
    requires w'.links <= w.links
    requires forall g :: g in w'.roles ==> g in w.roles && w'.roles[g] == w.roles[g]
    requires if granted[i].1 then granted[i].0 !in w'.links else granted[i].0 !in w'.roles.Values
    ensures GoneUpTo(w', granted, i + 1)
  {
    forall id | id in w'.roles.Values ensures id in w.roles.Values {
      var g :| g in w'.roles && w'.roles[g] == id;
      assert w.roles[g] in w.roles.Values;
    }
  }

  /** All ids gone, the rows are dropped in one transaction. */
  lemma NoRowsNoTeardown(w: World, doomed: iset<Key>)
    requires w.rows == map[]
    ensures TornDown(w, doomed) == w
  {
  }

  /** A deletion of everything named by a row leaves nothing if everything was. */
  lemma EverythingGone(w: World)
    requires Backed(w)
    ensures var t := TornDown(w, Everything(w)); t.rows == map[] && t.roles == map[] && t.links == {}
  {
    var doomed := Everything(w);
    forall g | g in w.roles ensures RoleGoes(w, doomed, w.roles[g]) {
      var k :| Names(w, k, g, w.roles[g]);
      assert !Kept(w, doomed, k.group);
    }
  }

  lemma EndOfDeletion(w0: World, w: World, granted: seq<(nat, bool)>)
    requires Underway(w0, w, Everything(w0)) && w.rows == w0.rows
    requires Enumerates(granted, GrantedIds(w.rows)) && GoneUpTo(w, granted, |granted|)
    ensures var cleared := w.(rows := map[]);
            && cleared == TornDown(w0, Everything(w0)) == TornDown(cleared, Everything(w0))
            && (Backed(w0) ==> cleared.roles == map[] && cleared.links == {} && Backed(cleared))
  {
    var cleared := w.(rows := map[]);
    assert forall g :: g in w.roles ==> w.roles[g] in w.roles.Values;
    AllGranted(w, granted);
    NothingLeftIsEnd(cleared, Everything(w0));
    assert TornDown(w, Everything(w0)).roles == w.roles by {
      forall g | g in w.roles ensures !RoleGoes(w, Everything(w0), w.roles[g]) {
        assert w.roles[g] in w.roles.Values;
      }
    }
    assert TornDown(w, Everything(w0)).links == w.links;
    if Backed(w0) {
      forall g ensures !Kept(w0, Everything(w0), g) {}
      assert Backed(w);
    }
  }

  /** After one call, whichever way it ended. */
  lemma AfterCall(w0: World, w: World, w': World, doomed: iset<Key>, a: Act)
    requires Underway(w0, w, doomed) && Legal(w, doomed, a)
    requires w' == w || w' == Apply(w, a)
    ensures Underway(w0, w', doomed)
  {
    StepKeepsEnd(w, doomed, a);
    forall g ensures Kept(w', doomed, g) <==> Kept(w, doomed, g) { KeptStep(w, doomed, a, g); }
    if Backed(w) && SurvivorsName(w, doomed) { StepKeepsBacked(w, doomed, a); }
  }

  /** The first `i` rows read have had their turn, the others are still to come. */
  ghost predicate Progress(w0: World, w: World, doomed: iset<Key>, order: seq<Key>, i: nat) {
    && i <= |order| && Enumerates(order, w0.rows.Keys)
    && Underway(w0, w, doomed)
    && (forall j :: 0 <= j < i && order[j] in doomed ==> order[j] !in w.rows)
    && (forall j :: i <= j < |order| && OwnTurn(w0, doomed, order[j]) ==> order[j] in w.rows)
    && (forall j :: 0 <= j < i && OwnTurn(w0, doomed, order[j]) && !order[j].kind.DayPass? ==>
         w0.rows[order[j]].role.Some?)
  }

  lemma ProgressStep(w0: World, w: World, w': World, doomed: iset<Key>, order: seq<Key>, i: nat)
    requires Progress(w0, w, doomed, order, i) && i < |order|
    requires Underway(w0, w', doomed) && w'.rows.Keys <= w.rows.Keys
    requires order[i] in doomed ==> order[i] !in w'.rows
    requires OwnTurn(w0, doomed, order[i]) && !order[i].kind.DayPass? ==> w0.rows[order[i]].role.Some?
    requires forall o :: o in w.rows && o != order[i] && OwnTurn(w0, doomed, o) ==> o in w'.rows
    ensures Progress(w0, w', doomed, order, i + 1)
  {
    forall j | 0 <= j < i && order[j] in doomed ensures order[j] !in w'.rows {
      assert order[j] !in w.rows.Keys;
    }
  }

  lemma ProgressDone(w0: World, w: World, doomed: iset<Key>, order: seq<Key>)
    requires Progress(w0, w, doomed, order, |order|)
    ensures w == TornDown(w0, doomed) && Removable(w0, doomed)
  {
    forall k | k in w.rows ensures k !in doomed { assert k in order; }
    NothingLeftIsEnd(w, doomed);
    forall k | k in w0.rows && k in doomed && !k.kind.DayPass? && !Kept(w0, doomed, k.group)
        ensures w0.rows[k].role.Some? {
      assert k in order && OwnTurn(w0, doomed, k);
    }
  }

  /** The rows that would keep the door of `own` open once `own` is deleted. */
  function RemainingBeside(rows: map<Key, Row>, own: Key): set<Key> {
    set o | o in rows && !o.kind.DayPass? && o.group == own.group && o != own
  }

  lemma RemainingIsKept(w: World, ev: CancelEvent, group: string)
    ensures RemainingBeside(w.rows, Key(ev.Kind(), ev.plan, group)) != {} <==> Kept(w, ev.Doomed(), group)
  {
    var own := Key(ev.Kind(), ev.plan, group);
    var remaining := RemainingBeside(w.rows, own);
    if o :| o in remaining { assert o in w.rows && o !in ev.Doomed(); }
    if o :| o in w.rows && !o.kind.DayPass? && o.group == group && o !in ev.Doomed() { assert o in remaining; }
  }

  /** OTHER_PLAN_KEEPS_DOOR_SQL */
  predicate OtherPlanKeepsDoor(rows: map<Key, Row>, mapping: string, group: string) {
    exists o :: o in rows && !o.kind.DayPass? && o.group == group && rows[o].mapping != mapping
  }

  lemma OtherPlanIsKept(w0: World, w: World, mapping: string, groups: set<string>, group: string)
    requires Underway(w0, w, Unmapped(w0, mapping, groups)) && group in groups
    ensures OtherPlanKeepsDoor(w.rows, mapping, group) <==> Kept(w, Unmapped(w0, mapping, groups), group)
  {
    var doomed := Unmapped(w0, mapping, groups);
    if o :| o in w.rows && !o.kind.DayPass? && o.group == group && w.rows[o].mapping != mapping {
      assert o !in doomed;
    }
    if o :| o in w.rows && !o.kind.DayPass? && o.group == group && o !in doomed {
      assert w.rows[o].mapping != mapping;
    }
  }

  lemma AbsentRow(w: World, k: Key)
    requires k !in w.rows
    ensures WithoutRow(w, k) == w
  {
    assert w.rows - {k} == w.rows;
  }

  /** The rows that are left, in the order they were read before. */
  function StillThere(order: seq<Key>, left: set<Key>): (again: seq<Key>)
    requires left <= set k | k in order
    requires forall i, j :: 0 <= i < j < |order| ==> order[i] != order[j]
    ensures Enumerates(again, left) && |again| <= |order|
  {
    if order == [] then []
    else
      var n := |order| - 1;
      assert order == order[..n] + [order[n]];
      var before := StillThere(order[..n], left - {order[n]});
      assert order[n] !in before;
      if order[n] in left then before + [order[n]] else before
  }

  class Stores {
    var rows: map<Key, Row>
    var roles: map<string, nat>
    var links: set<nat>
    var nextId: nat
    var script: seq<Answer>

    ghost function View(): World
      reads this
    {
      World(rows, roles, links, nextId)
    }

    method RemoveRole(id: nat) returns (ok: bool)
      modifies this`roles, this`script
      ensures View() == old(View()) || View() == WithoutRole(old(View()), id)
      ensures ok ==> View() == WithoutRole(old(View()), id)
      ensures ok == Succeeds(old(script))
      ensures script == Rest(old(script))
    {
      var took := Takes(script);
      ok := Succeeds(script);
      script := Rest(script);
      if took { roles := map g | g in roles && roles[g] != id :: roles[g]; }
    }

    method DeleteGroupLink(id: nat) returns (ok: bool)
      modifies this`links, this`script
      ensures View() == old(View()) || View() == WithoutLink(old(View()), id)
      ensures ok ==> View() == WithoutLink(old(View()), id)
      ensures ok == Succeeds(old(script))
      ensures script == Rest(old(script))
    {
      var took := Takes(script);
      ok := Succeeds(script);
      script := Rest(script);
      if took { links := links - {id}; }
    }

    method DeleteRow(k: Key) returns (ok: bool)
      modifies this`rows, this`script
      ensures View() == old(View()) || View() == WithoutRow(old(View()), k)
      ensures ok ==> View() == WithoutRow(old(View()), k)
      ensures ok == Succeeds(old(script))
      ensures script == Rest(old(script))
    {
      var took := Takes(script);
      ok := Succeeds(script);
      script := Rest(script);
      if took { rows := rows - {k}; }
    }

    /** completeRevoke('deleted'): one transaction. */
    method DeleteAllRows() returns (ok: bool)
      modifies this`rows, this`script
      ensures View() == old(View()) || View() == old(View()).(rows := map[])
      ensures ok ==> View() == old(View()).(rows := map[])
      ensures ok == Succeeds(old(script))
      ensures script == Rest(old(script))
    {
      var took := Takes(script);
      ok := Succeeds(script);
      script := Rest(script);
      if took { rows := map[]; }
    }

    /** One day-pass row of a cancel: its link, then the row, if the event names it. */
    method CancelPassRow(ev: CancelEvent, k: Key, row: Row, ghost w0: World) returns (out: Outcome)
      requires k in w0.rows && w0.rows[k] == row && k.kind.DayPass?
      requires Underway(w0, View(), ev.Doomed())
      requires k in ev.Doomed() ==> k in rows
      modifies this
      ensures Underway(w0, View(), ev.Doomed())
      ensures out.Completed? && k in ev.Doomed() ==> k !in rows
      ensures rows.Keys <= old(rows.Keys) && forall o :: o in old(rows) && o != k ==> o in rows
      ensures old(AllOk(script) && |script| >= 2) ==> out.Completed?
      ensures !out.BadRequest?
      ensures old(AllOk(script)) ==> AllOk(script) && |script| >= |old(script)| - 2
    {
      ghost var doomed := ev.Doomed();
      if ev.Names(k) {
        if row.role.Some? {
          ghost var w1 := View();
          var ok := DeleteGroupLink(row.role.value);
          AfterCall(w0, w1, View(), doomed, DropLink(k));
          if !ok { return Stopped; }
        }
        ghost var w2 := View();
        var ok := DeleteRow(k);
        AfterCall(w0, w2, View(), doomed, DropRow(k));
        if !ok { return Stopped; }
      }
      return Completed;
    }

    /** One permanent row of a cancel. The door is closed only if no row would remain on it once
        this event's own row is gone; the door call comes before the row delete. */
    method CancelDoorRow(ev: CancelEvent, k: Key, row: Row, ghost w0: World) returns (out: Outcome)
      requires k in w0.rows && w0.rows[k] == row && !k.kind.DayPass?
      requires Underway(w0, View(), ev.Doomed())
      requires OwnTurn(w0, ev.Doomed(), k) ==> k in rows
      modifies this
      ensures Underway(w0, View(), ev.Doomed())
      ensures out.Completed? && k in ev.Doomed() ==> k !in rows
      ensures out.Completed? && OwnTurn(w0, ev.Doomed(), k) ==> row.role.Some?
      ensures rows.Keys <= old(rows.Keys)
      ensures forall o :: o in old(rows) && o != k && OwnTurn(w0, ev.Doomed(), o) ==> o in rows
      ensures old(AllOk(script) && |script| >= 2) && (OwnTurn(w0, ev.Doomed(), k) ==> row.role.Some?) ==> out.Completed?
      ensures out.BadRequest? ==> OwnTurn(w0, ev.Doomed(), k) && row.role.None?
      ensures out.Stopped? ==> !old(AllOk(script) && |script| >= 2)
      ensures old(AllOk(script)) ==> AllOk(script) && |script| >= |old(script)| - 2
    {
      ghost var w1, doomed := View(), ev.Doomed();
      var own := Key(ev.Kind(), ev.plan, k.group);
      RemainingIsKept(w1, ev, k.group);
      if RemainingBeside(rows, own) == {} {
        assert k == own && OwnTurn(w0, doomed, k);
        if row.role.None? { return BadRequest; }
        var ok := RemoveRole(row.role.value);
        AfterCall(w0, w1, View(), doomed, DropRole(k));
        if !ok { return Stopped; }
      }
      ghost var w2 := View();
      var ok := DeleteRow(own);
      if own in w2.rows {
        AfterCall(w0, w2, View(), doomed, DropRow(own));
      } else {
        AbsentRow(w2, own);
      }
      if !ok { return Stopped; }
      return Completed;
    }

    method CancelRow(ev: CancelEvent, k: Key, row: Row, ghost w0: World) returns (out: Outcome)
      requires k in w0.rows && w0.rows[k] == row
      requires Underway(w0, View(), ev.Doomed())
      requires OwnTurn(w0, ev.Doomed(), k) ==> k in rows
      modifies this
      ensures Underway(w0, View(), ev.Doomed())
      ensures out.Completed? && k in ev.Doomed() ==> k !in rows
      ensures out.Completed? && OwnTurn(w0, ev.Doomed(), k) && !k.kind.DayPass? ==> row.role.Some?
      ensures rows.Keys <= old(rows.Keys)
      ensures forall o :: o in old(rows) && o != k && OwnTurn(w0, ev.Doomed(), o) ==> o in rows
      ensures old(AllOk(script) && |script| >= 2)
                && (OwnTurn(w0, ev.Doomed(), k) && !k.kind.DayPass? ==> row.role.Some?) ==>
                out.Completed?
      ensures out.BadRequest? ==> OwnTurn(w0, ev.Doomed(), k) && !k.kind.DayPass? && row.role.None?
      ensures out.Stopped? ==> !old(AllOk(script) && |script| >= 2)
      ensures old(AllOk(script)) ==> AllOk(script) && |script| >= |old(script)| - 2
    {
      if k.kind.DayPass? {
        out := CancelPassRow(ev, k, row, w0);
      } else {
        out := CancelDoorRow(ev, k, row, w0);
      }
    }

    /** plan.cancelled and booking.cancelled, over the rows in whatever order they were read. However
        it ends, the end state it was heading for has not moved and nothing live is unnamed; if it
        completes it is there. It completes on a healthy run exactly if every last row on a door
        carries its role id. */
    method ProcessCancel(ev: CancelEvent, order: seq<Key>) returns (out: Outcome)
      requires Enumerates(order, rows.Keys)
      modifies this
      ensures TornDown(View(), ev.Doomed()) == TornDown(old(View()), ev.Doomed())
      ensures old(Backed(View()) && SurvivorsName(View(), ev.Doomed())) ==> Backed(View())
      ensures out.Completed? ==> View() == TornDown(old(View()), ev.Doomed()) && old(Removable(View(), ev.Doomed()))
      ensures out.Completed? ==> forall k :: k in rows && k.kind != DayPass ==> !Of(k, ev.booking, ev.plan)
      ensures forall k :: k in old(rows) && k.kind != DayPass && !Of(k, ev.booking, ev.plan) ==>
                k in rows && rows[k] == old(rows[k])
      ensures old(Removable(View(), ev.Doomed()) && AllOk(script) && |script| >= 2 * |order|) ==> out.Completed?
      ensures rows.Keys <= old(rows.Keys)
      ensures old(Removable(View(), ev.Doomed())) ==> Removable(View(), ev.Doomed())
      ensures out.BadRequest? ==> !old(Removable(View(), ev.Doomed()))
      ensures out.Stopped? ==> !old(AllOk(script) && |script| >= 2 * |order|)
    {
      ghost var w0, doomed := View(), ev.Doomed();
      var seen := rows;
      var i := 0;
      while i < |order|
        invariant Progress(w0, View(), doomed, order, i)
        invariant old(AllOk(script)) ==> AllOk(script) && |script| >= |old(script)| - 2 * i
      {
        ghost var w := View();
        out := CancelRow(ev, order[i], seen[order[i]], w0);
        if !out.Completed? { return; }
        ProgressStep(w0, w, View(), doomed, order, i);
        i := i + 1;
      }
      ProgressDone(w0, View(), doomed, order);
      return Completed;
    }

    /** The whole event again, however the first attempt ended: with no call failing, the retry completes
        and is where the uninterrupted cancel would have been, whenever that one could have completed at
        all. */
    method CancelAndRetry(ev: CancelEvent, order: seq<Key>, retry: seq<Answer>)
        returns (first: Outcome, second: Outcome)
      requires Enumerates(order, rows.Keys)
      requires AllOk(retry) && |retry| >= 2 * |order|
      modifies this
      ensures old(Removable(View(), ev.Doomed())) ==>
                second.Completed? && View() == TornDown(old(View()), ev.Doomed())
      ensures second.Completed? ==> View() == TornDown(old(View()), ev.Doomed())
    {
      first := ProcessCancel(ev, order);
      script := retry;
      var again := StillThere(order, rows.Keys);
      second := ProcessCancel(ev, again);
    }

    method CloseOne(id: nat, isPass: bool, ghost w0: World) returns (ok: bool)
      requires Underway(w0, View(), Everything(w0)) && (id, isPass) in GrantedIds(rows)
      modifies this`roles, this`links, this`script
      ensures Underway(w0, View(), Everything(w0))
      ensures forall g :: g in roles ==> g in old(roles) && roles[g] == old(roles)[g]
      ensures links <= old(links)
      ensures ok ==> if isPass then id !in links else id !in roles.Values
      ensures ok == Succeeds(old(script))
      ensures script == Rest(old(script))
    {
      ghost var w, doomed := View(), Everything(w0);
      ghost var k :| k in rows && rows[k].role == Some(id) && k.kind.DayPass? == isPass;
      if isPass {
        ok := DeleteGroupLink(id);
        AfterCall(w0, w, View(), doomed, DropLink(k));
      } else {
        ok := RemoveRole(id);
        AfterCall(w0, w, View(), doomed, DropRole(k));
      }
    }

    method CloseAll(granted: seq<(nat, bool)>, ghost w0: World) returns (ok: bool)
      requires w0 == View() && Enumerates(granted, GrantedIds(rows))
      modifies this`roles, this`links, this`script
      ensures Underway(w0, View(), Everything(w0))
      ensures ok ==> GoneUpTo(View(), granted, |granted|)
      ensures old(AllOk(script)) && |old(script)| >= |granted| ==> ok
      ensures old(AllOk(script)) ==> AllOk(script) && |script| >= |old(script)| - |granted|
    {
      var i := 0;
      while i < |granted|
        invariant 0 <= i <= |granted|
        invariant Underway(w0, View(), Everything(w0))
        invariant GoneUpTo(View(), granted, i)
        invariant old(AllOk(script)) ==> AllOk(script) && |script| >= |old(script)| - i
      {
        ghost var w := View();
        assert granted[i] in granted;
        ok := CloseOne(granted[i].0, granted[i].1, w0);
        if !ok { return; }
        GoneStep(w, View(), granted, i);
        i := i + 1;
      }
      return true;
    }

    /** member.deleted: every role and link some row names goes, then all rows at once. */
    method DeleteMember(granted: seq<(nat, bool)>) returns (out: Outcome)
      requires Enumerates(granted, GrantedIds(rows))
      modifies this
      ensures TornDown(View(), Everything(old(View()))) == TornDown(old(View()), Everything(old(View())))
      ensures old(Backed(View())) ==> Backed(View())
      ensures out.Completed? ==> View() == TornDown(old(View()), Everything(old(View())))
      ensures out.Completed? && old(Backed(View())) ==> roles == map[] && links == {} && rows == map[]
      ensures old(AllOk(script)) && |old(script)| > |granted| ==> out.Completed?
      ensures rows == old(rows) || rows == map[]
      ensures out.Completed? || (out.Stopped? && !old(AllOk(script) && |script| > |granted|))
    {
      ghost var w0 := View();
      var ok := CloseAll(granted, w0);
      if !ok { return Stopped; }
      ghost var w := View();
      ok := DeleteAllRows();
      EndOfDeletion(w0, w, granted);
      return if ok then Completed else Stopped;
    }

    /** The whole event again, however the first attempt ended, the loss of all rows without an answer
        included: with no call failing it completes and is where the uninterrupted deletion would have
        been. Nothing live was unnamed before: then nothing of the member is left. */
    method DeleteAndRetry(granted: seq<(nat, bool)>, retry: seq<Answer>) returns (first: Outcome, second: Outcome)
      requires Enumerates(granted, GrantedIds(rows))
      requires AllOk(retry) && |retry| > |granted|
      modifies this
      ensures second.Completed? && View() == TornDown(old(View()), Everything(old(View())))
      ensures old(Backed(View())) ==> roles == map[] && links == {} && rows == map[]
    {
      ghost var w0 := View();
      first := DeleteMember(granted);
      script := retry;
      ghost var w := View();
      if rows == map[] {
        NoRowsNoTeardown(w, Everything(w0));
        NoRowsNoTeardown(w, Everything(w));
        second := DeleteMember([]);
      } else {
        second := DeleteMember(granted);
      }
      if Backed(w0) { EverythingGone(w0); }
    }

    /** One door of one plan taken off one member: door system first, then the row, and the row
        stays if the door call failed. Never throws. */
    method RevokeMappingSource(mapping: string, k: Key, role: Option<nat>, ghost w0: World, ghost groups: set<string>)
      returns (done: bool)
      requires k in Unmapped(w0, mapping, groups) && w0.rows[k].role == role
      requires Underway(w0, View(), Unmapped(w0, mapping, groups))
      modifies this
      ensures Underway(w0, View(), Unmapped(w0, mapping, groups))
      ensures rows.Keys <= old(rows.Keys) && forall o :: o in old(rows) && o != k ==> o in rows
      ensures !done ==> k in rows
      ensures done <==> !(&& k in old(rows) && role.Some? && !Kept(w0, Unmapped(w0, mapping, groups), k.group)
                          && !Succeeds(old(script)))
      ensures old(AllOk(script)) && |old(script)| >= 2 ==> k !in rows
      ensures old(AllOk(script)) ==> AllOk(script) && |script| >= |old(script)| - 2
    {
      ghost var w, doomed := View(), Unmapped(w0, mapping, groups);
      if k !in rows { return true; }
      OtherPlanIsKept(w0, w, mapping, groups, k.group);
      if !OtherPlanKeepsDoor(rows, mapping, k.group) && role.Some? {
        var ok := RemoveRole(role.value);
        AfterCall(w0, w, View(), doomed, DropRole(k));
        if !ok { return false; }
      }
      ghost var w2 := View();
      var _ := DeleteRow(k);
      AfterCall(w0, w2, View(), doomed, DropRow(k));
      return true;
    }

    /** A door change of the plan mapping page over all rows it takes away, in any order. */
    method TakeDoorsOff(mapping: string, groups: set<string>, order: seq<Key>)
      requires forall k :: k in order <==> k in Unmapped(View(), mapping, groups)
      requires forall i, j :: 0 <= i < j < |order| ==> order[i] != order[j]
      modifies this
      ensures TornDown(View(), Unmapped(View(), mapping, groups)) ==
                TornDown(old(View()), Unmapped(old(View()), mapping, groups))
      ensures old(Backed(View()) && SurvivorsName(View(), Unmapped(View(), mapping, groups))) ==> Backed(View())
      ensures old(AllOk(script)) && |old(script)| >= 2 * |order| ==>
                View() == TornDown(old(View()), Unmapped(old(View()), mapping, groups))
    {
      ghost var w0, doomed := View(), Unmapped(View(), mapping, groups);
      var seen := rows;
      var i := 0;
      while i < |order|
        invariant 0 <= i <= |order|
        invariant Underway(w0, View(), doomed)
        invariant old(AllOk(script)) ==> AllOk(script) && |script| >= |old(script)| - 2 * i
        invariant old(AllOk(script)) && |old(script)| >= 2 * |order| ==>
                    forall j :: 0 <= j < i ==> order[j] !in rows.Keys
      {
        ghost var before := rows.Keys;
        assert order[i] in order;
        var _ := RevokeMappingSource(mapping, order[i], seen[order[i]].role, w0, groups);
        assert rows.Keys <= before;
        i := i + 1;
      }
      ghost var now := View();
      SameDoomedRows(now, doomed, Unmapped(now, mapping, groups));
      if old(AllOk(script)) && |old(script)| >= 2 * |order| {
        NothingLeftIsEnd(now, doomed);
      }
    }
  }
}
