/** One member's source rows and what the door system holds for that member, as values, with the
    meaning of each job on them. A teardown (plan cancelled, member deleted, door taken off a plan)
    is a set of doomed rows; its end state is a set comprehension, and every single door-system or
    row call a teardown makes leaves that end state where it was. */
module DoorWorld {
  import opened Prelude
  import DayPassKeys

  datatype Kind = Plan | Booking | DayPass

  datatype SourceStatus = Active | Failed | PendingHardware | PendingStart | Draft

  /** The UNIQUE key of a source row within one member: source_type, source_plan_id ("" for
      null), hardware_group_id. */
  datatype Key = Key(kind: Kind, plan: string, group: string)

  /** `role` is role_assignment_id: a role on the group, or the group link of a day pass. */
  datatype Row = Row(mapping: string, role: Option<nat>, status: SourceStatus)

  /** `roles` has at most one role per group: the door system answers 409 to a second one. */
  datatype World = World(rows: map<Key, Row>, roles: map<string, nat>, links: set<nat>, nextId: nat)

  const EMPTY_WORLD := World(map[], map[], {}, 0)

  // --- One call each ---

  function WithoutRole(w: World, id: nat): World {
    w.(roles := map g | g in w.roles && w.roles[g] != id :: w.roles[g])
  }

  function WithoutLink(w: World, id: nat): World {
    w.(links := w.links - {id})
  }

  function WithoutRow(w: World, k: Key): World {
    w.(rows := w.rows - {k})
  }

  function WithRow(w: World, k: Key, row: Row): World {
    w.(rows := w.rows[k := row])
  }

  /** assignRole: an existing pair keeps its id. */
  function WithRole(w: World, group: string): World {
    if group in w.roles then w else w.(roles := w.roles[group := w.nextId], nextId := w.nextId + 1)
  }

  // --- Invariants ---

  /** A permanent row on `g` names the role `id`. */
  ghost predicate Names(w: World, k: Key, g: string, id: nat) {
    k in w.rows && !k.kind.DayPass? && k.group == g && w.rows[k].role == Some(id)
  }

  /** Every live role and every live link is named by some row, so a revoke can find it. */
  ghost predicate Backed(w: World) {
    && (forall g :: g in w.roles ==> exists k :: Names(w, k, g, w.roles[g]))
    && (forall l :: l in w.links ==> exists k :: k in w.rows && k.kind.DayPass? && w.rows[k].role == Some(l))
  }

  /** A live role is only ever named by rows on its own group. */
  ghost predicate OwnDoor(w: World) {
    forall k, g :: k in w.rows && !k.kind.DayPass? && g in w.roles && w.rows[k].role == Some(w.roles[g]) ==>
        k.group == g
  }

  ghost predicate RolesDistinct(w: World) {
    forall g, h :: g in w.roles && h in w.roles && w.roles[g] == w.roles[h] ==> g == h
  }

  /** What holds between completed jobs: permanent rows on a group all carry the id of the one
      live role of that group, and a role is live only while such a row exists. */
  ghost predicate Settled(w: World) {
    && (forall k :: k in w.rows && !k.kind.DayPass? ==> k.group in w.roles && w.rows[k].role == Some(w.roles[k.group]))
    && Backed(w)
    && RolesDistinct(w)
    && (forall g :: g in w.roles ==> w.roles[g] < w.nextId)
  }

  // --- Teardown ---

  /** A permanent row that is not doomed still needs the door. */
  ghost predicate Kept(w: World, doomed: iset<Key>, g: string) {
    exists k :: k in w.rows && !k.kind.DayPass? && k.group == g && k !in doomed
  }

  ghost predicate RoleGoes(w: World, doomed: iset<Key>, id: nat) {
    exists k :: k in w.rows && !k.kind.DayPass? && k in doomed && w.rows[k].role == Some(id)
        && !Kept(w, doomed, k.group)
  }

  ghost predicate LinkGoes(w: World, doomed: iset<Key>, id: nat) {
    exists k :: k in w.rows && k.kind.DayPass? && k in doomed && w.rows[k].role == Some(id)
  }

  /** The end state of a teardown. No order of the rows enters into it. */
  ghost function TornDown(w: World, doomed: iset<Key>): World {
    World(
      map k | k in w.rows && k !in doomed :: w.rows[k],
      map g | g in w.roles && !RoleGoes(w, doomed, w.roles[g]) :: w.roles[g],
      (set l | l in w.links && !LinkGoes(w, doomed, l)),
      w.nextId)
  }

  /** The calls a teardown makes, each with the check the code makes first. */
  datatype Act = DropRole(k: Key) | DropLink(k: Key) | DropRow(k: Key)

  ghost predicate Legal(w: World, doomed: iset<Key>, a: Act) {
    && a.k in w.rows && a.k in doomed
    && var row := w.rows[a.k];
       match a
       case DropRole(k) => !k.kind.DayPass? && row.role.Some? && !Kept(w, doomed, k.group)
       case DropLink(k) => k.kind.DayPass? && row.role.Some?
       case DropRow(k) =>
         if k.kind.DayPass? then row.role.Some? ==> row.role.value !in w.links
         else Kept(w, doomed, k.group) || (row.role.Some? ==> row.role.value !in w.roles.Values)
  }

  function Apply(w: World, a: Act): World
    requires a.k in w.rows
    requires !a.DropRow? ==> w.rows[a.k].role.Some?
  {
    match a
    case DropRole(k) => WithoutRole(w, w.rows[k].role.value)
    case DropLink(k) => WithoutLink(w, w.rows[k].role.value)
    case DropRow(k) => WithoutRow(w, k)
  }

  /** Some surviving row names the role of every door the teardown leaves open. */
  ghost predicate SurvivorsName(w: World, doomed: iset<Key>) {
    forall g :: g in w.roles && Kept(w, doomed, g) ==> exists k :: k !in doomed && Names(w, k, g, w.roles[g])
  }

  lemma KeptStep(w: World, doomed: iset<Key>, a: Act, g: string)
    requires Legal(w, doomed, a)
    ensures Kept(Apply(w, a), doomed, g) <==> Kept(w, doomed, g)
  {
    var w' := Apply(w, a);
    if k :| k in w.rows && !k.kind.DayPass? && k.group == g && k !in doomed {
      assert k in w'.rows;
    }
  }

  /** Heart of crash and retry: a single call never moves the end state. */
  lemma StepKeepsEnd(w: World, doomed: iset<Key>, a: Act)
    requires Legal(w, doomed, a)
    ensures TornDown(Apply(w, a), doomed) == TornDown(w, doomed)
  {
    var w' := Apply(w, a);
    forall g ensures Kept(w', doomed, g) <==> Kept(w, doomed, g) { KeptStep(w, doomed, a, g); }
    forall g | g in w'.roles
      ensures RoleGoes(w', doomed, w.roles[g]) <==> RoleGoes(w, doomed, w.roles[g])
    {
      RoleGoesStep(w, doomed, a, g);
    }
    forall g | g in w.roles && g !in w'.roles ensures RoleGoes(w, doomed, w.roles[g]) {
      assert a.DropRole? && w.roles[g] == w.rows[a.k].role.value;
    }
    forall l | l in w'.links ensures LinkGoes(w', doomed, l) <==> LinkGoes(w, doomed, l) {
      LinkGoesStep(w, doomed, a, l);
    }
    assert TornDown(w', doomed).rows == TornDown(w, doomed).rows;
    assert TornDown(w', doomed).roles == TornDown(w, doomed).roles;
    assert TornDown(w', doomed).links == TornDown(w, doomed).links;
  }

  lemma RoleGoesStep(w: World, doomed: iset<Key>, a: Act, g: string)
    requires Legal(w, doomed, a)
    requires g in Apply(w, a).roles
    ensures RoleGoes(Apply(w, a), doomed, w.roles[g]) <==> RoleGoes(w, doomed, w.roles[g])
  {
    var w' := Apply(w, a);
    var id := w.roles[g];
    forall h ensures Kept(w', doomed, h) <==> Kept(w, doomed, h) { KeptStep(w, doomed, a, h); }
    if RoleGoes(w, doomed, id) {
      var k :| k in w.rows && !k.kind.DayPass? && k in doomed && w.rows[k].role == Some(id)
          && !Kept(w, doomed, k.group);
      assert id in w.roles.Values;
      assert k in w'.rows;
    }
  }

  lemma LinkGoesStep(w: World, doomed: iset<Key>, a: Act, l: nat)
    requires Legal(w, doomed, a)
    requires l in Apply(w, a).links
    ensures LinkGoes(Apply(w, a), doomed, l) <==> LinkGoes(w, doomed, l)
  {
    var w' := Apply(w, a);
    if LinkGoes(w, doomed, l) {
      var k :| k in w.rows && k.kind.DayPass? && k in doomed && w.rows[k].role == Some(l);
      assert k in w'.rows;
    }
  }

  /** Between two calls nothing live is unnamed. */
  lemma StepKeepsBacked(w: World, doomed: iset<Key>, a: Act)
    requires Legal(w, doomed, a) && Backed(w) && SurvivorsName(w, doomed)
    ensures Backed(Apply(w, a)) && SurvivorsName(Apply(w, a), doomed)
  {
    var w' := Apply(w, a);
    forall g ensures Kept(w', doomed, g) <==> Kept(w, doomed, g) { KeptStep(w, doomed, a, g); }
    forall g | g in w'.roles && Kept(w', doomed, g)
      ensures exists k :: k !in doomed && Names(w', k, g, w'.roles[g])
    {
      var k :| k !in doomed && Names(w, k, g, w.roles[g]);
      assert Names(w', k, g, w'.roles[g]);
    }
    forall g | g in w'.roles ensures exists k :: Names(w', k, g, w'.roles[g]) {
      if !Kept(w', doomed, g) {
        var k :| Names(w, k, g, w.roles[g]);
        assert w.roles[g] in w.roles.Values;
        assert Names(w', k, g, w'.roles[g]);
      }
    }
    forall l | l in w'.links ensures exists k :: k in w'.rows && k.kind.DayPass? && w'.rows[k].role == Some(l) {
      var k :| k in w.rows && k.kind.DayPass? && w.rows[k].role == Some(l);
      assert k in w'.rows;
    }
  }

  ghost predicate LegalRun(w: World, doomed: iset<Key>, acts: seq<Act>)
    decreases |acts|
  {
    acts == [] || (Legal(w, doomed, acts[0]) && LegalRun(Apply(w, acts[0]), doomed, acts[1..]))
  }

  ghost function After(w: World, doomed: iset<Key>, acts: seq<Act>): World
    requires LegalRun(w, doomed, acts)
    decreases |acts|
  {
    if acts == [] then w else After(Apply(w, acts[0]), doomed, acts[1..])
  }

  /** Stop a teardown wherever you like, in whatever order it handled the rows, and start it again
      any number of times: the end state is the one the first run was heading for, and at the stop
      every live role and link still has a row that names it. */
  lemma {:induction false} InterruptedTeardown(w: World, doomed: iset<Key>, acts: seq<Act>)
    requires LegalRun(w, doomed, acts)
    ensures TornDown(After(w, doomed, acts), doomed) == TornDown(w, doomed)
    ensures Backed(w) && SurvivorsName(w, doomed) ==>
              Backed(After(w, doomed, acts)) && SurvivorsName(After(w, doomed, acts), doomed)
    decreases |acts|
  {
    if acts != [] {
      StepKeepsEnd(w, doomed, acts[0]);
      if Backed(w) && SurvivorsName(w, doomed) { StepKeepsBacked(w, doomed, acts[0]); }
      InterruptedTeardown(Apply(w, acts[0]), doomed, acts[1..]);
    }
  }

  lemma NothingLeftIsEnd(w: World, doomed: iset<Key>)
    requires forall k :: k in w.rows ==> k !in doomed
    ensures TornDown(w, doomed) == w
  {
    assert TornDown(w, doomed).rows == w.rows;
    assert TornDown(w, doomed).roles == w.roles;
  }

  /** Only doomed keys that are present matter. */
  lemma SameDoomedRows(w: World, d1: iset<Key>, d2: iset<Key>)
    requires forall k :: k in w.rows ==> (k in d1 <==> k in d2)
    ensures TornDown(w, d1) == TornDown(w, d2)
    ensures SurvivorsName(w, d1) <==> SurvivorsName(w, d2)
  {
    forall g ensures Kept(w, d1, g) <==> Kept(w, d2, g) {}
    assert TornDown(w, d1).roles == TornDown(w, d2).roles;
    assert TornDown(w, d1).links == TornDown(w, d2).links;
    KeptNamesAgree(w, d1, d2);
    KeptNamesAgree(w, d2, d1);
  }

  lemma KeptNamesAgree(w: World, d1: iset<Key>, d2: iset<Key>)
    requires forall k :: k in w.rows ==> (k in d1 <==> k in d2)
    ensures SurvivorsName(w, d1) ==> SurvivorsName(w, d2)
  {
    if SurvivorsName(w, d1) {
      forall g | g in w.roles && Kept(w, d2, g) ensures exists k :: k !in d2 && Names(w, k, g, w.roles[g]) {
        assert Kept(w, d1, g);
        var k :| k !in d1 && Names(w, k, g, w.roles[g]);
      }
    }
  }

  /** A finished teardown leaves every live role named exactly when the surviving rows of each door
      it keeps open name its role. The code counts the surviving rows without asking whether they
      carry a role id, so a door shared with a row that is still pending is the exception. */
  lemma TeardownBackedIff(w: World, doomed: iset<Key>)
    requires Backed(w) && OwnDoor(w)
    ensures Backed(TornDown(w, doomed)) <==> SurvivorsName(w, doomed)
    ensures Settled(w) ==> SurvivorsName(w, doomed)
  {
    var t := TornDown(w, doomed);
    if Settled(w) {
      forall g | g in w.roles && Kept(w, doomed, g) ensures exists k :: k !in doomed && Names(w, k, g, w.roles[g]) {
        var k :| k in w.rows && !k.kind.DayPass? && k.group == g && k !in doomed;
        assert Names(w, k, g, w.roles[g]);
      }
    }
    if Backed(t) {
      forall g | g in w.roles && Kept(w, doomed, g) ensures exists k :: k !in doomed && Names(w, k, g, w.roles[g]) {
        assert !RoleGoes(w, doomed, w.roles[g]);
        assert g in t.roles && t.roles[g] == w.roles[g];
        var k :| Names(t, k, g, t.roles[g]);
        assert Names(w, k, g, w.roles[g]);
      }
    }
    if SurvivorsName(w, doomed) {
      forall g | g in t.roles ensures exists k :: Names(t, k, g, t.roles[g]) {
        var k0 :| Names(w, k0, g, w.roles[g]);
        assert Kept(w, doomed, g);
        var k :| k !in doomed && Names(w, k, g, w.roles[g]);
        assert Names(t, k, g, t.roles[g]);
      }
      forall l | l in t.links ensures exists k :: k in t.rows && k.kind.DayPass? && t.rows[k].role == Some(l) {
        var k :| k in w.rows && k.kind.DayPass? && w.rows[k].role == Some(l);
        assert k in t.rows;
      }
    }
  }
}
