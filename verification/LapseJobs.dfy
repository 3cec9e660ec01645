/** The two loops over the members of a location: take everybody off when it lapses, put them back on
    when it is paid again. Each member costs one door-system call and one transaction; either may
    fail, with or without effect, and the loop goes on to the next member. The list is read once; other
    jobs go on meanwhile, and what they leave of a member is what its turn finds. */
module LapseJobs {
  import opened Prelude
  import opened LocationLapse

  datatype Entry = Disabled | LocationSuspended | LocationReactivated

  /** One member, the door-system user if there is one (on or off as a whole, not by location), and
      the access log in the order written. */
  datatype Person = Person(member: Member, hasUser: bool, userOn: bool, log: seq<Entry>)

  predicate HasActiveAt(m: Member, location: string) {
    exists k :: k in m.rows && m.rows[k].status.Active? && m.rows[k].location == Some(location)
  }

  predicate HasMarkedAt(m: Member, location: string) {
    exists k :: k in m.rows && Marked(m.rows[k]) && m.rows[k].location == Some(location)
  }

  /** The members a lapse of the location takes off. */
  predicate ToSuspend(p: Person, location: string) {
    HasActiveAt(p.member, location) && (p.member.status.AccessActive? || p.member.status.InFlight?)
  }

  /** The members a reactivation looks at. */
  predicate ToRestore(p: Person, location: string) {
    HasMarkedAt(p.member, location) && !p.member.status.Deleted? && !p.member.status.Removing?
  }

  /** A payment failed after the latest lapse: such a member is left off. */
  predicate DeclinedSinceLapse(log: seq<Entry>) {
    exists i :: 0 <= i < |log| && log[i].Disabled? && LastLapseBefore(log, i)
  }

  predicate LastLapseBefore(log: seq<Entry>, i: int) {
    forall j :: 0 <= j < |log| && log[j].LocationSuspended? ==> j < i
  }

  /** Entry by entry: a failed payment holds the member from then on, the next lapse lifts that, and a
      reactivation changes nothing. */
  lemma DeclinesMean(log: seq<Entry>)
    ensures !DeclinedSinceLapse([])
    ensures DeclinedSinceLapse(log + [Disabled])
    ensures !DeclinedSinceLapse(log + [LocationSuspended])
    ensures DeclinedSinceLapse(log + [LocationReactivated]) <==> DeclinedSinceLapse(log)
  {
    var n := |log|;
    assert forall e: Entry, i :: 0 <= i < n ==> (log + [e])[i] == log[i];
    assert forall e: Entry :: (log + [e])[n] == e;
    assert LastLapseBefore(log + [Disabled], n);
    if i :| 0 <= i < n && log[i].Disabled? && LastLapseBefore(log, i) {
      assert LastLapseBefore(log + [LocationReactivated], i);
    }
    var later := log + [LocationReactivated];
    if i :| 0 <= i < n + 1 && later[i].Disabled? && LastLapseBefore(later, i) {
      assert LastLapseBefore(log, i) by { assert forall j :: 0 <= j < n ==> later[j] == log[j]; }
    }
  }

  /** Another job or an operator holds the member. */
  predicate Busy(p: Person) {
    !p.member.status.AccessActive? && !p.member.status.AccessInactive?
  }

  /** What one turn makes of a member; `called` if the list names a door-system user: all of it, or, if
      it ends in an error, at most the door call, or both without the log entry. Rows never change ahead of the
      door-system user. */
  ghost predicate Moved(p: Person, q: Person, called: bool, op: Op, userOn: bool, entry: Entry, done: bool) {
    && q.hasUser == p.hasUser
    && (q.member == p.member || q.member == Apply(p.member, op))
    && (q.userOn == p.userOn || (called && q.userOn == userOn))
    && (q.member != p.member && called ==> q.userOn == userOn)
    && q.log == (if done then p.log + [entry] else p.log)
    && (done ==> q.member == Apply(p.member, op) && (called ==> q.userOn == userOn))
  }

  predicate Aside(p: Person) {
    DeclinedSinceLapse(p.log) || Busy(p)
  }

  /** A lapse and a reactivation that both went through give back the member there was. */
  lemma ReactivationUndoesLapse(p: Person, off: Person, on: Person, location: string)
    requires Moved(p, off, p.hasUser, Suspend(location), false, LocationSuspended, true)
    requires Moved(off, on, off.hasUser, Restore(location), true, LocationReactivated, true)
    requires Unmarked(p.member, location) && p.member.status == Rollup(p.member.rows)
    ensures on.member == p.member && (p.hasUser ==> on.userOn)
  {
    RestoreUndoesSuspend(p.member, location);
  }

  /** A member that ended in an error is either restored after all or looked at again next time; one
      that did not has no marked row of the location left. */
  lemma ErrorsAreRetried(p: Person, q: Person, location: string, done: bool)
    requires Moved(p, q, p.hasUser, Restore(location), true, LocationReactivated, done)
    requires ToRestore(p, location) && !Aside(p)
    ensures q.member == Apply(p.member, Restore(location)) || (ToRestore(q, location) && !Aside(q))
    ensures q.member == Apply(p.member, Restore(location)) ==> !HasMarkedAt(q.member, location)
    ensures done ==> q.member == Apply(p.member, Restore(location))
  {
  }

  /** The door-system user is switched off as a whole: after the lapse of one location the records
      still call the member active exactly if a row elsewhere is, with every door shut. */
  lemma LapseShutsOtherLocations(p: Person, q: Person, location: string)
    requires Moved(p, q, p.hasUser, Suspend(location), false, LocationSuspended, true) && p.hasUser
    ensures !q.userOn
    ensures q.member.status.AccessActive? <==>
              exists k :: k in p.member.rows && p.member.rows[k].status.Active?
                  && p.member.rows[k].location != Some(location)
  {
    if k :| k in p.member.rows && p.member.rows[k].status.Active? && p.member.rows[k].location != Some(location) {
      assert q.member.rows[k].status.Active?;
    }
    if k :| k in q.member.rows && q.member.rows[k].status.Active? {
      assert k in p.member.rows && p.member.rows[k].status.Active?;
    }
  }

  /** Held are only those whose payment had failed when the list was read: one that fails after that is
      let in by the turn, door-system user and rows. */
  lemma LateDeclineIsLetIn(p: Person, q: Person, called: bool, location: string)
    requires Moved(p, q, called, Restore(location), true, LocationReactivated, true)
    requires DeclinedSinceLapse(p.log) && HasMarkedAt(p.member, location)
    ensures HasActiveAt(q.member, location) && q.member.status.AccessActive? && (called ==> q.userOn)
  {
    var k :| k in p.member.rows && Marked(p.member.rows[k]) && p.member.rows[k].location == Some(location);
    assert q.member.rows[k].status.Active?;
  }

  type People = map<string, Person>

  ghost function LapseList(people: People, location: string): set<string> {
    set id | id in people && ToSuspend(people[id], location)
  }

  ghost function RestoreList(people: People, location: string): set<string> {
    set id | id in people && ToRestore(people[id], location)
  }

  /** Who is on which list. */
  lemma ListsMean(people: People, location: string, id: string)
    ensures id in LapseList(people, location) <==>
              && id in people && (people[id].member.status == AccessActive || people[id].member.status == InFlight)
              && exists k :: k in people[id].member.rows && people[id].member.rows[k].status == Active
                             && people[id].member.rows[k].location == Some(location)
    ensures id in RestoreList(people, location) <==>
              && id in people && people[id].member.status != Deleted && people[id].member.status != Removing
              && exists k :: k in people[id].member.rows
                             && people[id].member.rows[k] == Row(Some(location), Failed, Some(Lapse))
    ensures id in AsideOf(people) <==>
              && id in people
              && (DeclinedSinceLapse(people[id].log)
                  || (people[id].member.status != AccessActive && people[id].member.status != AccessInactive))
  {
    if id in people {
      forall k | k in people[id].member.rows
        ensures people[id].member.rows[k] == Row(Some(location), Failed, Some(Lapse)) <==>
                Marked(people[id].member.rows[k]) && people[id].member.rows[k].location == Some(location) {}
    }
  }

  // --- Other jobs in between ---

  /** `others[i]`: the members that other jobs write between turn `i` and the one before, and what they
      leave of them. */
  ghost predicate Elsewhere(others: seq<People>, people: People) {
    forall i :: 0 <= i < |others| ==> others[i].Keys <= people.Keys
  }

  /** What the other jobs have made of a member before turn `n`, if the loop has not touched it. */
  ghost function Left(before: People, others: seq<People>, n: nat, id: string): Person
    requires id in before && n <= |others|
  {
    if n == 0 then before[id]
    else if id in others[n - 1] then others[n - 1][id]
    else Left(before, others, n - 1, id)
  }

  /** Another job writes the member after turn `i`, and before turn `n` is over. */
  ghost predicate WrittenAfter(others: seq<People>, i: nat, n: nat, id: string)
    requires n <= |others|
  {
    exists j :: i < j < n && id in others[j]
  }

  ghost predicate Distinct(order: seq<string>) {
    forall i, j :: 0 <= i < j < |order| ==> order[i] != order[j]
  }

  /** What the list says of the members, and what each one's turn does. */
  datatype Plan = Plan(order: seq<string>, aside: set<string>, op: Op, userOn: bool, entry: Entry)

  /** Turn `i`: the member on the list is set aside or moved from what is found of it, and nobody else is
      touched. Whether it has a user to call for, and whether it is set aside, the list says. */
  ghost predicate Turn(plan: Plan, listed: People, found: People, left: People, i: nat,
                       errors: seq<string>, errors': seq<string>)
    requires i < |plan.order|
  {
    var id := plan.order[i];
    && id in listed && id in found && left.Keys == found.Keys
    && (forall o :: o in found && o != id ==> left[o] == found[o])
    && (errors' == errors || errors' == errors + [id])
    && if id in plan.aside then left[id] == found[id]
       else Moved(found[id], left[id], listed[id].hasUser, plan.op, plan.userOn, plan.entry, errors' == errors)
  }

  /** The members and the errors at one point of the loop. */
  datatype Moment = Moment(people: People, errors: seq<string>)

  ghost predicate TurnAt(plan: Plan, listed: People, others: seq<People>, history: seq<Moment>, i: nat)
    requires i < |plan.order| <= |others| && i + 1 < |history|
  {
    Turn(plan, listed, history[i].people + others[i], history[i + 1].people, i,
         history[i].errors, history[i + 1].errors)
  }

  /** The loop from the reading of the list on: before each turn other jobs write. */
  ghost predicate Looped(plan: Plan, listed: People, others: seq<People>, history: seq<Moment>) {
    && 1 <= |history| <= |plan.order| + 1 <= |others| + 1 && Elsewhere(others, listed)
    && (forall i :: 0 <= i < |plan.order| ==> plan.order[i] in listed)
    && history[0] == Moment(listed, [])
    && (forall i: nat :: i < |history| ==> history[i].people.Keys == listed.Keys)
    && (forall i: nat {:trigger TurnAt(plan, listed, others, history, i)} ::
          i + 1 < |history| ==> TurnAt(plan, listed, others, history, i))
  }

  lemma Starts(plan: Plan, listed: People, others: seq<People>, list: set<string>)
    requires Enumerates(plan.order, list) && list <= listed.Keys && |plan.order| <= |others|
    requires Elsewhere(others, listed)
    ensures Looped(plan, listed, others, [Moment(listed, [])])
  {
    forall i | 0 <= i < |plan.order| ensures plan.order[i] in listed { assert plan.order[i] in plan.order; }
  }

  lemma TurnNext(plan: Plan, listed: People, others: seq<People>, history: seq<Moment>, next: Moment)
    requires Looped(plan, listed, others, history) && |history| <= |plan.order|
    requires var n := |history| - 1;
             Turn(plan, listed, history[n].people + others[n], next.people, n, history[n].errors, next.errors)
    ensures Looped(plan, listed, others, history + [next])
  {
    var n := |history| - 1;
    forall i: nat | i < n + 1 ensures TurnAt(plan, listed, others, history + [next], i) {
      if i < n { assert TurnAt(plan, listed, others, history, i); }
    }
  }

  /** What the turns add up to. A member that has no turn, or is set aside, is as other jobs left it. */
  lemma {:induction false} OthersAreLeft(plan: Plan, listed: People, others: seq<People>, history: seq<Moment>,
                                         n: nat, id: string)
    requires Looped(plan, listed, others, history) && n < |history|
    requires id in listed && (id in plan.aside || forall i :: 0 <= i < n ==> plan.order[i] != id)
    ensures history[n].people[id] == Left(listed, others, n, id)
  {
    if n > 0 {
      OthersAreLeft(plan, listed, others, history, n - 1, id);
      assert TurnAt(plan, listed, others, history, n - 1);
    }
  }

  lemma {:induction false} ErrorsHadTurns(plan: Plan, listed: People, others: seq<People>, history: seq<Moment>,
                                          n: nat, id: string)
    requires Looped(plan, listed, others, history) && n < |history| && id in history[n].errors
    ensures exists i :: 0 <= i < n && plan.order[i] == id
  {
    if n > 0 {
      assert TurnAt(plan, listed, others, history, n - 1);
      if id in history[n - 1].errors { ErrorsHadTurns(plan, listed, others, history, n - 1, id); }
    }
  }

  /** What becomes of member `i` by the time of `history[n]`. */
  ghost predicate Became(plan: Plan, listed: People, others: seq<People>, history: seq<Moment>, i: nat, n: nat)
    requires Looped(plan, listed, others, history) && i < n < |history|
  {
    var id, now := plan.order[i], history[n];
    if WrittenAfter(others, i, n, id) then now.people[id] == Left(listed, others, n, id)
    else Moved(Left(listed, others, i + 1, id), now.people[id], listed[id].hasUser, plan.op, plan.userOn, plan.entry,
               id !in now.errors)
  }

  /** Any other has been moved from what other jobs had left of it when its turn came, and so it has
      stayed unless one of them wrote it since. */
  lemma {:induction false} EachHasItsTurn(plan: Plan, listed: People, others: seq<People>, history: seq<Moment>,
                                          i: nat, n: nat)
    requires Looped(plan, listed, others, history) && i < n < |history|
    requires Distinct(plan.order) && plan.order[i] !in plan.aside
    ensures Became(plan, listed, others, history, i, n)
    decreases n
  {
    assert TurnAt(plan, listed, others, history, n - 1);
    if i == n - 1 { JustHadItsTurn(plan, listed, others, history, i); } else {
      EachHasItsTurn(plan, listed, others, history, i, n - 1);
      var id := plan.order[i];
      assert WrittenAfter(others, i, n, id) <==> WrittenAfter(others, i, n - 1, id) || id in others[n - 1];
    }
  }

  lemma JustHadItsTurn(plan: Plan, listed: People, others: seq<People>, history: seq<Moment>, i: nat)
    requires Looped(plan, listed, others, history) && i + 1 < |history|
    requires Distinct(plan.order) && plan.order[i] !in plan.aside
    ensures Became(plan, listed, others, history, i, i + 1)
  {
    var id, had, errors := plan.order[i], history[i].errors, history[i + 1].errors;
    assert TurnAt(plan, listed, others, history, i);
    OthersAreLeft(plan, listed, others, history, i, id);
    if id in had { ErrorsHadTurns(plan, listed, others, history, i, id); }
    assert errors == had || errors[|had|] == id;
    assert !WrittenAfter(others, i, i + 1, id);
  }

  /** With no other job on a member of the list, its turn alone has moved it. */
  lemma Undisturbed(plan: Plan, listed: People, others: seq<People>, history: seq<Moment>, i: nat)
    requires Looped(plan, listed, others, history) && |history| == |plan.order| + 1
    requires Distinct(plan.order) && i < |plan.order| && plan.order[i] !in plan.aside
    requires forall j :: 0 <= j < |others| ==> plan.order[i] !in others[j]
    ensures var id, now := plan.order[i], history[|plan.order|];
            Moved(listed[id], now.people[id], listed[id].hasUser, plan.op, plan.userOn, plan.entry, id !in now.errors)
  {
    EachHasItsTurn(plan, listed, others, history, i, |plan.order|);
    LeftAlone(listed, others, i + 1, plan.order[i]);
  }

  /** So a lapse that ran alone has the users of all members it lists off, unless they are in the errors,
      their active rows of the location failed with its reason, and says so in the log. */
  lemma LapseEnds(order: seq<string>, location: string, listed: People, others: seq<People>,
                  history: seq<Moment>, i: nat)
    requires Looped(LapsePlan(order, location), listed, others, history) && |history| == |order| + 1
    requires Distinct(order) && i < |order| && (forall j :: 0 <= j < |others| ==> order[i] !in others[j])
    requires order[i] !in history[|order|].errors
    ensures var p, q := listed[order[i]], history[|order|].people[order[i]];
            && q.member == Apply(p.member, Suspend(location)) && q.log == p.log + [LocationSuspended]
            && q.userOn == (p.userOn && !p.hasUser)
  {
    Undisturbed(LapsePlan(order, location), listed, others, history, i);
  }

  /** And a reactivation that ran alone, of whoever was not set aside, on. */
  lemma RestoreEnds(order: seq<string>, location: string, listed: People, others: seq<People>,
                    history: seq<Moment>, i: nat)
    requires Looped(RestorePlan(listed, order, location), listed, others, history) && |history| == |order| + 1
    requires Distinct(order) && i < |order| && (forall j :: 0 <= j < |others| ==> order[i] !in others[j])
    requires order[i] !in history[|order|].errors && order[i] !in AsideOf(listed)
    ensures var p, q := listed[order[i]], history[|order|].people[order[i]];
            && q.member == Apply(p.member, Restore(location)) && q.log == p.log + [LocationReactivated]
            && q.userOn == (p.userOn || p.hasUser)
  {
    Undisturbed(RestorePlan(listed, order, location), listed, others, history, i);
  }

  lemma {:induction false} LeftAlone(before: People, others: seq<People>, n: nat, id: string)
    requires id in before && n <= |others| && forall i :: 0 <= i < |others| ==> id !in others[i]
    ensures Left(before, others, n, id) == before[id]
  {
    if n > 0 { LeftAlone(before, others, n - 1, id); }
  }

  /** Of the members that had their turn exactly those somebody held are in `errors`. */
  ghost predicate AllBusy(people: People, order: seq<string>, errors: seq<string>, n: nat)
    requires n <= |order|
  {
    forall id :: id in errors <==> id in order[..n] && IsBusy(people, id)
  }

  lemma BusyNext(people: People, order: seq<string>, errors: seq<string>, errors': seq<string>, n: nat)
    requires n < |order| && order[n] in people
    ensures AllBusy(people, order, errors, n) &&
            errors' == (if IsBusy(people, order[n]) then errors + [order[n]] else errors) ==>
              AllBusy(people, order, errors', n + 1)
  {
    assert order[..n + 1] == order[..n] + [order[n]];
  }

  class LocationMembers {
    var people: People
    var script: seq<Answer>

    /** The door call, if the list names a user, then the transaction, then the log. */
    method MoveOne(id: string, called: bool, op: Op, userOn: bool, entry: Entry) returns (done: bool)
      requires id in people
      modifies this
      ensures people.Keys == old(people.Keys)
      ensures forall o :: o in people && o != id ==> people[o] == old(people[o])
      ensures Moved(old(people[id]), people[id], called, op, userOn, entry, done)
      ensures old(AllOk(script) && |script| >= 2) ==> done
      ensures old(AllOk(script)) ==> AllOk(script) && |script| >= |old(script)| - 2
    {
      var p := people[id];
      var took, ok;
      if called {
        took, ok := Takes(script), Succeeds(script);
        script := Rest(script);
        if took {
          p := p.(userOn := userOn);
          people := people[id := p];
        }
        if !ok { return false; }
      }
      took, ok := Takes(script), Succeeds(script);
      script := Rest(script);
      if took {
        p := p.(member := Apply(p.member, op));
        people := people[id := p];
      }
      if !ok { return false; }
      people := people[id := p.(log := p.log + [entry])];
      return true;
    }

    ghost predicate At(plan: Plan, listed: People, others: seq<People>, history: seq<Moment>,
                       errors: seq<string>, i: nat)
      reads this`people
    {
      Looped(plan, listed, others, history) && |history| == i + 1 && history[i] == Moment(people, errors)
    }

    /** Other jobs write, then the member has its turn. */
    method TakeTurn(plan: Plan, listed: People, others: seq<People>, errors: seq<string>, i: nat,
                    ghost history: seq<Moment>)
      returns (done: bool, errors': seq<string>, ghost history': seq<Moment>)
      requires At(plan, listed, others, history, errors, i) && i < |plan.order| && plan.order[i] !in plan.aside
      modifies this
      ensures At(plan, listed, others, history', errors', i + 1)
      ensures errors' == if done then errors else errors + [plan.order[i]]
      ensures old(AllOk(script) && |script| >= 2) ==> done
      ensures old(AllOk(script)) ==> AllOk(script) && |script| >= |old(script)| - 2
    {
      var id := plan.order[i];
      people := people + others[i];
      done := MoveOne(id, listed[id].hasUser, plan.op, plan.userOn, plan.entry);
      errors' := if done then errors else errors + [id];
      assert |errors + [id]| != |errors|;
      history' := history + [Moment(people, errors')];
      TurnNext(plan, listed, others, history, Moment(people, errors'));
    }

    /** Other jobs write, and the member is set aside; `busy` puts it with the errors. */
    method SetAside(plan: Plan, busy: bool, ghost listed: People, others: seq<People>, errors: seq<string>, i: nat,
                    ghost history: seq<Moment>)
      returns (errors': seq<string>, ghost history': seq<Moment>)
      requires At(plan, listed, others, history, errors, i) && i < |plan.order| && plan.order[i] in plan.aside
      modifies this`people
      ensures At(plan, listed, others, history', errors', i + 1)
      ensures errors' == if busy then errors + [plan.order[i]] else errors
    {
      people := people + others[i];
      errors' := if busy then errors + [plan.order[i]] else errors;
      history' := history + [Moment(people, errors')];
      TurnNext(plan, listed, others, history, Moment(people, errors'));
    }

    /** Held, busy or restored. */
    method RestoreTurn(plan: Plan, listed: People, others: seq<People>, errors: seq<string>, i: nat,
                       ghost history: seq<Moment>)
      returns (restored: nat, held: nat, errors': seq<string>, ghost history': seq<Moment>)
      requires At(plan, listed, others, history, errors, i) && i < |plan.order| && plan.aside == AsideOf(listed)
      modifies this
      ensures At(plan, listed, others, history', errors', i + 1)
      ensures restored + held + |errors'| == 1 + |errors|
      ensures old(AllOk(script) && |script| >= 2) && AllBusy(listed, plan.order, errors, i) ==>
                AllBusy(listed, plan.order, errors', i + 1)
      ensures old(AllOk(script)) ==> AllOk(script) && |script| >= |old(script)| - 2
    {
      var p := listed[plan.order[i]];
      restored, held := 0, 0;
      if DeclinedSinceLapse(p.log) {
        held := 1;
        errors', history' := SetAside(plan, false, listed, others, errors, i, history);
      } else if Busy(p) {
        errors', history' := SetAside(plan, true, listed, others, errors, i, history);
      } else {
        var done;
        done, errors', history' := TakeTurn(plan, listed, others, errors, i, history);
        if done { restored := 1; }
      }
      BusyNext(listed, plan.order, errors, errors', i);
    }

    /** A lapse. Every member on the list is moved from what other jobs have left of it by then, whatever
        its status has become; nobody else is touched, and the counters add up. */
    method SuspendLocationMembers(location: string, order: seq<string>, others: seq<People>)
      returns (suspended: nat, skipped: nat, errors: seq<string>, ghost history: seq<Moment>)
      requires Enumerates(order, LapseList(people, location))
      requires |others| == |order| && Elsewhere(others, people)
      modifies this
      ensures suspended + |errors| == |order| && skipped == |Userless(old(people), order, |order|)|
      ensures At(LapsePlan(order, location), old(people), others, history, errors, |order|)
      ensures old(AllOk(script) && |script| >= 2 * |order|) ==> errors == []
    {
      var listed, plan := people, LapsePlan(order, location);
      ghost var healthy := AllOk(script) && |script| >= 2 * |order|;
      suspended, skipped, errors, history := 0, 0, [], [Moment(people, [])];
      Starts(plan, listed, others, LapseList(listed, location));
      for i := 0 to |order|
        invariant suspended + |errors| == i && skipped == |Userless(listed, order, i)|
        invariant At(plan, listed, others, history, errors, i)
        invariant healthy ==> errors == [] && AllOk(script) && |script| >= 2 * (|order| - i)
      {
        UserlessNext(listed, order, i);
        if !listed[order[i]].hasUser { skipped := skipped + 1; }
        var done;
        done, errors, history := TakeTurn(plan, listed, others, errors, i, history);
        if done { suspended := suspended + 1; }
      }
    }

    /** A reactivation. The list says who is set aside: members whose payment had failed, and members
        somebody else held. Everybody else is moved from what other jobs have left of it by then. */
    method ReactivateLocationMembers(location: string, order: seq<string>, others: seq<People>)
      returns (restored: nat, held: nat, errors: seq<string>, ghost history: seq<Moment>)
      requires Enumerates(order, RestoreList(people, location))
      requires |others| == |order| && Elsewhere(others, people)
      modifies this
      ensures restored + held + |errors| == |order|
      ensures At(RestorePlan(old(people), order, location), old(people), others, history, errors, |order|)
      ensures old(AllOk(script) && |script| >= 2 * |order|) ==>
                forall id :: id in errors <==> id in order && IsBusy(old(people), id)
    {
      var listed, plan := people, RestorePlan(people, order, location);
      ghost var healthy := AllOk(script) && |script| >= 2 * |order|;
      restored, held, errors, history := 0, 0, [], [Moment(people, [])];
      Starts(plan, listed, others, RestoreList(listed, location));
      for i := 0 to |order|
        invariant restored + held + |errors| == i
        invariant At(plan, listed, others, history, errors, i)
        invariant healthy ==> AllOk(script) && |script| >= 2 * (|order| - i) && AllBusy(listed, order, errors, i)
      {
        var r, h;
        r, h, errors, history := RestoreTurn(plan, listed, others, errors, i, history);
        restored, held := restored + r, held + h;
      }
      assert order[..|order|] == order;
    }
  }

  ghost function Userless(people: People, order: seq<string>, n: nat): set<nat>
    requires n <= |order|
  {
    set i: nat | i < n && order[i] in people && !people[order[i]].hasUser
  }

  lemma UserlessNext(people: People, order: seq<string>, n: nat)
    requires n < |order| && order[n] in people
    ensures |Userless(people, order, n + 1)| ==
              |Userless(people, order, n)| + if people[order[n]].hasUser then 0 else 1
  {
    assert Userless(people, order, n + 1) ==
           Userless(people, order, n) + if people[order[n]].hasUser then {} else {n};
  }

  function LapsePlan(order: seq<string>, location: string): Plan {
    Plan(order, {}, Suspend(location), false, LocationSuspended)
  }

  function RestorePlan(people: People, order: seq<string>, location: string): Plan {
    Plan(order, AsideOf(people), Restore(location), true, LocationReactivated)
  }

  /** A reactivation sets these members aside: held for a failed payment, or busy. */
  function AsideOf(people: People): set<string> {
    set id | id in people && Aside(people[id])
  }

  ghost predicate IsBusy(people: People, id: string) {
    id in people && Busy(people[id]) && !DeclinedSinceLapse(people[id].log)
  }
}
