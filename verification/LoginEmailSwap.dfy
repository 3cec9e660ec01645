/** A changed login email moves the member to a new door-system user: create it, open every door for
    it, switch the records over in one transaction, and only then delete the old user. Each call may
    be refused, may take effect and still fail, or may never be reached because the job died. */
module LoginEmailSwap {
  import opened Prelude
  import opened GroupsToMove

  datatype Role = Role(id: nat, until: Option<int>)

  /** At most one role per group. `ours` is the ownership marker, without which a delete is refused. */
  datatype User = User(roles: map<string, Role>, enabled: bool, ours: bool)

  /** An active source row, no day pass, with the role recorded for it. */
  datatype Source = Source(group: string, mapping: Option<string>, until: Option<int>, role: nat)

  datatype Records = Records(user: nat, email: string, sources: map<string, Source>)

  datatype Snap = Snap(rec: Records, users: map<nat, User>)

  datatype Email = AccessReady(to: string) | LoginChanged(to: string)

  datatype Outcome = Swapped | OldUserNotRemoved | Failed

  /** The user on record exists and has every recorded role on its door. */
  ghost predicate Working(s: Snap) {
    && s.rec.user in s.users
    && forall id :: id in s.rec.sources ==> HasRole(s.users[s.rec.user], s.rec.sources[id])
  }

  ghost predicate HasRole(u: User, src: Source) {
    src.group in u.roles && u.roles[src.group].id == src.role
  }

  /** The rows the query returned are the sources on record. */
  ghost predicate Lists(rows: seq<SourceRow>, sources: map<string, Source>) {
    && (forall r :: r in rows ==> r.id in sources && sources[r.id].group == r.group && sources[r.id].until == r.until)
    && (forall id :: id in sources ==> exists r :: r in rows && r.id == id)
    && (forall a, b :: a in rows && b in rows && a.id == b.id ==> a == b)
  }

  // --- The records' transaction ---

  function RoleFor(id: string, moves: seq<Move>, ids: seq<nat>, otherwise: nat): nat
    requires |ids| == |moves|
    decreases |moves|
  {
    if moves == [] then otherwise
    else if id in moves[|moves| - 1].sourceIds then ids[|moves| - 1]
    else RoleFor(id, moves[..|moves| - 1], ids[..|moves| - 1], otherwise)
  }

  function Moved(rec: Records, moves: seq<Move>, ids: seq<nat>, user: nat, email: string): Records
    requires |ids| == |moves|
  {
    Records(user, email, map id | id in rec.sources ::
        rec.sources[id].(role := RoleFor(id, moves, ids, rec.sources[id].role)))
  }

  lemma {:induction false} RoleForIs(id: string, moves: seq<Move>, ids: seq<nat>, otherwise: nat, i: nat)
    requires |ids| == |moves| && i < |moves| && id in moves[i].sourceIds
    requires forall j :: 0 <= j < |moves| && id in moves[j].sourceIds ==> j == i
    ensures RoleFor(id, moves, ids, otherwise) == ids[i]
    decreases |moves|
  {
    var n := |moves| - 1;
    if i < n { RoleForIs(id, moves[..n], ids[..n], otherwise, i); }
  }

  /** The new user has the roles of the first `n` moves under the ids collected so far. */
  ghost predicate OpenedUpTo(u: User, moves: seq<Move>, ids: seq<nat>) {
    && |ids| <= |moves|
    && forall i :: 0 <= i < |ids| ==>
         moves[i].group in u.roles && u.roles[moves[i].group] == Role(ids[i], moves[i].until)
  }

  /** Once the new user has all the roles, switching the records keeps the login working. */
  lemma MovedIsWorking(s: Snap, rows: seq<SourceRow>, moves: seq<Move>, ids: seq<nat>, user: nat, email: string)
    requires Lists(rows, s.rec.sources) && Moves(rows, moves) && |ids| == |moves|
    requires user in s.users && OpenedUpTo(s.users[user], moves, ids)
    ensures Working(s.(rec := Moved(s.rec, moves, ids, user, email)))
    ensures Covered(s.(rec := Moved(s.rec, moves, ids, user, email)))
  {
    var t := s.(rec := Moved(s.rec, moves, ids, user, email));
    forall id | id in t.rec.sources
      ensures HasRole(t.users[user], t.rec.sources[id])
      ensures Lasts(t.users[user].roles[t.rec.sources[id].group].until, t.rec.sources[id].until)
    {
      var r :| r in rows && r.id == id;
      EachRowMovesOnce(rows, moves, r);
      var i :| 0 <= i < |moves| && r.id in moves[i].sourceIds && moves[i].group == r.group &&
               forall j :: 0 <= j < |moves| && r.id in moves[j].sourceIds ==> j == i;
      RoleForIs(id, moves, ids, s.rec.sources[id].role, i);
      assert EndsAt(rows, moves[i].group, moves[i].until);
    }
  }

  predicate Lasts(role: Option<int>, source: Option<int>) {
    role.None? || (source.Some? && source.value <= role.value)
  }

  /** No role on record ends before the source it is for. */
  ghost predicate Covered(s: Snap) {
    && s.rec.user in s.users
    && forall id :: id in s.rec.sources && s.rec.sources[id].group in s.users[s.rec.user].roles ==>
         Lasts(s.users[s.rec.user].roles[s.rec.sources[id].group].until, s.rec.sources[id].until)
  }

  // --- Before the switch ---

  /** Records as they were, every user there was as it was; at most the new one besides. */
  ghost predicate Untouched(s0: Snap, s: Snap) {
    && s.rec == s0.rec
    && (forall u :: u in s0.users ==> u in s.users && s.users[u] == s0.users[u])
  }

  lemma UntouchedIsWorking(s0: Snap, s: Snap)
    requires Untouched(s0, s) && Working(s0)
    ensures Working(s)
  {
  }

  /** Every state since the trace was `before` is one the records and the old users sit through. */
  ghost predicate UntouchedSince(s0: Snap, before: seq<Snap>, trace: seq<Snap>) {
    before <= trace && forall i :: |before| <= i < |trace| ==> Untouched(s0, trace[i])
  }

  ghost predicate FineSince(s0: Snap, from: nat, trace: seq<Snap>) {
    forall i :: from <= i < |trace| ==> Untouched(s0, trace[i]) || Working(trace[i])
  }

  lemma FineIsWorking(s0: Snap, trace: seq<Snap>)
    requires Working(s0) && FineSince(s0, 0, trace)
    ensures AllWorking(trace)
  {
    forall i | 0 <= i < |trace| ensures Working(trace[i]) {
      if Untouched(s0, trace[i]) { UntouchedIsWorking(s0, trace[i]); }
    }
  }

  lemma StrandedAtTheEnd(s0: Snap, trace: seq<Snap>, last: Snap)
    requires FineSince(s0, 0, trace) && Working(s0)
    ensures AllWorking(trace + [last]) <==> Working(last)
  {
    FineIsWorking(s0, trace);
    assert (trace + [last])[|trace|] == last;
  }

  ghost predicate AllWorking(trace: seq<Snap>) {
    forall i :: 0 <= i < |trace| ==> Working(trace[i])
  }

  ghost predicate FirstOk(script: seq<Answer>, n: nat) {
    n <= |script| && forall i :: 0 <= i < n ==> script[i].Ok?
  }

  /** The calls before the transaction: the user, one role per group, the suspension if there is one. */
  ghost function CallsBefore(s: Snap, rows: seq<SourceRow>): nat {
    1 + |FirstSeen(rows)| + if Suspended(s) then 1 else 0
  }

  predicate Suspended(s: Snap) {
    s.rec.user in s.users && !s.users[s.rec.user].enabled
  }

  ghost predicate CommitLost(script: seq<Answer>, n: nat) {
    n < |script| && FirstOk(script, n) && script[n].TimedOut?
  }

  /** The transaction commits without the job learning of it, and the compensation, sent to delete a
      user nothing points at yet, deletes the one the records now point at. */
  ghost predicate Stranded(script: seq<Answer>, n: nat) {
    CommitLost(script, n) && n + 1 < |script| && !script[n + 1].Refused?
  }

  lemma FirstOkSplit(script: seq<Answer>, k: nat, n: nat)
    requires k <= n
    ensures FirstOk(script, n) <==> FirstOk(script, k) && FirstOk(script[k..], n - k)
  {
    if FirstOk(script, k) && FirstOk(script[k..], n - k) {
      forall i | 0 <= i < n ensures script[i].Ok? {
        if i >= k { assert script[k..][i - k] == script[i]; }
      }
    }
  }

  lemma AfterCreate(script: seq<Answer>, n: nat)
    requires script != [] && script[0].Ok? && n >= 1
    ensures forall k: nat :: k >= n ==> (FirstOk(script, k) <==> FirstOk(script[1..], k - 1))
    ensures CommitLost(script, n) <==> CommitLost(script[1..], n - 1)
    ensures n + 1 <= |script| ==> script[1..][n..] == script[n + 1..]
  {
    forall k: nat | k >= n ensures FirstOk(script, k) <==> FirstOk(script[1..], k - 1) { FirstOkSplit(script, 1, k); }
  }

  /** Some of the doors are open for the new user, nothing else has happened. */
  ghost predicate Opening(s0: Snap, s: Snap, user: nat, moves: seq<Move>, ids: seq<nat>) {
    && Untouched(s0, s) && user !in s0.users && s.users.Keys == s0.users.Keys + {user}
    && s.users[user].enabled && s.users[user].ours
    && OpenedUpTo(s.users[user], moves, ids)
    && forall g :: g in s.users[user].roles ==> exists j :: 0 <= j < |ids| && moves[j].group == g
  }

  lemma OpenStep(s0: Snap, s: Snap, s': Snap, user: nat, moves: seq<Move>, ids: seq<nat>, id: nat)
    requires Opening(s0, s, user, moves, ids) && |ids| < |moves|
    requires forall i, j :: 0 <= i < j < |moves| ==> moves[i].group != moves[j].group
    requires s'.rec == s.rec && s'.users.Keys == s.users.Keys
    requires forall u :: u in s.users && u != user ==> s'.users[u] == s.users[u]
    requires s'.users[user] == s.users[user]
               .(roles := s.users[user].roles[moves[|ids|].group := Role(id, moves[|ids|].until)])
    ensures Opening(s0, s', user, moves, ids + [id])
  {
    var m := moves[|ids|];
    forall g | g in s'.users[user].roles ensures exists j :: 0 <= j < |ids + [id]| && moves[j].group == g {
      if g == m.group {
        assert moves[|ids|].group == g;
      } else {
        var j :| 0 <= j < |ids| && moves[j].group == g;
        assert 0 <= j < |ids + [id]|;
      }
    }
  }

  lemma NextGroupIsNew(s0: Snap, s: Snap, user: nat, moves: seq<Move>, ids: seq<nat>)
    requires Opening(s0, s, user, moves, ids) && |ids| < |moves|
    requires forall i, j :: 0 <= i < j < |moves| ==> moves[i].group != moves[j].group
    ensures moves[|ids|].group !in s.users[user].roles
  {
  }

  class Swap {
    var now: Snap
    var nextUser: nat
    var nextRole: nat
    var script: seq<Answer>
    var sent: seq<Email>
    /** The state after every call. */
    ghost var trace: seq<Snap>

    /** User ids are never given out twice. */
    ghost predicate Valid()
      reads this
    {
      now.rec.user < nextUser && forall u :: u in now.users ==> u < nextUser
    }

    /** Sets the state after a call and keeps it in the trace. */
    method Set(s: Snap)
      modifies this`now, this`trace
      ensures now == s && trace == old(trace) + [s]
    {
      now := s;
      trace := trace + [s];
    }

    method CreateUser() returns (ok: bool, id: nat)
      requires Valid()
      modifies this
      ensures Valid() && sent == old(sent) && nextRole == old(nextRole)
      ensures trace == old(trace) + [now] && Untouched(old(now), now)
      ensures id !in old(now.users) && id != old(now.rec.user)
                && (ok ==> now == old(now).(users := old(now.users)[id := User(map[], true, true)]))
      ensures ok == Succeeds(old(script))
      ensures script == Rest(old(script))
    {
      var took := Takes(script);
      ok := Succeeds(script);
      script := Rest(script);
      id := nextUser;
      if took {
        nextUser := nextUser + 1;
        Set(now.(users := now.users[id := User(map[], true, true)]));
      } else {
        Set(now);
      }
    }

    method AssignRole(user: nat, group: string, until: Option<int>) returns (ok: bool, id: nat)
      requires Valid() && user in now.users && group !in now.users[user].roles
      modifies this
      ensures Valid() && sent == old(sent) && trace == old(trace) + [now]
      ensures now.rec == old(now.rec) && now.users.Keys == old(now.users.Keys)
      ensures forall u :: u in now.users && u != user ==> now.users[u] == old(now.users[u])
      ensures now.users[user] == old(now.users[user]).(roles := now.users[user].roles)
      ensures ok ==> now.users[user] == old(now.users[user])
                .(roles := old(now.users[user].roles)[group := Role(id, until)])
      ensures ok == Succeeds(old(script))
      ensures script == Rest(old(script))
    {
      var took := Takes(script);
      ok := Succeeds(script);
      script := Rest(script);
      id := nextRole;
      if took {
        nextRole := nextRole + 1;
        var u := now.users[user];
        Set(now.(users := now.users[user := u.(roles := u.roles[group := Role(id, until)])]));
      } else {
        Set(now);
      }
    }

    method SuspendAccess(user: nat) returns (ok: bool)
      requires Valid() && user in now.users
      modifies this
      ensures Valid() && sent == old(sent) && trace == old(trace) + [now]
      ensures now.rec == old(now.rec) && now.users.Keys == old(now.users.Keys)
      ensures forall u :: u in now.users && u != user ==> now.users[u] == old(now.users[u])
      ensures now.users[user] == old(now.users[user]).(enabled := now.users[user].enabled)
      ensures ok ==> !now.users[user].enabled
      ensures ok == Succeeds(old(script))
      ensures script == Rest(old(script))
    {
      var took := Takes(script);
      ok := Succeeds(script);
      script := Rest(script);
      Set(if took then now.(users := now.users[user := now.users[user].(enabled := false)]) else now);
    }

    /** Every door, in order, on the new user. */
    method OpenDoors(user: nat, moves: seq<Move>, ghost s0: Snap) returns (ok: bool, ids: seq<nat>)
      requires Valid() && Opening(s0, now, user, moves, [])
      requires forall i, j :: 0 <= i < j < |moves| ==> moves[i].group != moves[j].group
      modifies this
      ensures Valid() && sent == old(sent) && UntouchedSince(s0, old(trace), trace)
      ensures Untouched(s0, now) && now.users.Keys == s0.users.Keys + {user} && now.users[user].ours
      ensures ok ==> |ids| == |moves| && Opening(s0, now, user, moves, ids)
      ensures ok <==> FirstOk(old(script), |moves|)
      ensures ok ==> script == old(script)[|moves|..]
    {
      ids := [];
      ghost var script0, trace0 := script, trace;
      while |ids| < |moves|
        invariant Valid() && sent == old(sent) && UntouchedSince(s0, trace0, trace)
        invariant |ids| <= |moves| && Opening(s0, now, user, moves, ids)
        invariant FirstOk(script0, |ids|) && script == script0[|ids|..]
      {
        ghost var before := now;
        NextGroupIsNew(s0, now, user, moves, ids);
        var id;
        ok, id := AssignRole(user, moves[|ids|].group, moves[|ids|].until);
        if !ok { return; }
        OpenStep(s0, before, now, user, moves, ids, id);
        ids := ids + [id];
      }
      ok := true;
    }

    /** completeLoginEmailSwap: one transaction. */
    method Commit(moves: seq<Move>, ids: seq<nat>, user: nat, email: string) returns (ok: bool)
      requires Valid() && |ids| == |moves| && user < nextUser
      modifies this
      ensures Valid() && sent == old(sent) && trace == old(trace) + [now]
      ensures now == if old(script) == [] || old(script)[0].Refused? then old(now)
                     else old(now).(rec := Moved(old(now.rec), moves, ids, user, email))
      ensures ok == Succeeds(old(script))
      ensures script == Rest(old(script))
    {
      var took := Takes(script);
      ok := Succeeds(script);
      script := Rest(script);
      Set(if took then now.(rec := Moved(now.rec, moves, ids, user, email)) else now);
    }

    /** The guarded delete: a user without the marker stays, one that is gone already is no error. */
    method DeleteUser(user: nat) returns (ok: bool)
      requires Valid()
      modifies this
      ensures Valid() && sent == old(sent) && trace == old(trace) + [now]
      ensures now == if old(script) == [] || old(script)[0].Refused?
                || (user in old(now.users) && !old(now.users)[user].ours)
                     then old(now) else old(now).(users := old(now.users) - {user})
      ensures ok == (old(script) != [] && old(script)[0].Ok? && (user in old(now.users) ==> old(now.users)[user].ours))
      ensures script == Rest(old(script))
    {
      var took := Takes(script);
      ok := Succeeds(script);
      script := Rest(script);
      if user in now.users && !now.users[user].ours {
        Set(now);
        return false;
      }
      Set(if took then now.(users := now.users - {user}) else now);
    }

    /** Doors and suspension. */
    method Prepare(rows: seq<SourceRow>, user: nat, ghost s0: Snap) returns (ok: bool, moves: seq<Move>, ids: seq<nat>)
      requires Valid() && Untouched(s0, now) && user !in s0.users
      requires now.users.Keys == s0.users.Keys + {user} && now.users[user] == User(map[], true, true)
      modifies this
      ensures Valid() && sent == old(sent) && UntouchedSince(s0, old(trace), trace)
      ensures Untouched(s0, now) && now.users.Keys == s0.users.Keys + {user} && now.users[user].ours
      ensures ok <==> FirstOk(old(script), CallsBefore(s0, rows) - 1)
      ensures ok ==> script == old(script)[CallsBefore(s0, rows) - 1..]
      ensures ok ==> Moves(rows, moves) && |ids| == |moves| && OpenedUpTo(now.users[user], moves, ids)
      ensures ok ==> now.users[user].enabled == EnabledBefore(s0)
    {
      ghost var script0 := script;
      moves := Collect(rows);
      FirstSeenIsDistinct(rows);
      var suspend := now.rec.user in now.users && now.rec.user != user && !now.users[now.rec.user].enabled;
      assert suspend == Suspended(s0);
      ok, ids := OpenDoors(user, moves, s0);
      FirstOkSplit(script0, |moves|, CallsBefore(s0, rows) - 1);
      if ok && suspend { ok := SuspendAccess(user); }
    }

    /** The steps the compensation covers: doors, suspension, transaction. */
    method MoveOver(rows: seq<SourceRow>, user: nat, email: string, ghost s0: Snap) returns (ok: bool)
      requires Valid() && Untouched(s0, now) && user !in s0.users
      requires now.users.Keys == s0.users.Keys + {user} && now.users[user] == User(map[], true, true)
      requires Lists(rows, s0.rec.sources)
      modifies this
      ensures Valid() && sent == old(sent)
      ensures now.users.Keys == s0.users.Keys + {user} && now.users[user].ours
      ensures forall u :: u in s0.users ==> u in now.users && now.users[u] == s0.users[u]
      ensures ok <==> FirstOk(old(script), CallsBefore(s0, rows))
      ensures ok || CommitLost(old(script), CallsBefore(s0, rows) - 1) ==>
                script == old(script)[CallsBefore(s0, rows)..] && SwitchedTo(s0, now, user, email)
      ensures !ok && !CommitLost(old(script), CallsBefore(s0, rows) - 1) ==> Untouched(s0, now)
      ensures ok ==>
                && now.rec.user == user
                && now.users[user].enabled == (s0.rec.user in s0.users ==> s0.users[s0.rec.user].enabled)
      ensures old(trace) <= trace && FineSince(s0, |old(trace)|, trace)
    {
      ghost var script0, n := script, CallsBefore(s0, rows) - 1;
      var moves, ids;
      ok, moves, ids := Prepare(rows, user, s0);
      FirstOkSplit(script0, n, n + 1);
      if !ok { return; }
      MovedIsWorking(now, rows, moves, ids, user, email);
      ok := Commit(moves, ids, user, email);
    }

    /** Up to the point where the records have moved, or everything is undone. */
    method SwitchOrUndo(rows: seq<SourceRow>, newEmail: string) returns (ok: bool)
      requires Valid() && Lists(rows, now.rec.sources) && trace == []
      modifies this
      ensures Valid() && sent == old(sent)
      ensures ok <==> FirstOk(old(script), CallsBefore(old(now), rows) + 1)
      ensures ok ==> SwitchedTo(old(now), now, now.rec.user, newEmail)
      ensures ok ==> now.rec.user !in old(now.users) && now.rec.user != old(now.rec.user)
      ensures ok ==> now.users.Keys == old(now.users.Keys) + {now.rec.user}
      ensures ok ==> forall u :: u in old(now.users) ==> now.users[u] == old(now.users[u])
      ensures ok ==> script == old(script)[CallsBefore(old(now), rows) + 1..]
      ensures !ok && !CommitLost(old(script), CallsBefore(old(now), rows)) ==> Untouched(old(now), now)
      ensures old(Working(now)) ==> (AllWorking(trace) <==> !Stranded(old(script), CallsBefore(old(now), rows)))
    {
      ghost var s0, script0, n := now, script, CallsBefore(now, rows);
      var user;
      ok, user := CreateUser();
      if !ok { return; }
      AfterCreate(script0, n);
      assert now.users.Keys == s0.users.Keys + {user};
      ok := MoveOver(rows, user, newEmail, s0);
      if !ok {
        ghost var before, trace1 := now, trace;
        var _ := DeleteUser(user);
        if Working(s0) {
          StrandedAtTheEnd(s0, trace1, now);
          UndoneIsWorkingIff(s0, before, now, user, newEmail, script0, n);
        }
      } else if Working(s0) {
        FineIsWorking(s0, trace);
      }
    }

    /** The swap up to its emails. */
    method Replace(rows: seq<SourceRow>, newEmail: string) returns (out: Outcome)
      requires Valid() && Lists(rows, now.rec.sources) && trace == []
      modifies this
      ensures sent == old(sent)
      ensures old(Working(now)) ==> (AllWorking(trace) <==> !Stranded(old(script), CallsBefore(old(now), rows)))
      ensures out.Failed? && !CommitLost(old(script), CallsBefore(old(now), rows)) ==> Untouched(old(now), now)
      ensures !out.Failed? ==> SwitchedTo(old(now), now, now.rec.user, newEmail) && now.rec.user !in old(now.users)
      ensures out.Swapped? ==> old(now.rec.user) !in now.users
      ensures FirstOk(old(script), CallsBefore(old(now), rows) + 2)
                && old(now.rec.user in now.users ==> now.users[now.rec.user].ours) ==>
                out.Swapped?
    {
      ghost var s0, script0, n := now, script, CallsBefore(now, rows);
      var oldUser := now.rec.user;
      var ok := SwitchOrUndo(rows, newEmail);
      FirstOkSplit(script0, n + 1, n + 2);
      if !ok { return Failed; }
      ghost var s1 := now;
      ok := DeleteUser(oldUser);
      DeletingOldIsHarmless(s0, s1, now, oldUser, newEmail);
      return if ok then Swapped else OldUserNotRemoved;
    }

    /** The swap, from the creation of the new user on. At no moment are the records without a working
        login, except in one way: the transaction commits, the job is told it failed, and the
        compensation deletes the user the records have just moved to. A failure that did not lose the
        commit leaves records and old user as they were, and emails go out only when everything, the
        delete of the old user included, went through. */
    method Run(rows: seq<SourceRow>, newEmail: string, priorEmail: Option<string>) returns (out: Outcome)
      requires Valid() && Lists(rows, now.rec.sources) && trace == []
      modifies this
      ensures old(Working(now)) ==> (AllWorking(trace) <==> !Stranded(old(script), CallsBefore(old(now), rows)))
      ensures out.Failed? && !CommitLost(old(script), CallsBefore(old(now), rows)) ==> Untouched(old(now), now)
      ensures !out.Failed? ==> SwitchedTo(old(now), now, now.rec.user, newEmail) && now.rec.user !in old(now.users)
      ensures !out.Failed? ==> now.users[now.rec.user].enabled ==
                                 old(now.rec.user in now.users ==> now.users[now.rec.user].enabled)
      ensures out.Swapped? ==> old(now.rec.user) !in now.users
      ensures sent == old(sent) + if !out.Swapped? then []
                else [AccessReady(newEmail)] + (if priorEmail.Some? then [LoginChanged(priorEmail.value)] else [])
      ensures FirstOk(old(script), CallsBefore(old(now), rows) + 2)
                && old(now.rec.user in now.users ==> now.users[now.rec.user].ours) ==>
                out.Swapped?
    {
      out := Replace(rows, newEmail);
      if out.Swapped? {
        sent := sent + ([AccessReady(newEmail)] + if priorEmail.Some? then [LoginChanged(priorEmail.value)] else []);
      }
    }
  }

  /** What the compensation leaves: it is harmless exactly if it does not hit a commit it did not
      learn of. */
  lemma UndoneIsWorkingIff(s0: Snap, s: Snap, s': Snap, user: nat, email: string, script: seq<Answer>, n: nat)
    requires Working(s0) && user !in s0.users
    requires if CommitLost(script, n) then SwitchedTo(s0, s, user, email) else Untouched(s0, s)
    requires s' == s || s' == s.(users := s.users - {user})
    requires CommitLost(script, n) ==> (s'.users == s.users - {user} <==> n + 1 < |script| && !script[n + 1].Refused?)
    ensures Working(s') <==> !Stranded(script, n)
  {
  }

  lemma DeletingOldIsHarmless(s0: Snap, s: Snap, s': Snap, oldUser: nat, email: string)
    requires SwitchedTo(s0, s, s.rec.user, email) && s.rec.user != oldUser
    requires s' == s || s' == s.(users := s.users - {oldUser})
    ensures SwitchedTo(s0, s', s.rec.user, email)
  {
  }

  /** The records name the new user, which exists, has every recorded role for as long as its sources
      last, and is enabled exactly if the old one is or is gone. */
  ghost predicate SwitchedTo(s0: Snap, s: Snap, user: nat, email: string) {
    && s.rec.user == user && s.rec.email == email && s.rec.sources.Keys == s0.rec.sources.Keys
    && (forall id :: id in s.rec.sources ==> s.rec.sources[id] == s0.rec.sources[id].(role := s.rec.sources[id].role))
    && Working(s) && Covered(s)
    && s.users[user].enabled == EnabledBefore(s0)
  }

  /** The old user is let in; one that is gone already counts as that. */
  ghost predicate EnabledBefore(s0: Snap) {
    s0.rec.user in s0.users ==> s0.users[s0.rec.user].enabled
  }
}
