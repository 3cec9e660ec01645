/** finalizeRevoke: delete the door-system user and the personal data of a member whose last access
    is gone, behind guards that must not let it take anything from anybody else. */
module Finalize {
  import opened Prelude

  datatype Access = Access(client: string, master: string, status: string, user: Option<nat>)

  datatype Master = Master(sourceTag: string, personalData: bool)

  datatype Role = Role(id: nat, elevated: bool)

  /** `owner` is the client in the ownership marker AccessSync puts on users it creates. */
  datatype User = User(roles: set<Role>, owner: Option<string>)

  datatype Reason =
    | AccessMissing | AlreadyDeleted | StillActive | ForeignSourceTag | SharedUser | OtherAssignments
    | Unowned | CrossTenant | Elevated

  datatype Outcome = Finalized | NotFinalized(reason: Reason) | Threw

  datatype Stores = Stores(accesses: map<string, Access>, masters: map<string, Master>, users: map<nat, User>) {
    ghost predicate Valid() {
      forall id :: id in accesses ==> accesses[id].master in masters
    }

    /** Another access row, of any client, that is not deleted and names the user. */
    predicate Shared(id: string, user: nat) {
      exists o :: o in accesses && o != id && accesses[o].user == Some(user) && accesses[o].status != "deleted"
    }

    /** The user may go: it is gone already, or ours, nobody else's, and holds no role at all. */
    predicate UserMayGo(id: string, tenant: string, user: nat) {
      && !Shared(id, user)
      && (user in users ==> users[user].roles == {} && users[user].owner == Some(tenant))
    }

    predicate Finalizable(id: string, tenant: string, user: Option<nat>)
      requires id in accesses ==> accesses[id].master in masters
    {
      && id in accesses && accesses[id].client == tenant
      && accesses[id].status == "inactive" && masters[accesses[id].master].sourceTag == "accesssync"
      && (user.Some? ==> UserMayGo(id, tenant, user.value))
    }

    function WithoutUser(user: Option<nat>): Stores {
      if user.None? then this else this.(users := users - {user.value})
    }

    /** The closing transaction. */
    function Closed(id: string): Stores
      requires id in accesses && accesses[id].master in masters
    {
      this.(accesses := accesses[id := accesses[id].(status := "deleted")],
            masters := masters[accesses[id].master := masters[accesses[id].master].(personalData := false)])
    }
  }

  /** Nobody else loses anything: every user another live access row names, and every user that still
      holds a role, is exactly as before; other access rows and other people's data are untouched. */
  ghost predicate NobodyElseTouched(before: Stores, after: Stores, id: string) {
    && (forall o, u ::
          && o in before.accesses && o != id && before.accesses[o].status != "deleted"
          && before.accesses[o].user == Some(u) ==>
          (u in after.users <==> u in before.users) && (u in before.users ==> after.users[u] == before.users[u]))
    && (forall u :: u in before.users && before.users[u].roles != {} ==>
         u in after.users && after.users[u] == before.users[u])
    && (forall u :: u in after.users ==> u in before.users && after.users[u] == before.users[u])
    && after.accesses.Keys == before.accesses.Keys
    && (forall o :: o in before.accesses && o != id ==> after.accesses[o] == before.accesses[o])
    && after.masters.Keys == before.masters.Keys
    && (forall m :: m in before.masters && (id in before.accesses ==> m != before.accesses[id].master) ==>
          after.masters[m] == before.masters[m])
  }

  lemma DeletingTouchesNobodyElse(s: Stores, id: string, tenant: string, user: Option<nat>)
    requires s.Valid() && s.Finalizable(id, tenant, user)
    ensures NobodyElseTouched(s, s.WithoutUser(user), id)
    ensures NobodyElseTouched(s, s.WithoutUser(user).Closed(id), id)
  {
  }

  /** Deleting the user does not take away what made the member finalizable: a retry goes through. */
  lemma StillFinalizable(s: Stores, id: string, tenant: string, user: Option<nat>)
    requires s.Valid() && s.Finalizable(id, tenant, user)
    ensures s.WithoutUser(user).Valid() && s.WithoutUser(user).Finalizable(id, tenant, user)
    ensures s.WithoutUser(user).WithoutUser(user) == s.WithoutUser(user)
  {
  }

  // --- In the words of the rows ---

  /** The member's access row is this client's and inactive, its person came from AccessSync, and the user,
      if there is one, is named by no other live row, and is gone or holds no role and is the client's. */
  ghost predicate MayEnd(s: Stores, id: string, tenant: string, user: Option<nat>) {
    && id in s.accesses && s.accesses[id].client == tenant && s.accesses[id].status == "inactive"
    && s.accesses[id].master in s.masters && s.masters[s.accesses[id].master].sourceTag == "accesssync"
    && forall u :: user == Some(u) ==>
         && (forall o :: o in s.accesses && s.accesses[o].user == Some(u) && s.accesses[o].status != "deleted" ==>
               o == id)
         && (u in s.users ==> s.users[u].owner == Some(tenant) && forall r :: r !in s.users[u].roles)
  }

  /** The row says deleted, the person's data and the user are gone, and all else is as it was. */
  ghost predicate Ended(s: Stores, t: Stores, id: string, user: Option<nat>) {
    && id in s.accesses && id in t.accesses && t.accesses[id] == s.accesses[id].(status := "deleted")
    && s.accesses[id].master in s.masters && s.accesses[id].master in t.masters
    && t.masters[s.accesses[id].master] == Master(s.masters[s.accesses[id].master].sourceTag, false)
    && (forall u :: u in t.users <==> u in s.users && user != Some(u))
    && NobodyElseTouched(s, t, id)
  }

  lemma MayEndMeans(s: Stores, id: string, tenant: string, user: Option<nat>)
    requires s.Valid()
    ensures s.Finalizable(id, tenant, user) <==> MayEnd(s, id, tenant, user)
  {
  }

  lemma EndedMeans(s: Stores, id: string, tenant: string, user: Option<nat>)
    requires s.Valid() && s.Finalizable(id, tenant, user)
    ensures Ended(s, s.WithoutUser(user).Closed(id), id, user)
  {
    DeletingTouchesNobodyElse(s, id, tenant, user);
  }

  /** What a refusal says is so, each when nothing before it in the order of the checks was. */
  ghost predicate Because(s: Stores, id: string, tenant: string, user: Option<nat>, reason: Reason) {
    var access := if id in s.accesses && s.accesses[id].client == tenant then Some(s.accesses[id]) else None;
    if reason == AccessMissing then access == None
    else if reason == AlreadyDeleted then access.Some? && access.value.status == "deleted"
    else if reason == StillActive then
      access.Some? && access.value.status != "deleted" && access.value.status != "inactive"
    else if reason == ForeignSourceTag then
      && access.Some? && access.value.status == "inactive"
      && access.value.master in s.masters && s.masters[access.value.master].sourceTag != "accesssync"
    else
      access.Some? && access.value.status == "inactive" && user.Some? && UserBecause(s, id, tenant, user.value, reason)
  }

  ghost predicate UserBecause(s: Stores, id: string, tenant: string, user: nat, reason: Reason) {
    if reason == SharedUser then
      exists o :: && o in s.accesses && o != id && s.accesses[o].user == Some(user) && s.accesses[o].status != "deleted"
    else if reason == OtherAssignments then user in s.users && exists r :: r in s.users[user].roles
    else if reason == Unowned then user in s.users && s.users[user].owner == None
    else if reason == CrossTenant then
      user in s.users && s.users[user].owner != None && s.users[user].owner != Some(tenant)
    else false
  }

  class FinalizeJob {
    var state: Stores
    var script: seq<Answer>

    /** Guards E and D: nobody shares the user and it holds no role assignment. */
    method GuardUser(id: string, user: nat) returns (refusal: Option<Outcome>)
      modifies this`script
      ensures refusal.None? ==> !state.Shared(id, user) && (user in state.users ==> state.users[user].roles == {})
      ensures refusal.Some? ==> refusal.value.Threw? || refusal.value.NotFinalized?
      ensures refusal.Some? && refusal.value.NotFinalized? ==>
                state.Shared(id, user) || (user in state.users && state.users[user].roles != {})
      ensures refusal.Some? && refusal.value.NotFinalized? ==>
                && (refusal.value.reason == SharedUser || refusal.value.reason == OtherAssignments)
                && forall tenant :: UserBecause(state, id, tenant, user, refusal.value.reason)
      ensures old(AllOk(script) && |script| >= 2) ==>
                refusal != Some(Threw) && AllOk(script) && |script| >= |old(script)| - 2
    {
      var took, ok := Takes(script), Succeeds(script);
      script := Rest(script);
      if !ok { return Some(Threw); }
      if state.Shared(id, user) { return Some(NotFinalized(SharedUser)); }
      took, ok := Takes(script), Succeeds(script);
      script := Rest(script);
      if !ok { return Some(Threw); }
      if user in state.users && state.users[user].roles != {} {
        var r :| r in state.users[user].roles;
        return Some(NotFinalized(OtherAssignments));
      }
      return None;
    }

    /** hardwareAdapter.deleteUser with its own guards; a user that is gone already is no error. */
    method DeleteUser(tenant: string, user: nat) returns (refusal: Option<Outcome>)
      modifies this
      ensures state == old(state) || state == old(state).WithoutUser(Some(user))
      ensures refusal.None? ==> state == old(state).WithoutUser(Some(user))
      ensures state != old(state) ==> old(user in state.users && state.users[user].owner == Some(tenant))
      ensures refusal.None? && old(user in state.users) ==> old(state.users[user].owner) == Some(tenant)
      ensures refusal.Some? ==> refusal.value.Threw? || refusal.value.NotFinalized?
      ensures refusal.Some? && refusal.value.NotFinalized? ==>
                && state == old(state) && user in state.users
                && (state.users[user].owner != Some(tenant) || state.users[user].roles != {})
                && refusal.value.reason in {Unowned, CrossTenant, Elevated}
                && (state.users[user].roles == {} ==>
                      forall id :: UserBecause(state, id, tenant, user, refusal.value.reason))
      ensures old(AllOk(script) && |script| >= 2) ==>
                refusal != Some(Threw) && AllOk(script) && |script| >= |old(script)| - 2
    {
      var took, ok := Takes(script), Succeeds(script);
      script := Rest(script);
      if !ok { return Some(Threw); }
      if user !in state.users {
        assert state.users - {user} == state.users;
        return None;
      }
      var u := state.users[user];
      if u.owner.None? { return Some(NotFinalized(Unowned)); }
      if u.owner != Some(tenant) { return Some(NotFinalized(CrossTenant)); }
      if exists r :: r in u.roles && r.elevated { return Some(NotFinalized(Elevated)); }
      took, ok := Takes(script), Succeeds(script);
      script := Rest(script);
      if took { state := state.WithoutUser(Some(user)); }
      return if ok then None else Some(Threw);
    }

    method Close(id: string) returns (ok: bool)
      requires id in state.accesses && state.accesses[id].master in state.masters
      modifies this
      ensures state == old(state) || state == old(state).Closed(id)
      ensures ok ==> state == old(state).Closed(id)
      ensures old(AllOk(script) && |script| >= 1) ==> ok
    {
      var took := Takes(script);
      ok := Succeeds(script);
      script := Rest(script);
      if took { state := state.Closed(id); }
    }

    /** A refusal leaves everything as it was. Whatever happens, only this member's row and data and
        its own unshared, roleless user are ever touched. With the services up it finalizes exactly
        the finalizable, and an attempt that threw, wherever it threw, leaves the member finalizable
        still, or finalized. */
    method FinalizeRevoke(id: string, tenant: string, user: Option<nat>) returns (out: Outcome)
      requires state.Valid()
      modifies this
      ensures state.Valid() && NobodyElseTouched(old(state), state, id)
      ensures out.NotFinalized? ==> state == old(state) && Because(state, id, tenant, user, out.reason)
      ensures out.Finalized? ==> old(MayEnd(state, id, tenant, user)) && Ended(old(state), state, id, user)
      ensures out.Finalized? ==>
                old(state.Finalizable(id, tenant, user)) && state == old(state).WithoutUser(user).Closed(id)
      ensures !old(state.Finalizable(id, tenant, user)) ==> state == old(state)
      ensures old(state.Finalizable(id, tenant, user)) ==>
                || (state.Finalizable(id, tenant, user)
                    && (state == old(state) || state == old(state).WithoutUser(user)))
                || state == old(state).WithoutUser(user).Closed(id)
      ensures old(AllOk(script) && |script| >= 6) ==>
                !out.Threw? && (out.Finalized? <==> old(MayEnd(state, id, tenant, user)))
    {
      ghost var s0 := state;
      MayEndMeans(s0, id, tenant, user);
      if s0.Finalizable(id, tenant, user) { EndedMeans(s0, id, tenant, user); }
      var ok := Succeeds(script);
      script := Rest(script);
      if !ok { return Threw; }
      if id !in state.accesses || state.accesses[id].client != tenant { return NotFinalized(AccessMissing); }
      var access := state.accesses[id];
      if access.status == "deleted" { return NotFinalized(AlreadyDeleted); }
      if access.status != "inactive" { return NotFinalized(StillActive); }
      if state.masters[access.master].sourceTag != "accesssync" { return NotFinalized(ForeignSourceTag); }
      if user.Some? {
        var refusal := GuardUser(id, user.value);
        if refusal.Some? { return refusal.value; }
        refusal := DeleteUser(tenant, user.value);
        if s0.Finalizable(id, tenant, user) {
          DeletingTouchesNobodyElse(s0, id, tenant, user);
          StillFinalizable(s0, id, tenant, user);
        }
        if refusal.Some? { return refusal.value; }
      }
      DeletingTouchesNobodyElse(s0, id, tenant, user);
      StillFinalizable(s0, id, tenant, user);
      ok := Close(id);
      return if ok then Finalized else Threw;
    }

    /** A retry with the services up, after any attempt that threw, ends in 'deleted' with the user and
        the data gone; one after a finished finalize changes nothing. */
    method FinalizeAndRetry(id: string, tenant: string, user: Option<nat>, retry: seq<Answer>)
        returns (first: Outcome, second: Outcome)
      requires state.Valid() && AllOk(retry) && |retry| >= 6
      modifies this
      ensures old(state.Finalizable(id, tenant, user)) ==> state == old(state).WithoutUser(user).Closed(id)
      ensures !old(state.Finalizable(id, tenant, user)) ==> state == old(state)
    {
      ghost var s0 := state;
      first := FinalizeRevoke(id, tenant, user);
      script := retry;
      second := FinalizeRevoke(id, tenant, user);
    }
  }
}
