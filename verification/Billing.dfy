/** The billing rows of one client: one per order and cycle, at most one of them active per holder and
    subscription, each with the flag that says whether its holder takes the seat. */
module Billing {
  import opened Prelude

  datatype Status = Active | Completed | Cancelled

  datatype CycleKey = CycleKey(order: string, cycle: nat)

  datatype Row = Row(holder: string, sub: Option<string>, plan: string, status: Status, seated: bool)

  type Table = map<CycleKey, Row>

  /** What a grant knows of the purchase; `cycleIndex` is Wix's, absent or 0 on a first purchase. */
  datatype Assignment = Assignment(
    holder: string, order: string, sub: Option<string>, cycleIndex: Option<nat>, plan: Option<string>)
  {
    function Cycle(): (n: nat)
      ensures n >= 1
    {
      if cycleIndex.Some? && cycleIndex.value > 0 then cycleIndex.value else 1
    }
    function Key(): CycleKey { CycleKey(order, Cycle()) }
    predicate Renews() { sub.Some? && Cycle() > 1 }
  }

  // --- The three statements of a billing write ---

  /** UPDATE ... SET status = 'completed' on the active rows of the subscription's earlier cycles,
      whoever holds them. */
  function Closed(t: Table, a: Assignment): Table {
    if !a.Renews() then t
    else map k | k in t :: if t[k].sub == a.sub && k.cycle < a.Cycle() && t[k].status.Active?
                           then t[k].(status := Completed) else t[k]
  }

  predicate Earlier(t: Table, a: Assignment, k: CycleKey) {
    k in t && t[k].sub == a.sub && k.cycle < a.Cycle()
  }

  /** The latest of the subscription's earlier cycles; of several with one index, any. */
  predicate LatestEarlier(t: Table, a: Assignment, k: CycleKey) {
    Earlier(t, a, k) && forall o :: o in t && Earlier(t, a, o) ==> o.cycle <= k.cycle
  }

  /** The flag a new cycle starts with. */
  ghost predicate CarriedSeat(t: Table, a: Assignment, seat: bool) {
    if a.Renews() && exists k :: Earlier(t, a, k)
    then exists k :: LatestEarlier(t, a, k) && t[k].seated == seat
    else seat
  }

  /** The row the INSERT ... ON CONFLICT (order, cycle) DO UPDATE leaves under its key. */
  function Upserted(t: Table, a: Assignment, seat: bool): Row {
    if a.Key() in t
    then t[a.Key()].(sub := if a.sub.Some? then a.sub else t[a.Key()].sub,
                     plan := if a.plan.Some? then a.plan.value else t[a.Key()].plan)
    else Row(a.holder, a.sub, if a.plan.Some? then a.plan.value else "", Active, seat)
  }

  /** The partial unique index: two active rows of one holder and subscription. */
  predicate Clash(r: Row, o: Row) {
    r.status.Active? && o.status.Active? && r.holder == o.holder && r.sub.Some? && r.sub == o.sub
  }

  ghost predicate OneActive(t: Table) {
    forall k, o :: k in t && o in t && k != o ==> !Clash(t[k], t[o])
  }

  predicate Trips(t: Table, a: Assignment, row: Row) {
    exists k :: k in t && k != a.Key() && Clash(t[k], row)
  }

  // --- The statements in the words of the rows ---

  /** The cycle a write is for: Wix's index, or 1 where it gives none or 0. */
  ghost predicate IsCycle(a: Assignment, n: nat) {
    n == if a.cycleIndex == None || a.cycleIndex == Some(0) then 1 else a.cycleIndex.value
  }

  /** The first statement completes exactly the active earlier cycles of the subscription, and only for a
      later cycle of one. */
  lemma ClosedMeans(t: Table, a: Assignment, n: nat)
    requires IsCycle(a, n)
    ensures Closed(t, a).Keys == t.Keys
    ensures forall k :: k in t ==>
              Closed(t, a)[k] ==
                if a.sub != None && n > 1 && t[k].sub == a.sub && k.cycle < n && t[k].status == Active
                then Row(t[k].holder, t[k].sub, t[k].plan, Completed, t[k].seated) else t[k]
  {
  }

  ghost predicate Before(t: Table, sub: Option<string>, n: nat, k: CycleKey) {
    k in t && t[k].sub == sub && k.cycle < n
  }

  /** The seat a new cycle starts with: that of a latest earlier cycle of its subscription, if it has one. */
  lemma SeatMeans(t: Table, a: Assignment, n: nat, seat: bool)
    requires IsCycle(a, n)
    ensures CarriedSeat(t, a, seat) <==>
              if a.sub != None && n > 1 && exists k :: Before(t, a.sub, n, k)
              then exists k :: && Before(t, a.sub, n, k) && t[k].seated == seat
                               && forall o :: Before(t, a.sub, n, o) ==> o.cycle <= k.cycle
              else seat == true
  {
    forall k ensures Earlier(t, a, k) <==> Before(t, a.sub, n, k) {}
    forall k ensures LatestEarlier(t, a, k) <==>
                     Before(t, a.sub, n, k) && forall o :: Before(t, a.sub, n, o) ==> o.cycle <= k.cycle {}
  }

  /** The row under its order and cycle: a new one is active and has everything from the purchase; a known
      one keeps holder, status and seat, and takes over a subscription and a plan if the purchase has one. */
  lemma UpsertMeans(t: Table, a: Assignment, n: nat, seat: bool)
    requires IsCycle(a, n)
    ensures a.Key() == CycleKey(a.order, n)
    ensures var key := CycleKey(a.order, n);
            var row := Upserted(t, a, seat);
            if key in t then
              && row.holder == t[key].holder && row.status == t[key].status && row.seated == t[key].seated
              && row.sub == (if a.sub == None then t[key].sub else a.sub)
              && (a.plan == None ==> row.plan == t[key].plan) && (a.plan != None ==> Some(row.plan) == a.plan)
            else
              && row.holder == a.holder && row.sub == a.sub && row.status == Active && row.seated == seat
              && (a.plan == None ==> row.plan == "") && (a.plan != None ==> Some(row.plan) == a.plan)
  {
  }

  /** Leaving and claiming back set the seat on the holder's active rows of the plan, and nowhere else; a
      cancellation sets the status of its rows. */
  lemma OthersMean(t: Table, t': Table, holder: string, plan: string, keys: set<CycleKey>)
    ensures Next(t, Leave(holder, plan), t') ==> SeatSet(t, t', holder, plan, false)
    ensures Next(t, Rejoin(holder, plan), t') ==> SeatSet(t, t', holder, plan, true)
    ensures Next(t, Cancel(keys), t') ==> t'.Keys == t.Keys && forall k :: k in t ==>
              t'[k] == if k in keys then Row(t[k].holder, t[k].sub, t[k].plan, Cancelled, t[k].seated) else t[k]
  {
  }

  ghost predicate SeatSet(t: Table, t': Table, holder: string, plan: string, seat: bool) {
    t'.Keys == t.Keys && forall k :: k in t ==>
      t'[k] == if t[k].holder == holder && t[k].plan == plan && t[k].status == Active
               then Row(t[k].holder, t[k].sub, t[k].plan, Active, seat) else t[k]
  }

  // --- When a write trips the index ---

  /** Said of the table before the write: a new cycle trips exactly if a cycle as late or later is
      still active for the holder and subscription; a known one exactly if it is active and this
      write moves it to a subscription whose active row is another, and not one it has just closed. */
  ghost predicate WouldTrip(t: Table, a: Assignment) {
    if a.Key() !in t
    then a.sub.Some? && exists k ::
           k in t && t[k].status.Active? && t[k].holder == a.holder && t[k].sub == a.sub && k.cycle >= a.Cycle()
    else t[a.Key()].status.Active? && a.sub.Some? && t[a.Key()].sub != a.sub &&
         exists k :: k in t && t[k].status.Active? && t[k].holder == t[a.Key()].holder && t[k].sub == a.sub
             && k.cycle >= a.Cycle()
  }

  ghost predicate CyclesPositive(t: Table) {
    forall k :: k in t ==> k.cycle >= 1
  }

  lemma TripsIff(t: Table, a: Assignment, seat: bool)
    requires OneActive(t) && CyclesPositive(t)
    ensures Trips(Closed(t, a), a, Upserted(Closed(t, a), a, seat)) <==> WouldTrip(t, a)
  {
    var c := Closed(t, a);
    var row := Upserted(c, a, seat);
    if Trips(c, a, row) {
      var k :| k in c && k != a.Key() && Clash(c[k], row);
      assert t[k].status.Active? && t[k].holder == row.holder && t[k].sub == row.sub;
      assert a.Key() in t ==> !Clash(t[k], t[a.Key()]);
    }
    if WouldTrip(t, a) {
      var k :| k in t && t[k].status.Active? && t[k].holder == row.holder && t[k].sub == a.sub && k.cycle >= a.Cycle();
      assert c[k] == t[k];
      assert k != a.Key();
      assert Clash(c[k], row);
    }
  }

  // --- Histories ---

  datatype Event =
    | Purchase(a: Assignment)
    | Leave(holder: string, plan: string)
    | Rejoin(holder: string, plan: string)
    | Cancel(keys: set<CycleKey>)

  /** UPDATE ... SET holder_seated on the holder's active rows of the plan. */
  function Reseated(t: Table, holder: string, plan: string, seat: bool): Table {
    map k | k in t :: if t[k].holder == holder && t[k].plan == plan && t[k].status.Active? then t[k].(seated := seat)
        else t[k]
  }

  function Ended(t: Table, keys: set<CycleKey>): Table {
    map k | k in t :: if k in keys then t[k].(status := Cancelled) else t[k]
  }

  /** A write that trips the index fails after its first statement has taken effect. */
  ghost predicate Written(t: Table, a: Assignment, seat: bool, t': Table) {
    var c := Closed(t, a);
    && CarriedSeat(c, a, seat)
    && t' == if Trips(c, a, Upserted(c, a, seat)) then c else c[a.Key() := Upserted(c, a, seat)]
  }

  ghost predicate Next(t: Table, ev: Event, t': Table) {
    match ev
    case Purchase(a) => exists seat :: Written(t, a, seat, t')
    case Leave(holder, plan) => t' == Reseated(t, holder, plan, false)
    case Rejoin(holder, plan) => t' == Reseated(t, holder, plan, true)
    case Cancel(keys) => t' == Ended(t, keys)
  }

  /** The cycles of a subscription come in order, any of them any number of times. */
  ghost predicate InOrder(t: Table, ev: Event) {
    ev.Purchase? && ev.a.sub.Some? ==>
      if ev.a.Key() in t then t[ev.a.Key()].sub == ev.a.sub
      else forall k :: k in t && t[k].sub == ev.a.sub ==> k.cycle < ev.a.Cycle() && t[k].holder == ev.a.holder
  }

  ghost predicate SameSub(t: Table, k: CycleKey, o: CycleKey) {
    k in t && o in t && t[k].sub.Some? && t[k].sub == t[o].sub
  }

  ghost predicate Newest(t: Table, k: CycleKey) {
    k in t && forall o :: SameSub(t, k, o) ==> o.cycle <= k.cycle
  }

  /** Only the newest cycle of a subscription is active, and it is unless it was cancelled. */
  ghost predicate Orderly(t: Table) {
    && CyclesPositive(t)
    && (forall k, o :: SameSub(t, k, o) ==> t[k].holder == t[o].holder && (k.cycle == o.cycle ==> k == o))
    && (forall k, o :: SameSub(t, k, o) && t[k].status.Active? ==> o.cycle <= k.cycle)
    && (forall k :: Newest(t, k) && t[k].sub.Some? ==> !t[k].status.Completed?)
  }

  lemma OrderlyIsOneActive(t: Table)
    requires Orderly(t)
    ensures OneActive(t)
  {
    forall k, o | k in t && o in t && k != o ensures !Clash(t[k], t[o]) {
      if Clash(t[k], t[o]) { assert SameSub(t, k, o) && SameSub(t, o, k); }
    }
  }

  lemma InOrderNeverTrips(t: Table, a: Assignment)
    requires Orderly(t) && InOrder(t, Purchase(a))
    ensures !WouldTrip(t, a)
  {
  }

  lemma ReplayClosesNothing(t: Table, a: Assignment)
    requires Orderly(t) && InOrder(t, Purchase(a)) && a.Key() in t
    ensures Closed(t, a) == t
  {
    forall k | k in t && t[k].sub == a.sub && k.cycle < a.Cycle() && a.Renews() ensures !t[k].status.Active? {
      assert SameSub(t, k, a.Key());
    }
  }

  /** In order, a write always lands. */
  lemma InOrderWrite(t: Table, a: Assignment, t': Table) returns (seat: bool)
    requires Orderly(t) && InOrder(t, Purchase(a)) && Next(t, Purchase(a), t')
    ensures CarriedSeat(Closed(t, a), a, seat)
    ensures t' == Closed(t, a)[a.Key() := Upserted(Closed(t, a), a, seat)]
  {
    OrderlyIsOneActive(t);
    InOrderNeverTrips(t, a);
    seat :| Written(t, a, seat, t');
    TripsIff(t, a, seat);
  }

  /** A purchase event seen before leaves every status and every seat as it is, and no row is added. */
  lemma ReplayChangesNoStatus(t: Table, a: Assignment, t': Table)
    requires Orderly(t) && InOrder(t, Purchase(a)) && Next(t, Purchase(a), t') && a.Key() in t
    ensures t'.Keys == t.Keys
    ensures forall k :: k in t ==> t'[k].status == t[k].status && t'[k].seated == t[k].seated &&
                                   t'[k].sub == t[k].sub && t'[k].holder == t[k].holder
  {
    ReplayClosesNothing(t, a);
    var seat := InOrderWrite(t, a, t');
  }

  /** A new cycle closes the one before it and takes its place. */
  lemma NewCycleTakesOver(t: Table, a: Assignment, t': Table)
    requires Orderly(t) && InOrder(t, Purchase(a)) && Next(t, Purchase(a), t') && a.Key() !in t
    ensures t'.Keys == t.Keys + {a.Key()}
    ensures t'[a.Key()].status.Active? && t'[a.Key()].sub == a.sub && t'[a.Key()].holder == a.holder
    ensures forall k :: k in t ==>
              && t'[k].seated == t[k].seated && t'[k].sub == t[k].sub && t'[k].holder == t[k].holder
              && t'[k].status == if a.sub.Some? && t[k].sub == a.sub && t[k].status.Active? then Completed
                   else t[k].status
  {
    var seat := InOrderWrite(t, a, t');
  }

  lemma NewCycleIsOrderly(t: Table, a: Assignment, t': Table)
    requires Orderly(t) && InOrder(t, Purchase(a)) && Next(t, Purchase(a), t') && a.Key() !in t
    ensures Orderly(t')
  {
    NewCycleTakesOver(t, a, t');
    TakenOverIsOrderly(t, a, t');
  }

  lemma TakenOverIsOrderly(t: Table, a: Assignment, t': Table)
    requires Orderly(t) && InOrder(t, Purchase(a)) && a.Key() !in t && t'.Keys == t.Keys + {a.Key()}
    requires t'[a.Key()].status.Active? && t'[a.Key()].sub == a.sub && t'[a.Key()].holder == a.holder
    requires forall k :: k in t ==>
               && t'[k].sub == t[k].sub && t'[k].holder == t[k].holder
               && t'[k].status == if a.sub.Some? && t[k].sub == a.sub && t[k].status.Active? then Completed
                    else t[k].status
    ensures Orderly(t')
  {
    forall k, o | SameSub(t', k, o)
      ensures t'[k].holder == t'[o].holder && (k.cycle == o.cycle ==> k == o)
      ensures t'[k].status.Active? ==> o.cycle <= k.cycle
    {
      assert k in t && o in t ==> SameSub(t, k, o);
    }
    forall k | Newest(t', k) && t'[k].sub.Some? ensures !t'[k].status.Completed? {
      if k != a.Key() {
        assert t'[k].sub == a.sub ==> SameSub(t', k, a.Key());
        forall o | SameSub(t, k, o) ensures o.cycle <= k.cycle { assert SameSub(t', k, o); }
        assert Newest(t, k);
      }
    }
  }

  lemma SameShapeIsOrderly(t: Table, t': Table)
    requires Orderly(t) && t'.Keys == t.Keys
    requires forall k :: k in t ==> t'[k].sub == t[k].sub && t'[k].holder == t[k].holder &&
                                    (t'[k].status == t[k].status || t'[k].status.Cancelled?)
    ensures Orderly(t')
  {
    forall k, o | SameSub(t', k, o)
      ensures t'[k].holder == t'[o].holder && (k.cycle == o.cycle ==> k == o)
      ensures t'[k].status.Active? ==> o.cycle <= k.cycle
    {
      assert SameSub(t, k, o);
    }
    forall k | Newest(t', k) && t'[k].sub.Some? ensures !t'[k].status.Completed? {
      forall o | SameSub(t, k, o) ensures o.cycle <= k.cycle { assert SameSub(t', k, o); }
      assert Newest(t, k);
    }
  }

  lemma StepIsOrderly(t: Table, ev: Event, t': Table)
    requires Orderly(t) && InOrder(t, ev) && Next(t, ev, t')
    ensures Orderly(t')
  {
    if ev.Purchase? {
      if ev.a.Key() in t {
        ReplayClosesNothing(t, ev.a);
        ReplayChangesNoStatus(t, ev.a, t');
        SameShapeIsOrderly(t, t');
      } else {
        NewCycleIsOrderly(t, ev.a, t');
      }
    } else {
      SameShapeIsOrderly(t, t');
    }
  }

  /** The states `ts` follow one another by the events `evs`, each in order. */
  ghost predicate History(ts: seq<Table>, evs: seq<Event>) {
    |ts| == |evs| + 1 && forall i: nat :: i < |evs| ==> Follows(ts, evs, i)
  }

  ghost predicate Follows(ts: seq<Table>, evs: seq<Event>, i: nat)
    requires i < |evs| && |ts| == |evs| + 1
  {
    InOrder(ts[i], evs[i]) && Next(ts[i], evs[i], ts[i + 1])
  }

  /** From an empty table on: no write ever trips the index, and only the newest cycle of each
      subscription is active unless cancelled. */
  lemma {:induction false} RenewalsStayOrderly(ts: seq<Table>, evs: seq<Event>, i: nat)
    requires History(ts, evs) && ts[0] == map[] && i < |ts|
    ensures Orderly(ts[i]) && OneActive(ts[i])
    ensures i < |evs| && evs[i].Purchase? ==> !WouldTrip(ts[i], evs[i].a)
  {
    if i > 0 {
      RenewalsStayOrderly(ts, evs, i - 1);
      assert Follows(ts, evs, i - 1);
      StepIsOrderly(ts[i - 1], evs[i - 1], ts[i]);
    }
    OrderlyIsOneActive(ts[i]);
    assert i < |evs| ==> Follows(ts, evs, i);
    if i < |evs| && evs[i].Purchase? { InOrderNeverTrips(ts[i], evs[i].a); }
  }

  // --- Leaving for good ---

  /** The seat of subscription `sub` is released on cycle `from` and every later one there is. */
  ghost predicate ReleasedFrom(t: Table, sub: string, from: nat) {
    && (exists k :: k in t && t[k].sub == Some(sub) && k.cycle >= from)
    && forall k :: k in t && t[k].sub == Some(sub) && k.cycle >= from ==> !t[k].seated
  }

  /** The holder claims the seat of `sub` back: only on an active row, under its own plan. */
  ghost predicate ClaimsBack(t: Table, ev: Event, sub: string) {
    ev.Rejoin? && exists k ::
      k in t && t[k].sub == Some(sub) && t[k].status.Active? && t[k].holder == ev.holder && t[k].plan == ev.plan
  }

  lemma StepKeepsReleased(t: Table, ev: Event, t': Table, sub: string, from: nat)
    requires Orderly(t) && InOrder(t, ev) && Next(t, ev, t') && ReleasedFrom(t, sub, from) && !ClaimsBack(t, ev, sub)
    ensures ReleasedFrom(t', sub, from)
  {
    var k :| k in t && t[k].sub == Some(sub) && k.cycle >= from;
    if ev.Purchase? && ev.a.Key() in t {
      ReplayChangesNoStatus(t, ev.a, t');
    } else if ev.Purchase? {
      NewCycleTakesOver(t, ev.a, t');
      if ev.a.sub == Some(sub) { NewCycleInheritsRelease(t, ev.a, t', sub, from); }
    }
    assert k in t' && t'[k].sub == Some(sub);
  }

  lemma NewCycleInheritsRelease(t: Table, a: Assignment, t': Table, sub: string, from: nat)
    requires Orderly(t) && InOrder(t, Purchase(a)) && Next(t, Purchase(a), t') && a.Key() !in t
    requires a.sub == Some(sub) && ReleasedFrom(t, sub, from)
    ensures a.Key() in t' && !t'[a.Key()].seated
  {
    var seat := InOrderWrite(t, a, t');
    var c := Closed(t, a);
    var k :| k in t && t[k].sub == Some(sub) && k.cycle >= from;
    assert Earlier(c, a, k);
    var o :| LatestEarlier(c, a, o) && c[o].seated == seat;
    assert k.cycle <= o.cycle && c[o].seated == t[o].seated;
  }

  lemma LeaveReleases(t: Table, k: CycleKey, t': Table)
    requires Orderly(t) && k in t && t[k].status.Active? && t[k].sub.Some?
    requires Next(t, Leave(t[k].holder, t[k].plan), t')
    ensures ReleasedFrom(t', t[k].sub.value, k.cycle)
  {
    forall o | o in t' && t'[o].sub == t[k].sub && o.cycle >= k.cycle ensures o == k {
      assert SameSub(t, k, o);
    }
    assert k in t' && t'[k].sub == t[k].sub;
  }

  /** Leaving on the active cycle of a subscription releases the seat there and on every cycle that
      follows, whatever else happens, until the holder claims it back. */
  lemma {:induction false} LeaveIsDurable(ts: seq<Table>, evs: seq<Event>, i: nat, n: nat, k: CycleKey)
    requires History(ts, evs) && ts[0] == map[] && i < n < |ts|
    requires LeavesOn(ts[i], evs[i], k)
    requires forall j :: i < j < n ==> !ClaimsBack(ts[j], evs[j], ts[i][k].sub.value)
    ensures ReleasedFrom(ts[n], ts[i][k].sub.value, k.cycle)
  {
    var sub := ts[i][k].sub.value;
    RenewalsStayOrderly(ts, evs, n - 1);
    assert Follows(ts, evs, n - 1);
    if n == i + 1 {
      LeaveReleases(ts[i], k, ts[n]);
    } else {
      LeaveIsDurable(ts, evs, i, n - 1, k);
      StepKeepsReleased(ts[n - 1], evs[n - 1], ts[n], sub, k.cycle);
    }
  }

  /** The holder of the active cycle `k` of a subscription leaves its plan. */
  ghost predicate LeavesOn(t: Table, ev: Event, k: CycleKey) {
    k in t && t[k].status.Active? && t[k].sub.Some? && ev == Leave(t[k].holder, t[k].plan)
  }

  /** A purchase under a new subscription starts seated whatever the holder left before. */
  lemma RepurchaseStartsSeated(t: Table, a: Assignment, t': Table)
    requires Orderly(t) && Next(t, Purchase(a), t') && a.Key() !in t && a.sub.Some?
    requires forall k :: k in t ==> t[k].sub != a.sub
    ensures a.Key() in t' && t'[a.Key()].seated
  {
    OrderlyIsOneActive(t);
    var seat :| Written(t, a, seat, t');
    TripsIff(t, a, seat);
    assert forall k :: !Earlier(Closed(t, a), a, k);
  }

  // --- The write as it runs ---

  lemma {:induction false} LatestExists(t: Table, a: Assignment, keys: set<CycleKey>) returns (k: CycleKey)
    requires keys != {} && forall o :: o in keys ==> Earlier(t, a, o)
    ensures k in keys && forall o :: o in keys ==> o.cycle <= k.cycle
    decreases keys
  {
    var o :| o in keys;
    if keys == {o} {
      k := o;
    } else {
      k := LatestExists(t, a, keys - {o});
      if k.cycle < o.cycle { k := o; }
    }
  }

  lemma WriteKeepsIndex(t: Table, a: Assignment, seat: bool, t': Table)
    requires OneActive(t) && CyclesPositive(t) && Written(t, a, seat, t')
    ensures OneActive(t') && CyclesPositive(t') && Next(t, Purchase(a), t')
  {
    var c := Closed(t, a);
    var row := Upserted(c, a, seat);
    forall k, o | k in c && o in c && k != o ensures !Clash(c[k], c[o]) {
      assert !Clash(t[k], t[o]);
    }
    assert forall k :: k in c && k != a.Key() ==> (Clash(c[k], row) <==> Clash(row, c[k]));
  }

  class BillingTable {
    var rows: Table

    method CloseEarlierCycles(a: Assignment)
      modifies this
      ensures rows == Closed(old(rows), a)
    {
      rows := Closed(rows, a);
    }

    /** SELECT holder_seated ... ORDER BY cycle_index DESC LIMIT 1. */
    method PriorSeat(a: Assignment) returns (seat: bool)
      ensures CarriedSeat(rows, a, seat)
    {
      seat := true;
      if a.Renews() {
        var earlier := set k | k in rows && Earlier(rows, a, k);
        assert forall k :: Earlier(rows, a, k) ==> k in earlier;
        if earlier != {} {
          ghost var latest := LatestExists(rows, a, earlier);
          assert LatestEarlier(rows, a, latest);
          var k :| k in earlier && LatestEarlier(rows, a, k);
          seat := rows[k].seated;
          assert LatestEarlier(rows, a, k) && rows[k].seated == seat;
        }
      }
    }

    /** One billing write: three statements that commit one by one. It fails exactly when the table
        says it would, having closed the earlier cycles and nothing more; what it returns otherwise
        is the flag of the row under this order and cycle. */
    method WriteBillingCycle(a: Assignment) returns (tripped: bool, seated: bool)
      requires OneActive(rows) && CyclesPositive(rows)
      modifies this
      ensures OneActive(rows) && CyclesPositive(rows)
      ensures Next(old(rows), Purchase(a), rows)
      ensures tripped <==> WouldTrip(old(rows), a)
      ensures tripped ==> rows == Closed(old(rows), a)
      ensures !tripped ==> a.Key() in rows && rows[a.Key()].seated == seated
      ensures !tripped && a.Key() in old(rows) ==> seated == old(rows)[a.Key()].seated
    {
      ghost var t := rows;
      CloseEarlierCycles(a);
      var seat := PriorSeat(a);
      var row := Upserted(rows, a, seat);
      TripsIff(t, a, seat);
      tripped := Trips(rows, a, row);
      if !tripped { rows := rows[a.Key() := row]; }
      WriteKeepsIndex(t, a, seat, rows);
      seated := row.seated;
    }
  }
}
