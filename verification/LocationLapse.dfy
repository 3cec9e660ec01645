/** What a lapsed location does to the source rows of one member, and what turning it back on undoes,
    between payment failures and recoveries that touch the same rows. */
module LocationLapse {
  import opened Prelude

  datatype Reason = Lapse | OtherReason(text: string)

  datatype Status = Active | Failed | Waiting(state: string)

  /** A source row; `location` is that of its plan mapping, if it has one. */
  datatype Row = Row(location: Option<string>, status: Status, reason: Option<Reason>)

  datatype AccessStatus = AccessActive | AccessInactive | InFlight | Parked(state: string) | Removing | Deleted

  datatype Member = Member(rows: map<string, Row>, status: AccessStatus)

  datatype Op =
    | Suspend(location: string)
    | Restore(location: string)
    | PaymentFailed
    | PaymentRecovered
    | Regrant(key: string)

  /** The row an operation leaves; a regrant is the upsert of a grant, which keeps the reason. */
  function RowAfter(op: Op, key: string, r: Row): Row {
    match op
    case Suspend(l) => if r.status.Active? && r.location == Some(l) then r.(status := Failed, reason := Some(Lapse))
        else r
    case Restore(l) => if Marked(r) && r.location == Some(l) then r.(status := Active, reason := None) else r
    case PaymentFailed => if r.status.Active? then r.(status := Failed) else r
    case PaymentRecovered => if r.status.Failed? then r.(status := Active, reason := None) else r
    case Regrant(k) => if k == key then r.(status := Active) else r
  }

  /** Off because its location lapsed, as far as the row says. */
  predicate Marked(r: Row) {
    r.status.Failed? && r.reason == Some(Lapse)
  }

  /** Each operation, on any row. Only an active row can be turned off; a recovered payment opens every
      failed row and a restore only those a lapse of its own location marked, and both clear the reason. */
  lemma OperationsMean(k: string, r: Row, location: string)
    ensures RowAfter(PaymentFailed, k, r) == if r.status == Active then Row(r.location, Failed, r.reason) else r
    ensures RowAfter(PaymentRecovered, k, r) == if r.status == Failed then Row(r.location, Active, None) else r
    ensures RowAfter(Suspend(location), k, r) ==
              if r.status == Active && r.location == Some(location) then Row(r.location, Failed, Some(Lapse)) else r
    ensures RowAfter(Restore(location), k, r) ==
              if r == Row(Some(location), Failed, Some(Lapse)) then Row(Some(location), Active, None) else r
    ensures RowAfter(Regrant(k), k, r) == Row(r.location, Active, r.reason)
    ensures forall o :: o != k ==> RowAfter(Regrant(o), k, r) == r
  {
  }

  predicate AnyActive(rows: map<string, Row>) {
    exists k :: k in rows && rows[k].status.Active?
  }

  function Rollup(rows: map<string, Row>): AccessStatus {
    if AnyActive(rows) then AccessActive else AccessInactive
  }

  /** Rows and rolled-up status change in one transaction. */
  function Apply(m: Member, op: Op): Member {
    var rows := map k | k in m.rows :: RowAfter(op, k, m.rows[k]);
    Member(rows, Rollup(rows))
  }

  /** Every operation acts on each row by itself and rolls the status up. */
  lemma ApplyMeans(m: Member, op: Op)
    ensures var t := Apply(m, op);
            && t.rows.Keys == m.rows.Keys && (forall k :: k in m.rows ==> t.rows[k] == RowAfter(op, k, m.rows[k]))
            && ((exists k :: k in t.rows && t.rows[k].status == Active) ==> t.status == AccessActive)
            && ((forall k :: k in t.rows ==> t.rows[k].status != Active) ==> t.status == AccessInactive)
  {
  }

  function Run(m: Member, ops: seq<Op>): Member {
    if ops == [] then m else Apply(Run(m, ops[..|ops| - 1]), ops[|ops| - 1])
  }

  // --- The algebra of lapse and restore ---

  /** No earlier lapse of the location is still marked, and no active row of it carries a reason. */
  ghost predicate Unmarked(m: Member, location: string) {
    forall k :: k in m.rows && m.rows[k].location == Some(location) ==>
      !Marked(m.rows[k]) && (m.rows[k].status.Active? ==> m.rows[k].reason.None?)
  }

  lemma RestoreUndoesRow(location: string, k: string, r: Row)
    ensures RowAfter(Restore(location), k, RowAfter(Suspend(location), k, r)) == r <==>
              (r.location == Some(location) ==> !Marked(r) && (r.status.Active? ==> r.reason.None?))
  {
  }

  /** Turning a location off and on again is the identity on the member exactly if its status was
      rolled up and nothing of that location was marked or carried a reason before. */
  lemma RestoreUndoesSuspend(m: Member, location: string)
    ensures Apply(Apply(m, Suspend(location)), Restore(location)) == m <==>
              Unmarked(m, location) && m.status == Rollup(m.rows)
  {
    var m' := Apply(Apply(m, Suspend(location)), Restore(location));
    forall k | k in m.rows
      ensures m'.rows[k] == m.rows[k] <==>
              (m.rows[k].location == Some(location) ==>
                 !Marked(m.rows[k]) && (m.rows[k].status.Active? ==> m.rows[k].reason.None?))
    {
      RestoreUndoesRow(location, k, m.rows[k]);
    }
    if Unmarked(m, location) { assert m'.rows == m.rows; }
  }

  lemma RowsCommute(k: string, r: Row, a: Op, b: Op, l: string, n: string)
    requires l != n && (a == Suspend(l) || a == Restore(l)) && (b == Suspend(n) || b == Restore(n))
    ensures RowAfter(b, k, RowAfter(a, k, r)) == RowAfter(a, k, RowAfter(b, k, r))
  {
  }

  /** Operations on different locations commute: rows, reasons and rolled-up status. */
  lemma LocationsCommute(m: Member, a: Op, b: Op, l: string, n: string)
    requires l != n && (a == Suspend(l) || a == Restore(l)) && (b == Suspend(n) || b == Restore(n))
    ensures Apply(Apply(m, a), b) == Apply(Apply(m, b), a)
  {
    forall k | k in m.rows ensures RowAfter(b, k, RowAfter(a, k, m.rows[k]))
        == RowAfter(a, k, RowAfter(b, k, m.rows[k])) {
      RowsCommute(k, m.rows[k], a, b, l, n);
    }
    assert Apply(Apply(m, a), b).rows == Apply(Apply(m, b), a).rows;
  }

  // --- Histories ---

  /** A member no lapse has touched yet. */
  ghost predicate Untouched(m: Member) {
    forall k :: k in m.rows ==> m.rows[k].reason != Some(Lapse)
  }

  /** No grant writes a row that a lapse has marked: the mapping resolver leaves lapsed locations out. */
  ghost predicate NoGrantWhileLapsed(m: Member, ops: seq<Op>) {
    forall i :: 0 <= i < |ops| && ops[i].Regrant? ==> GrantsUnmarked(Run(m, ops[..i]), ops[i].key)
  }

  predicate GrantsUnmarked(m: Member, key: string) {
    key in m.rows ==> !Marked(m.rows[key])
  }

  /** Said of the history alone: operation `i`, a lapse of the row's own location, found it active,
      and nothing since was a restore of that location or a recovered payment. */
  ghost predicate LapsedAt(m: Member, ops: seq<Op>, k: string, i: nat)
    requires k in m.rows
  {
    && i < |ops| && ActiveBefore(m, ops, k, i) && ops[i].Suspend? && m.rows[k].location == Some(ops[i].location)
    && forall j :: i < j < |ops| ==> !ops[j].PaymentRecovered? && ops[j] != Restore(ops[i].location)
  }

  /** Operation `i`, a failed payment, found the row active, and no recovered payment and no grant of
      the row came since. */
  ghost predicate DeclinedAt(m: Member, ops: seq<Op>, k: string, i: nat)
    requires k in m.rows
  {
    && i < |ops| && ActiveBefore(m, ops, k, i) && ops[i].PaymentFailed?
    && forall j :: i < j < |ops| ==> !ops[j].PaymentRecovered? && ops[j] != Regrant(k)
  }

  ghost predicate ActiveBefore(m: Member, ops: seq<Op>, k: string, i: nat)
    requires i < |ops|
  {
    k in Run(m, ops[..i]).rows && Run(m, ops[..i]).rows[k].status.Active?
  }

  ghost predicate LapsedOff(m: Member, ops: seq<Op>, k: string)
    requires k in m.rows
  {
    exists i: nat :: LapsedAt(m, ops, k, i)
  }

  ghost predicate DeclinedOff(m: Member, ops: seq<Op>, k: string)
    requires k in m.rows
  {
    exists i: nat :: DeclinedAt(m, ops, k, i)
  }

  lemma {:induction false} RunKeepsKeys(m: Member, ops: seq<Op>, k: string)
    requires k in m.rows
    ensures k in Run(m, ops).rows && Run(m, ops).rows[k].location == m.rows[k].location
  {
    if ops != [] { RunKeepsKeys(m, ops[..|ops| - 1], k); }
  }

  lemma LapsedStep(m: Member, before: seq<Op>, op: Op, k: string)
    requires k in m.rows && k in Run(m, before).rows && Run(m, before).rows[k].location == m.rows[k].location
    ensures var r := Run(m, before).rows[k];
            LapsedOff(m, before + [op], k) <==>
              || (op.Suspend? && r.location == Some(op.location) && r.status.Active?)
              || (LapsedOff(m, before, k) && !op.PaymentRecovered? && !(op.Restore? && r.location == Some(op.location)))
  {
    var ops, n := before + [op], |before|;
    assert ops[..n] == before && ops[n] == op;
    assert forall i :: 0 <= i < n ==> ops[..i] == before[..i];
    if i: nat :| LapsedAt(m, ops, k, i) {
      if i < n { assert ActiveBefore(m, before, k, i) && LapsedAt(m, before, k, i); }
    }
    if op.Suspend? && Run(m, before).rows[k].location == Some(op.location) && Run(m, before).rows[k].status.Active? {
      assert ActiveBefore(m, ops, k, n) && LapsedAt(m, ops, k, n);
    }
    if i: nat :| LapsedAt(m, before, k, i) {
      if !op.PaymentRecovered? && !(op.Restore? && m.rows[k].location == Some(op.location)) {
        assert ActiveBefore(m, ops, k, i) && LapsedAt(m, ops, k, i);
      }
    }
  }

  lemma DeclinedStep(m: Member, before: seq<Op>, op: Op, k: string)
    requires k in m.rows && k in Run(m, before).rows && DeclinedOff(m, before + [op], k)
    ensures (op.PaymentFailed? && Run(m, before).rows[k].status.Active?) ||
            (DeclinedOff(m, before, k) && !op.PaymentRecovered? && op != Regrant(k))
  {
    var ops, n := before + [op], |before|;
    assert ops[..n] == before && ops[n] == op;
    assert forall i :: 0 <= i < n ==> ops[..i] == before[..i];
    var i: nat :| DeclinedAt(m, ops, k, i);
    if i < n { assert ActiveBefore(m, before, k, i) && DeclinedAt(m, before, k, i); }
  }

  /** What a row says of its history, over any run of lapses, restores, failed and recovered payments
      and grants: it is marked exactly if a lapse of its location turned it off and nothing turned it
      on again, and a row a failed payment turned off is off and not marked. */
  lemma {:induction false} MarksTellTheLapses(m: Member, ops: seq<Op>, k: string)
    requires Untouched(m) && k in m.rows && NoGrantWhileLapsed(m, ops)
    ensures k in Run(m, ops).rows
    ensures Marked(Run(m, ops).rows[k]) <==> LapsedOff(m, ops, k)
    ensures DeclinedOff(m, ops, k) ==> Run(m, ops).rows[k].status.Failed? && !Marked(Run(m, ops).rows[k])
    ensures Run(m, ops).rows[k].reason == Some(Lapse) ==> Run(m, ops).rows[k].status.Failed?
  {
    RunKeepsKeys(m, ops, k);
    if ops == [] {
      assert !LapsedOff(m, ops, k) && !DeclinedOff(m, ops, k);
    } else {
      var n := |ops| - 1;
      var before, op := ops[..n], ops[n];
      assert before + [op] == ops;
      assert forall i :: 0 <= i < n ==> before[..i] == ops[..i];
      RunKeepsKeys(m, before, k);
      MarksTellTheLapses(m, before, k);
      LapsedStep(m, before, op, k);
      if DeclinedOff(m, ops, k) { DeclinedStep(m, before, op, k); }
      assert op.Regrant? ==> GrantsUnmarked(Run(m, before), op.key);
    }
  }

  /** So a restore revives exactly the rows that a lapse of its location turned off and nothing else
      has turned on since, and never one that a failed payment turned off. */
  lemma RestoreRevivesExactly(m: Member, ops: seq<Op>, location: string, k: string)
    requires Untouched(m) && k in m.rows && NoGrantWhileLapsed(m, ops)
    ensures var now := Run(m, ops); var then' := Apply(now, Restore(location));
            && k in now.rows
            && (then'.rows[k] != now.rows[k] <==> m.rows[k].location == Some(location) && LapsedOff(m, ops, k))
            && (then'.rows[k] != now.rows[k] ==> then'.rows[k].status.Active? && then'.status.AccessActive?)
            && (DeclinedOff(m, ops, k) ==> then'.rows[k].status.Failed?)
  {
    RunKeepsKeys(m, ops, k);
    MarksTellTheLapses(m, ops, k);
    var rows := Apply(Run(m, ops), Restore(location)).rows;
    assert k in rows;
  }

  /** A recovered payment, by contrast, also opens the rows of a location that is still lapsed. */
  lemma RecoveryOpensLapsedRows(m: Member, ops: seq<Op>, k: string)
    requires Untouched(m) && k in m.rows && NoGrantWhileLapsed(m, ops) && LapsedOff(m, ops, k)
    ensures k in Apply(Run(m, ops), PaymentRecovered).rows
              && Apply(Run(m, ops), PaymentRecovered).rows[k].status.Active?
  {
    MarksTellTheLapses(m, ops, k);
  }

  /** Why grants must stay off lapsed locations: the upsert keeps the reason, so a payment that fails
      later looks like the lapse, and the restore opens the door of somebody who does not pay. */
  lemma GrantOnMarkedRowMisleadsRestore(m: Member, k: string, location: string)
    requires k in m.rows && m.rows[k].status.Active? && m.rows[k].location == Some(location)
    ensures var ops := [Suspend(location), Regrant(k), PaymentFailed];
            && DeclinedOff(m, ops, k)
            && k in Apply(Run(m, ops), Restore(location)).rows
            && Apply(Run(m, ops), Restore(location)).rows[k].status.Active?
  {
    var a, b, c := Suspend(location), Regrant(k), PaymentFailed;
    RunStep(m, [], a);
    RunStep(m, [a], b);
    RunStep(m, [a, b], c);
    assert [] + [a] == [a] && [a] + [b] == [a, b] && [a, b] + [c] == [a, b, c];
    var m1 := Apply(m, a);
    assert m1.rows[k] == Row(Some(location), Failed, Some(Lapse));
    var m2 := Apply(m1, b);
    assert m2.rows[k] == Row(Some(location), Active, Some(Lapse));
    assert [a, b, c][..2] == [a, b];
    assert ActiveBefore(m, [a, b, c], k, 2) && DeclinedAt(m, [a, b, c], k, 2);
  }

  lemma RunStep(m: Member, ops: seq<Op>, op: Op)
    ensures Run(m, ops + [op]) == Apply(Run(m, ops), op)
  {
    assert (ops + [op])[..|ops|] == ops;
  }

  // --- When a restore opens a row whose payment failed ---

  /** Operation `i`, a lapse of the row's own location, found it active, and whenever that location
      was restored or a payment recovered since, the row was not off: then neither clears the reason. */
  ghost predicate KeptFrom(m: Member, ops: seq<Op>, k: string, i: nat)
    requires k in m.rows
  {
    && i < |ops| && ops[i].Suspend? && m.rows[k].location == Some(ops[i].location) && ActiveBefore(m, ops, k, i)
    && forall j :: i < j < |ops| && Clears(ops[j], m.rows[k]) ==> !OffBefore(m, ops, k, j)
  }

  predicate Clears(op: Op, r: Row) {
    op.PaymentRecovered? || (op.Restore? && r.location == Some(op.location))
  }

  ghost predicate OffBefore(m: Member, ops: seq<Op>, k: string, i: nat)
    requires i < |ops|
  {
    k in Run(m, ops[..i]).rows && Run(m, ops[..i]).rows[k].status.Failed?
  }

  ghost predicate ReasonKept(m: Member, ops: seq<Op>, k: string)
    requires k in m.rows
  {
    exists i: nat :: KeptFrom(m, ops, k, i)
  }

  lemma KeptStep(m: Member, before: seq<Op>, op: Op, k: string)
    requires k in m.rows && k in Run(m, before).rows && Run(m, before).rows[k].location == m.rows[k].location
    ensures var r := Run(m, before).rows[k];
            ReasonKept(m, before + [op], k) <==>
              || (op.Suspend? && r.location == Some(op.location) && r.status.Active?)
              || (ReasonKept(m, before, k) && !(Clears(op, r) && r.status.Failed?))
  {
    var ops, n := before + [op], |before|;
    assert ops[..n] == before && ops[n] == op;
    assert forall i :: 0 <= i < n ==> ops[..i] == before[..i];
    assert OffBefore(m, ops, k, n) <==> Run(m, before).rows[k].status.Failed?;
    assert forall j :: 0 <= j < n ==> (OffBefore(m, ops, k, j) <==> OffBefore(m, before, k, j));
    if i: nat :| KeptFrom(m, ops, k, i) {
      if i < n { assert ActiveBefore(m, before, k, i) && KeptFrom(m, before, k, i); }
    }
    if op.Suspend? && Run(m, before).rows[k].location == Some(op.location) && Run(m, before).rows[k].status.Active? {
      assert ActiveBefore(m, ops, k, n) && KeptFrom(m, ops, k, n);
    }
    if i: nat :| KeptFrom(m, before, k, i) {
      if !(Clears(op, m.rows[k]) && Run(m, before).rows[k].status.Failed?) {
        assert ActiveBefore(m, ops, k, i) && KeptFrom(m, ops, k, i);
      }
    }
  }

  lemma ReasonStep(op: Op, k: string, r: Row)
    requires r.reason == Some(Lapse) ==> !r.status.Waiting?
    ensures var r' := RowAfter(op, k, r);
            && (r'.reason == Some(Lapse) ==> !r'.status.Waiting?)
            && (r'.reason == Some(Lapse) <==>
                  || (op.Suspend? && r.location == Some(op.location) && r.status.Active?)
                  || (r.reason == Some(Lapse) && !(Clears(op, r) && r.status.Failed?)))
  {
  }

  /** The reason of a lapse stays on a row exactly that long, over any run, grants on lapsed rows included. */
  lemma {:induction false} ReasonStaysIff(m: Member, ops: seq<Op>, k: string)
    requires Untouched(m) && k in m.rows
    ensures k in Run(m, ops).rows
    ensures Run(m, ops).rows[k].reason == Some(Lapse) <==> ReasonKept(m, ops, k)
    ensures Run(m, ops).rows[k].reason == Some(Lapse) ==> !Run(m, ops).rows[k].status.Waiting?
  {
    RunKeepsKeys(m, ops, k);
    if ops == [] {
      assert !ReasonKept(m, ops, k);
    } else {
      var n := |ops| - 1;
      var before, op := ops[..n], ops[n];
      assert before + [op] == ops;
      RunKeepsKeys(m, before, k);
      ReasonStaysIff(m, before, k);
      KeptStep(m, before, op, k);
      ReasonStep(op, k, Run(m, before).rows[k]);
      assert Run(m, ops).rows[k] == RowAfter(op, k, Run(m, before).rows[k]);
    }
  }

  /** After any history: an active row whose payment fails is opened by a restore of `location` exactly
      if that is its location and the reason of an earlier lapse is still on it. */
  lemma RestoreOpensDeclinedIff(m: Member, ops: seq<Op>, k: string, location: string)
    requires Untouched(m) && k in m.rows && k in Run(m, ops).rows && Run(m, ops).rows[k].status.Active?
    ensures var rows := Apply(Run(m, ops + [PaymentFailed]), Restore(location)).rows;
            && k in rows
            && (rows[k].status.Active? <==> m.rows[k].location == Some(location) && ReasonKept(m, ops, k))
  {
    RunKeepsKeys(m, ops, k);
    ReasonStaysIff(m, ops, k);
    RunStep(m, ops, PaymentFailed);
    var declined := Apply(Run(m, ops), PaymentFailed);
    assert declined.rows[k] == Run(m, ops).rows[k].(status := Failed);
  }

  /** The row was active with the reason of a lapse on it after the first `n` operations. */
  ghost predicate OpenAndMarked(m: Member, ops: seq<Op>, k: string, n: nat)
    requires n <= |ops|
  {
    && k in Run(m, ops[..n]).rows && Run(m, ops[..n]).rows[k].status.Active?
    && Run(m, ops[..n]).rows[k].reason == Some(Lapse)
  }

  /** Operation `i` is a grant of the row, which a lapse has turned off. */
  ghost predicate GrantedWhileLapsed(m: Member, ops: seq<Op>, k: string, i: nat)
    requires i < |ops|
  {
    ops[i] == Regrant(k) && !GrantsUnmarked(Run(m, ops[..i]), k)
  }

  /** And a history brings an active row with such a reason about exactly if it holds a grant of that
      row at a time a lapse had turned it off. */
  lemma {:induction false} OnlyGrantsMislead(m: Member, ops: seq<Op>, k: string)
    requires Untouched(m) && k in m.rows
    ensures (exists n: nat :: n <= |ops| && OpenAndMarked(m, ops, k, n)) <==>
            (exists i: nat :: i < |ops| && GrantedWhileLapsed(m, ops, k, i))
  {
    if i: nat :| i < |ops| && GrantedWhileLapsed(m, ops, k, i) {
      RunStep(m, ops[..i], ops[i]);
      assert ops[..i] + [ops[i]] == ops[..i + 1];
      assert OpenAndMarked(m, ops, k, i + 1);
    }
    if n: nat :| n <= |ops| && OpenAndMarked(m, ops, k, n) {
      var i := FirstGrant(m, ops, k, n);
    }
  }

  lemma {:induction false} FirstGrant(m: Member, ops: seq<Op>, k: string, n: nat) returns (i: nat)
    requires Untouched(m) && k in m.rows && n <= |ops| && OpenAndMarked(m, ops, k, n)
    ensures i < n && GrantedWhileLapsed(m, ops, k, i)
    decreases n
  {
    assert ops[..0] == [] && Run(m, ops[..0]) == m;
    assert n > 0;
    assert ops[..n - 1] + [ops[n - 1]] == ops[..n];
    RunStep(m, ops[..n - 1], ops[n - 1]);
    RunKeepsKeys(m, ops[..n - 1], k);
    ReasonStaysIff(m, ops[..n - 1], k);
    if OpenAndMarked(m, ops, k, n - 1) { i := FirstGrant(m, ops, k, n - 1); } else { i := n - 1; }
  }
}
