/** Which doors a login swap has to open for the new user, and until when. */
module GroupsToMove {
  import opened Prelude

  /** An active source row that is no day pass; `until` is None for a row without an end. */
  datatype SourceRow = SourceRow(id: string, group: string, mapping: Option<string>, until: Option<int>)

  /** JavaScript's three states of the collected end: not set yet, null, a date. */
  datatype End = Unset | Forever | At(t: int)

  datatype Entry = Entry(group: string, end: End, sourceIds: seq<string>, mappings: set<string>)

  datatype Move = Move(group: string, until: Option<int>, sourceIds: seq<string>, mappings: set<string>)

  // --- What the result is ---

  function IdsOn(rows: seq<SourceRow>, group: string): seq<string> {
    if rows == [] then []
    else IdsOn(rows[..|rows| - 1], group) + (if rows[|rows| - 1].group == group then [rows[|rows| - 1].id] else [])
  }

  /** The groups in the order their first row comes in. */
  function FirstSeen(rows: seq<SourceRow>): seq<string> {
    if rows == [] then []
    else
      var before, g := FirstSeen(rows[..|rows| - 1]), rows[|rows| - 1].group;
      if g in before then before else before + [g]
  }

  ghost predicate MappingsOn(rows: seq<SourceRow>, group: string, mappings: set<string>) {
    forall m :: m in mappings <==> exists r :: r in rows && r.group == group && r.mapping == Some(m)
  }

  /** No end if any row of the group has none, otherwise the latest of their ends. */
  ghost predicate EndsAt(rows: seq<SourceRow>, group: string, until: Option<int>) {
    match until
    case None => exists r :: r in rows && r.group == group && r.until.None?
    case Some(t) =>
      && (exists r :: r in rows && r.group == group && r.until == Some(t))
      && (forall r :: r in rows && r.group == group ==> r.until.Some? && r.until.value <= t)
  }

  /** One move per group, in order, each with all the rows of its group and the end they call for. */
  ghost predicate Moves(rows: seq<SourceRow>, moves: seq<Move>) {
    && |moves| == |FirstSeen(rows)|
    && forall i :: 0 <= i < |moves| ==>
         && moves[i].group == FirstSeen(rows)[i]
         && moves[i].sourceIds == IdsOn(rows, moves[i].group)
         && MappingsOn(rows, moves[i].group, moves[i].mappings)
         && EndsAt(rows, moves[i].group, moves[i].until)
  }

  lemma {:induction false} FirstSeenIsDistinct(rows: seq<SourceRow>)
    ensures forall i, j :: 0 <= i < j < |FirstSeen(rows)| ==> FirstSeen(rows)[i] != FirstSeen(rows)[j]
    ensures forall g :: g in FirstSeen(rows) <==> exists r :: r in rows && r.group == g
  {
    if rows != [] {
      var n := |rows| - 1;
      FirstSeenIsDistinct(rows[..n]);
      assert rows == rows[..n] + [rows[n]];
      forall g ensures g in FirstSeen(rows) <==> exists r :: r in rows && r.group == g {
        if g in FirstSeen(rows[..n]) {
          var r :| r in rows[..n] && r.group == g;
          assert r in rows;
        }
        if g == rows[n].group { assert rows[n] in rows; }
      }
    }
  }

  lemma {:induction false} IdsOnAreTheRows(rows: seq<SourceRow>, group: string)
    ensures forall id :: id in IdsOn(rows, group) <==> exists r :: r in rows && r.group == group && r.id == id
  {
    if rows != [] {
      var n := |rows| - 1;
      IdsOnAreTheRows(rows[..n], group);
      assert rows == rows[..n] + [rows[n]];
      forall id ensures id in IdsOn(rows, group) <==> exists r :: r in rows && r.group == group && r.id == id {
        if id in IdsOn(rows[..n], group) {
          var r :| r in rows[..n] && r.group == group && r.id == id;
          assert r in rows;
        }
        if rows[n].group == group && rows[n].id == id { assert rows[n] in rows; }
      }
    }
  }

  /** The source rows are partitioned: with distinct row ids, each is moved exactly once, with its own
      group. */
  lemma EachRowMovesOnce(rows: seq<SourceRow>, moves: seq<Move>, r: SourceRow)
    requires Moves(rows, moves) && r in rows
    requires forall a, b :: a in rows && b in rows && a.id == b.id ==> a == b
    ensures exists i :: 0 <= i < |moves| && r.id in moves[i].sourceIds && moves[i].group == r.group &&
              forall j :: 0 <= j < |moves| && r.id in moves[j].sourceIds ==> j == i
  {
    FirstSeenIsDistinct(rows);
    assert r.group in FirstSeen(rows);
    var i :| 0 <= i < |FirstSeen(rows)| && FirstSeen(rows)[i] == r.group;
    IdsOnAreTheRows(rows, r.group);
    assert r.id in moves[i].sourceIds;
    forall j | 0 <= j < |moves| && r.id in moves[j].sourceIds ensures j == i {
      IdsOnAreTheRows(rows, moves[j].group);
    }
  }

  // --- The loop ---

  ghost predicate EndSoFar(rows: seq<SourceRow>, group: string, end: End) {
    match end
    case Unset => false
    case Forever => EndsAt(rows, group, None)
    case At(t) => EndsAt(rows, group, Some(t))
  }

  ghost predicate EntrySoFar(rows: seq<SourceRow>, e: Entry) {
    && e.sourceIds == IdsOn(rows, e.group)
    && MappingsOn(rows, e.group, e.mappings)
    && EndSoFar(rows, e.group, e.end)
  }

  ghost predicate Collected(rows: seq<SourceRow>, entries: seq<Entry>) {
    && |entries| == |FirstSeen(rows)|
    && forall i :: 0 <= i < |entries| ==> entries[i].group == FirstSeen(rows)[i] && EntrySoFar(rows, entries[i])
  }

  function LaterEnd(end: End, until: Option<int>): End {
    if until.None? then Forever
    else if end.Forever? then end
    else if end.Unset? || until.value > end.t then At(until.value) else end
  }

  function Grown(e: Entry, s: SourceRow): Entry {
    Entry(e.group, LaterEnd(e.end, s.until), e.sourceIds + [s.id],
          if s.mapping.Some? then e.mappings + {s.mapping.value} else e.mappings)
  }

  lemma GrowKeeps(rows: seq<SourceRow>, e: Entry, s: SourceRow)
    requires s.group == e.group
    requires EntrySoFar(rows, e) || (e == Entry(s.group, Unset, [], {}) && IdsOn(rows, s.group) == []
                                          && forall r :: r in rows ==> r.group != s.group)
    ensures EntrySoFar(rows + [s], Grown(e, s))
  {
    var all, f := rows + [s], Grown(e, s);
    assert all[..|rows|] == rows;
    forall m ensures m in f.mappings <==> exists r :: r in all && r.group == e.group && r.mapping == Some(m) {
      if m in e.mappings {
        var r :| r in rows && r.group == e.group && r.mapping == Some(m);
        assert r in all;
      }
      if s.mapping == Some(m) { assert s in all; }
    }
    assert s in all;
    assert forall r :: r in rows ==> r in all;
  }

  lemma OthersKeep(rows: seq<SourceRow>, e: Entry, s: SourceRow)
    requires s.group != e.group && EntrySoFar(rows, e)
    ensures EntrySoFar(rows + [s], e)
  {
    var all := rows + [s];
    assert all[..|rows|] == rows;
    assert forall r: SourceRow :: r.group == e.group ==> (r in all <==> r in rows);
  }

  method Find(entries: seq<Entry>, group: string) returns (at: nat)
    ensures at <= |entries|
    ensures at < |entries| ==> entries[at].group == group
    ensures at == |entries| ==> forall i :: 0 <= i < |entries| ==> entries[i].group != group
  {
    at := 0;
    while at < |entries| && entries[at].group != group
      invariant at <= |entries|
      invariant forall i :: 0 <= i < at ==> entries[i].group != group
    {
      at := at + 1;
    }
  }

  lemma UnseenHasNoRows(rows: seq<SourceRow>, group: string)
    requires group !in FirstSeen(rows)
    ensures IdsOn(rows, group) == [] && forall r :: r in rows ==> r.group != group
  {
    FirstSeenIsDistinct(rows);
    IdsOnAreTheRows(rows, group);
    assert |IdsOn(rows, group)| == 0 || IdsOn(rows, group)[0] in IdsOn(rows, group);
  }

  lemma FirstSeenStep(rows: seq<SourceRow>, s: SourceRow)
    ensures FirstSeen(rows + [s]) == if s.group in FirstSeen(rows) then FirstSeen(rows) else FirstSeen(rows) + [s.group]
  {
    assert (rows + [s])[..|rows|] == rows;
  }

  lemma CollectKnown(rows: seq<SourceRow>, entries: seq<Entry>, s: SourceRow, at: nat)
    requires Collected(rows, entries) && at < |entries| && entries[at].group == s.group
    ensures Collected(rows + [s], entries[at := Grown(entries[at], s)])
  {
    var next := entries[at := Grown(entries[at], s)];
    FirstSeenIsDistinct(rows);
    FirstSeenStep(rows, s);
    assert FirstSeen(rows)[at] == s.group;
    forall i | 0 <= i < |next| ensures next[i].group == FirstSeen(rows + [s])[i] && EntrySoFar(rows + [s], next[i]) {
      if i == at { GrowKeeps(rows, entries[at], s); } else { OthersKeep(rows, entries[i], s); }
    }
  }

  lemma CollectNew(rows: seq<SourceRow>, entries: seq<Entry>, s: SourceRow)
    requires Collected(rows, entries) && forall i :: 0 <= i < |entries| ==> entries[i].group != s.group
    ensures Collected(rows + [s], entries + [Grown(Entry(s.group, Unset, [], {}), s)])
  {
    var next := entries + [Grown(Entry(s.group, Unset, [], {}), s)];
    FirstSeenStep(rows, s);
    assert s.group !in FirstSeen(rows);
    UnseenHasNoRows(rows, s.group);
    forall i | 0 <= i < |next| ensures next[i].group == FirstSeen(rows + [s])[i] && EntrySoFar(rows + [s], next[i]) {
      if i == |entries| { GrowKeeps(rows, Entry(s.group, Unset, [], {}), s); } else { OthersKeep(rows, entries[i], s); }
    }
  }

  function ToMove(e: Entry): Move {
    Move(e.group, if e.end.At? then Some(e.end.t) else None, e.sourceIds, e.mappings)
  }

  lemma CollectedIsMoves(rows: seq<SourceRow>, entries: seq<Entry>, moves: seq<Move>)
    requires Collected(rows, entries) && |moves| == |entries|
    requires forall i :: 0 <= i < |moves| ==> moves[i] == ToMove(entries[i])
    ensures Moves(rows, moves)
  {
    forall i | 0 <= i < |moves| ensures EndsAt(rows, moves[i].group, moves[i].until) {
      assert EntrySoFar(rows, entries[i]);
    }
  }

  /** One entry per door group: the row without an end wins, otherwise the latest end. */
  method Collect(rows: seq<SourceRow>) returns (moves: seq<Move>)
    ensures Moves(rows, moves)
  {
    var entries: seq<Entry> := [];
    for i := 0 to |rows|
      invariant Collected(rows[..i], entries)
    {
      var s := rows[i];
      var at := Find(entries, s.group);
      assert rows[..i + 1] == rows[..i] + [s];
      if at < |entries| {
        CollectKnown(rows[..i], entries, s, at);
        entries := entries[at := Grown(entries[at], s)];
      } else {
        CollectNew(rows[..i], entries, s);
        entries := entries + [Grown(Entry(s.group, Unset, [], {}), s)];
      }
    }
    assert rows[..|rows|] == rows;
    moves := seq(|entries|, i requires 0 <= i < |entries| => ToMove(entries[i]));
    CollectedIsMoves(rows, entries, moves);
  }
}
