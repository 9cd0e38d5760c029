/** Reports that name one machine: which lists of reports are safe to process at the same time. */
module SharedMachines {
  import opened Wrappers
  import opened ReportStore
  import opened StoreHistory
  import opened ConcurrentReports

  // ----- building runs: threads take turns, each running its statements up to a stop

  /** A partial run after which each thread j has run its first counts[j] statements. */
  ghost predicate Ran(sched: seq<nat>, progs: seq<seq<Stmt>>, counts: seq<nat>) {
    && Valid(sched, progs) && |counts| == |progs|
    && forall j: nat :: j < |progs| ==> multiset(sched)[j] == counts[j]
  }

  lemma NothingRan(progs: seq<seq<Stmt>>) returns (sched: seq<nat>, zeros: seq<nat>)
    ensures Ran(sched, progs, zeros) && TraceOf(sched, progs) == [] && zeros == seq(|progs|, _ => 0)
  {
    sched, zeros := [], seq(|progs|, _ => 0);
  }

  lemma ExtendByOne(sched: seq<nat>, progs: seq<seq<Stmt>>, counts: seq<nat>, i: nat)
    requires Ran(sched, progs, counts) && i < |progs| && counts[i] < |progs[i]|
    ensures Ran(sched + [i], progs, counts[i := counts[i] + 1])
    ensures TraceOf(sched + [i], progs) == TraceOf(sched, progs) + [progs[i][counts[i]]]
  {
    var longer := sched + [i];
    assert longer[..|sched|] == sched;
    assert multiset(longer) == multiset(sched) + multiset{i};
    forall j | j in longer ensures j < |progs| {
      assert j in sched || j == i;
    }
  }

  /** Letting thread i run up to its statement m. */
  lemma {:induction false} Extend(sched: seq<nat>, progs: seq<seq<Stmt>>, counts: seq<nat>, i: nat, m: nat)
    returns (longer: seq<nat>)
    requires Ran(sched, progs, counts) && i < |progs| && counts[i] <= m <= |progs[i]|
    ensures Ran(longer, progs, counts[i := m])
    ensures TraceOf(longer, progs) == TraceOf(sched, progs) + progs[i][counts[i]..m]
    decreases m
  {
    var c := counts[i];
    if m == c {
      longer := sched;
    } else {
      var shorter := Extend(sched, progs, counts, i, m - 1);
      ExtendByOne(shorter, progs, counts[i := m - 1], i);
      longer := shorter + [i];
      assert counts[i := m - 1][i := m] == counts[i := m];
      assert progs[i][c..m] == progs[i][c..m - 1] + [progs[i][m - 1]];
    }
  }

  /** Each thread can go on from its start to its stop. */
  ghost predicate Stops(progs: seq<seq<Stmt>>, starts: seq<nat>, stops: seq<nat>) {
    && |starts| == |stops| == |progs|
    && forall j :: 0 <= j < |progs| ==> starts[j] <= stops[j] <= |progs[j]|
  }

  /** The first n threads go on from their starts to their stops, one after the other. */
  ghost function Round(progs: seq<seq<Stmt>>, starts: seq<nat>, stops: seq<nat>, n: nat, before: seq<Stmt>): seq<Stmt>
    requires Stops(progs, starts, stops) && n <= |progs|
  {
    if n == 0 then before
    else Round(progs, starts, stops, n - 1, before) + progs[n - 1][starts[n - 1]..stops[n - 1]]
  }

  /** How far each thread is when the first n have had their turn. */
  ghost function Midway(starts: seq<nat>, stops: seq<nat>, n: nat): (counts: seq<nat>)
    requires n <= |starts| == |stops|
    ensures |counts| == |starts|
    ensures forall j :: 0 <= j < |starts| ==> counts[j] == if j < n then stops[j] else starts[j]
  {
    seq(|starts|, j requires 0 <= j < |starts| => if j < n then stops[j] else starts[j])
  }

  lemma RoundStep(progs: seq<seq<Stmt>>, starts: seq<nat>, stops: seq<nat>, n: nat, before: seq<Stmt>)
    requires Stops(progs, starts, stops) && 0 < n <= |progs|
    ensures Round(progs, starts, stops, n, before) ==
            Round(progs, starts, stops, n - 1, before) + progs[n - 1][starts[n - 1]..stops[n - 1]]
  {
  }

  lemma TakeTurn(sched: seq<nat>, progs: seq<seq<Stmt>>, starts: seq<nat>, stops: seq<nat>, i: nat, now: seq<Stmt>)
    returns (longer: seq<nat>)
    requires Stops(progs, starts, stops) && i < |progs|
    requires Ran(sched, progs, Midway(starts, stops, i)) && TraceOf(sched, progs) == now
    ensures Ran(longer, progs, Midway(starts, stops, i + 1))
    ensures TraceOf(longer, progs) == now + progs[i][starts[i]..stops[i]]
  {
    longer := Extend(sched, progs, Midway(starts, stops, i), i, stops[i]);
    assert Midway(starts, stops, i)[i := stops[i]] == Midway(starts, stops, i + 1);
  }

  lemma {:induction false} RunRound(
    sched: seq<nat>, progs: seq<seq<Stmt>>, starts: seq<nat>, stops: seq<nat>, n: nat, before: seq<Stmt>)
    returns (longer: seq<nat>)
    requires Ran(sched, progs, starts) && Stops(progs, starts, stops) && n <= |progs|
    requires TraceOf(sched, progs) == before
    ensures Ran(longer, progs, Midway(starts, stops, n))
    ensures TraceOf(longer, progs) == Round(progs, starts, stops, n, before)
  {
    if n == 0 {
      longer := sched;
      assert Midway(starts, stops, 0) == starts;
    } else {
      var shorter := RunRound(sched, progs, starts, stops, n - 1, before);
      longer := TakeTurn(shorter, progs, starts, stops, n - 1, Round(progs, starts, stops, n - 1, before));
      RoundStep(progs, starts, stops, n, before);
    }
  }

  lemma WholeRound(sched: seq<nat>, progs: seq<seq<Stmt>>, starts: seq<nat>, stops: seq<nat>)
    returns (longer: seq<nat>)
    requires Ran(sched, progs, starts) && Stops(progs, starts, stops)
    ensures Ran(longer, progs, stops)
    ensures TraceOf(longer, progs) == Round(progs, starts, stops, |progs|, TraceOf(sched, progs))
  {
    longer := RunRound(sched, progs, starts, stops, |progs|, TraceOf(sched, progs));
    assert Midway(starts, stops, |progs|) == stops;
  }

  // ----- what a turn does to a machine's rows

  ghost function RowsAfter(trace: seq<Stmt>, t: Tables, k: Table, id: real): seq<Row> {
    Only(Run(trace, t).Of(k), id)
  }

  lemma BlockRows(before: seq<Stmt>, block: seq<Stmt>, owner: real, t: Tables, k: Table, id: real)
    requires forall i :: 0 <= i < |block| ==> block[i].Id() == owner
    ensures RowsAfter(before + block, t, k, id) ==
            if owner == id then RunOn(block, k, RowsAfter(before, t, k, id)) else RowsAfter(before, t, k, id)
  {
    RunConcat(before, block, t);
    Locality(block, Run(before, t), k, id);
    OnlyStmtsAll(block, owner, id);
  }

  lemma FrontRows(before: seq<Stmt>, p: Plan, c: nat, t: Tables, k: Table, id: real)
    requires c <= |Program(p)|
    ensures RowsAfter(before + Program(p)[..c], t, k, id) ==
            if Names(p, id) then AfterPrefix(p, c, k, RowsAfter(before, t, k, id)) else RowsAfter(before, t, k, id)
  {
    if p.Replace? {
      BlockRows(before, Program(p)[..c], p.id, t, k, id);
      WithoutOnly(Run(before, t).Of(k), id);
      if p.id == id {
        RunOnPrefix(p, c, k, RowsAfter(before, t, k, id));
      }
    } else {
      assert before + Program(p)[..c] == before;
    }
  }

  lemma {:induction false} InsertsAdd(rows: seq<Row>, k: Table, before: seq<Row>)
    ensures RunOn(Inserts(rows), k, before) == before + Homed(rows, k)
  {
    if rows == [] {
      assert before + Homed(rows, k) == before;
    } else {
      var front, last := rows[..|rows| - 1], rows[|rows| - 1];
      InsertsAdd(front, k, before);
      assert Inserts(rows)[..|rows| - 1] == Inserts(front);
    }
  }

  lemma RestRows(before: seq<Stmt>, p: Plan, c: nat, m: nat, t: Tables, k: Table, id: real)
    requires p.Replace? && 3 <= c <= m <= |Program(p)|
    ensures RowsAfter(before + Program(p)[c..m], t, k, id) ==
            if p.id == id then RowsAfter(before, t, k, id) + Homed(p.rows[c - 3..m - 3], k)
            else RowsAfter(before, t, k, id)
  {
    assert Program(p)[c..m] == Inserts(p.rows[c - 3..m - 3]);
    BlockRows(before, Program(p)[c..m], p.id, t, k, id);
    InsertsAdd(p.rows[c - 3..m - 3], k, RowsAfter(before, t, k, id));
  }

  function Length(p: Plan): nat {
    if p.Replace? then 3 + |p.rows| else 0
  }

  lemma ProgramLength(p: Plan)
    ensures |Program(p)| == Length(p)
  {
  }

  /** A turn that starts with the first statement, or behind the deletes, or that does nothing. */
  predicate Turn(p: Plan, c: nat, m: nat) {
    c <= m <= Length(p) && (c == 0 || c == m || c >= 3)
  }

  /** The machine's rows after the turn of report p. */
  ghost function TurnRows(p: Plan, c: nat, m: nat, k: Table, id: real, rows: seq<Row>): seq<Row>
    requires Turn(p, c, m)
  {
    if !Names(p, id) || c == m then rows
    else if c == 0 then AfterPrefix(p, m, k, rows)
    else rows + Homed(p.rows[c - 3..m - 3], k)
  }

  lemma RowsAfterTurn(before: seq<Stmt>, p: Plan, c: nat, m: nat, t: Tables, k: Table, id: real)
    requires Turn(p, c, m)
    ensures RowsAfter(before + Program(p)[c..m], t, k, id) == TurnRows(p, c, m, k, id, RowsAfter(before, t, k, id))
  {
    if c == m {
      assert before + Program(p)[c..m] == before;
    } else if c == 0 {
      assert Program(p)[0..m] == Program(p)[..m];
      FrontRows(before, p, m, t, k, id);
    } else {
      RestRows(before, p, c, m, t, k, id);
    }
  }

  lemma TurnsAreStops(plans: seq<Plan>, starts: seq<nat>, stops: seq<nat>)
    requires Turns(plans, starts, stops)
    ensures Stops(Programs(plans), starts, stops)
  {
    forall j | 0 <= j < |plans| ensures starts[j] <= stops[j] <= |Programs(plans)[j]| {
      ProgramLength(plans[j]);
    }
  }

  ghost predicate Turns(plans: seq<Plan>, starts: seq<nat>, stops: seq<nat>) {
    && |starts| == |stops| == |plans|
    && forall j :: 0 <= j < |plans| ==> Turn(plans[j], starts[j], stops[j])
  }

  ghost function RoundRows(
    plans: seq<Plan>, starts: seq<nat>, stops: seq<nat>, n: nat, k: Table, id: real, rows: seq<Row>): seq<Row>
    requires Turns(plans, starts, stops) && n <= |plans|
  {
    if n == 0 then rows
    else
      TurnRows(plans[n - 1], starts[n - 1], stops[n - 1], k, id,
               RoundRows(plans, starts, stops, n - 1, k, id, rows))
  }

  lemma NextTurn(
    plans: seq<Plan>, starts: seq<nat>, stops: seq<nat>, n: nat, now: seq<Stmt>, later: seq<Stmt>, t: Tables, k: Table,
    id: real, rows: seq<Row>)
    requires Turns(plans, starts, stops) && 0 < n <= |plans|
    requires later == now + Program(plans[n - 1])[starts[n - 1]..stops[n - 1]]
    requires RowsAfter(now, t, k, id) == RoundRows(plans, starts, stops, n - 1, k, id, rows)
    ensures RowsAfter(later, t, k, id) == RoundRows(plans, starts, stops, n, k, id, rows)
  {
    RowsAfterTurn(now, plans[n - 1], starts[n - 1], stops[n - 1], t, k, id);
  }

  lemma RoundOfReports(plans: seq<Plan>, starts: seq<nat>, stops: seq<nat>, n: nat, before: seq<Stmt>)
    requires Turns(plans, starts, stops) && Stops(Programs(plans), starts, stops) && 0 < n <= |plans|
    ensures stops[n - 1] <= |Program(plans[n - 1])|
    ensures Round(Programs(plans), starts, stops, n, before) ==
            Round(Programs(plans), starts, stops, n - 1, before) +
            Program(plans[n - 1])[starts[n - 1]..stops[n - 1]]
  {
    RoundStep(Programs(plans), starts, stops, n, before);
    ProgramLength(plans[n - 1]);
  }

  lemma {:induction false} RowsAfterRound(
    plans: seq<Plan>, starts: seq<nat>, stops: seq<nat>, n: nat, before: seq<Stmt>, t: Tables, k: Table, id: real,
    rows: seq<Row>) returns (after: seq<Stmt>)
    requires Turns(plans, starts, stops) && Stops(Programs(plans), starts, stops) && n <= |plans|
    requires rows == RowsAfter(before, t, k, id)
    ensures after == Round(Programs(plans), starts, stops, n, before)
    ensures RowsAfter(after, t, k, id) == RoundRows(plans, starts, stops, n, k, id, rows)
  {
    if n == 0 {
      after := before;
    } else {
      var now := RowsAfterRound(plans, starts, stops, n - 1, before, t, k, id, rows);
      after := now + Program(plans[n - 1])[starts[n - 1]..stops[n - 1]];
      NextTurn(plans, starts, stops, n, now, after, t, k, id, rows);
      RoundOfReports(plans, starts, stops, n, before);
    }
  }

  // ----- all deletes before all inserts

  function Zeros(plans: seq<Plan>): seq<nat> {
    seq(|plans|, _ => 0)
  }

  ghost function Lengths(plans: seq<Plan>): (stops: seq<nat>)
    ensures Turns(plans, AfterDeletes(plans), stops)
  {
    seq(|plans|, i requires 0 <= i < |plans| => Length(plans[i]))
  }

  ghost function AfterDeletes(plans: seq<Plan>): (stops: seq<nat>)
    ensures Turns(plans, Zeros(plans), stops)
  {
    seq(|plans|, i requires 0 <= i < |plans| => if plans[i].Replace? then 3 else 0)
  }

  /** All the rows the first n reports insert for the machine. */
  ghost function Joined(plans: seq<Plan>, n: nat, id: real): seq<Row>
    requires n <= |plans|
  {
    if n == 0 then []
    else if Names(plans[n - 1], id) then Joined(plans, n - 1, id) + plans[n - 1].rows
    else Joined(plans, n - 1, id)
  }

  lemma {:induction false} DeletedRows(plans: seq<Plan>, n: nat, k: Table, id: real, rows: seq<Row>, i: nat)
    requires i < n <= |plans| && Names(plans[i], id)
    ensures RoundRows(plans, Zeros(plans), AfterDeletes(plans), n, k, id, rows) == []
  {
    if i < n - 1 {
      DeletedRows(plans, n - 1, k, id, rows, i);
    } else {
      assert plans[i].rows[..0] == [];
    }
  }

  lemma InsertTurn(p: Plan, joined: seq<Row>, k: Table, id: real)
    ensures TurnRows(p, if p.Replace? then 3 else 0, Length(p), k, id, Homed(joined, k)) ==
            Homed(if Names(p, id) then joined + p.rows else joined, k)
  {
    if p.Replace? {
      HomedConcat(joined, p.rows, k);
      assert p.rows[0..|p.rows|] == p.rows;
    }
  }

  lemma {:induction false} JoinedRows(plans: seq<Plan>, n: nat, k: Table, id: real)
    requires n <= |plans|
    ensures RoundRows(plans, AfterDeletes(plans), Lengths(plans), n, k, id, []) == Homed(Joined(plans, n, id), k)
  {
    if n == 0 {
    } else {
      JoinedRows(plans, n - 1, k, id);
      InsertTurn(plans[n - 1], Joined(plans, n - 1, id), k, id);
    }
  }

  /** All deletes before all inserts: a machine named more than once keeps the rows of every report naming it. */
  lemma DeletesFirstJoins(plans: seq<Plan>, t: Tables) returns (sched: seq<nat>)
    ensures Finished(sched, Programs(plans))
    ensures forall k: Table, i: nat :: i < |plans| && plans[i].Replace? ==>
              Only(Run(TraceOf(sched, Programs(plans)), t).Of(k), plans[i].id) ==
              Homed(Joined(plans, |plans|, plans[i].id), k)
  {
    var progs, n := Programs(plans), |plans|;
    var none, zeros := NothingRan(progs);
    TurnsAreStops(plans, Zeros(plans), AfterDeletes(plans));
    TurnsAreStops(plans, AfterDeletes(plans), Lengths(plans));
    var half := WholeRound(none, progs, Zeros(plans), AfterDeletes(plans));
    sched := WholeRound(half, progs, AfterDeletes(plans), Lengths(plans));
    forall k: Table, i: nat | i < |plans| && plans[i].Replace?
      ensures Only(Run(TraceOf(sched, progs), t).Of(k), plans[i].id) == Homed(Joined(plans, n, plans[i].id), k)
    {
      var id := plans[i].id;
      var deleted := RowsAfterRound(plans, Zeros(plans), AfterDeletes(plans), n, [], t, k, id, RowsAfter([], t, k, id));
      DeletedRows(plans, n, k, id, RowsAfter([], t, k, id), i);
      var joined := RowsAfterRound(plans, AfterDeletes(plans), Lengths(plans), n, TraceOf(half, progs), t, k, id, []);
      JoinedRows(plans, n, k, id);
    }
  }

  lemma {:induction false} JoinedAtLeast(plans: seq<Plan>, n: nat, id: real, i: nat)
    requires i < n <= |plans| && Names(plans[i], id)
    ensures |Joined(plans, n, id)| >= |plans[i].rows|
  {
    if i == n - 1 {
    } else {
      JoinedAtLeast(plans, n - 1, id, i);
    }
  }

  lemma {:induction false} JoinedExceeds(plans: seq<Plan>, n: nat, id: real, i: nat, j: nat)
    requires i < n <= |plans| && j < n && i != j && Names(plans[i], id) && Names(plans[j], id) && plans[j].rows != []
    ensures |Joined(plans, n, id)| > |plans[i].rows|
  {
    if i == n - 1 {
      JoinedAtLeast(plans, n - 1, id, j);
    } else if j == n - 1 {
      JoinedAtLeast(plans, n - 1, id, i);
    } else {
      JoinedExceeds(plans, n - 1, id, i, j);
    }
  }

  // ----- a report without rows between the inserts of another

  /** Every other report that names the machine has no rows. */
  ghost predicate OthersEmpty(plans: seq<Plan>, p: nat, id: real) {
    && p < |plans| && Names(plans[p], id)
    && forall j :: 0 <= j < |plans| && j != p && Names(plans[j], id) ==> plans[j].rows == []
  }

  /** Report p stays behind its first insert. */
  ghost function HeldAt(plans: seq<Plan>, p: nat, counts: seq<nat>): seq<nat>
    requires p < |counts|
  {
    counts[p := 4]
  }

  lemma {:induction false} WipedByOthers(plans: seq<Plan>, p: nat, n: nat, k: Table, id: real, rows: seq<Row>, q: nat)
    requires OthersEmpty(plans, p, id) && plans[p].rows != [] && q < n <= |plans| && q != p && Names(plans[q], id)
    ensures RoundRows(plans, HeldAt(plans, p, Zeros(plans)), HeldAt(plans, p, Lengths(plans)), n, k, id, rows) == []
  {
    if q == n - 1 {
    } else {
      WipedByOthers(plans, p, n - 1, k, id, rows, q);
    }
  }

  /** Report p up to its first insert, then every other report, then the rest of p. */
  lemma ScheduleAround(plans: seq<Plan>, p: nat) returns (sched: seq<nat>, first: seq<Stmt>)
    requires p < |plans| && plans[p].Replace? && plans[p].rows != []
    requires Stops(Programs(plans), HeldAt(plans, p, Zeros(plans)), HeldAt(plans, p, Lengths(plans)))
    ensures Finished(sched, Programs(plans))
    ensures TraceOf(sched, Programs(plans)) ==
            Round(Programs(plans), HeldAt(plans, p, Zeros(plans)), HeldAt(plans, p, Lengths(plans)), |plans|, first) +
            Program(plans[p])[4..Length(plans[p])]
  {
    var progs := Programs(plans);
    var none, zeros := NothingRan(progs);
    ProgramLength(plans[p]);
    var one := Extend(none, progs, Zeros(plans), p, 4);
    var most := WholeRound(one, progs, HeldAt(plans, p, Zeros(plans)), HeldAt(plans, p, Lengths(plans)));
    sched := Extend(most, progs, HeldAt(plans, p, Lengths(plans)), p, Length(plans[p]));
    first := TraceOf(one, progs);
    forall j | 0 <= j < |plans| ensures multiset(sched)[j] == |progs[j]| {
      ProgramLength(plans[j]);
    }
  }

  lemma HeldTurns(plans: seq<Plan>, p: nat)
    requires p < |plans| && plans[p].Replace? && plans[p].rows != []
    ensures Turns(plans, HeldAt(plans, p, Zeros(plans)), HeldAt(plans, p, Lengths(plans)))
  {
  }

  lemma NothingBetween(plans: seq<Plan>, p: nat, q: nat, t: Tables, k: Table, id: real, first: seq<Stmt>)
    requires OthersEmpty(plans, p, id) && plans[p].rows != []
    requires q < |plans| && q != p && Names(plans[q], id)
    requires Stops(Programs(plans), HeldAt(plans, p, Zeros(plans)), HeldAt(plans, p, Lengths(plans)))
    ensures RowsAfter(Round(Programs(plans), HeldAt(plans, p, Zeros(plans)), HeldAt(plans, p, Lengths(plans)),
                            |plans|, first), t, k, id) == []
  {
    HeldTurns(plans, p);
    var most := RowsAfterRound(plans, HeldAt(plans, p, Zeros(plans)), HeldAt(plans, p, Lengths(plans)), |plans|, first,
                               t, k, id, RowsAfter(first, t, k, id));
    WipedByOthers(plans, p, |plans|, k, id, RowsAfter(first, t, k, id), q);
  }

  lemma FirstRowLost(p: Plan, t: Tables, k: Table, id: real, most: seq<Stmt>)
    requires Names(p, id) && p.rows != [] && RowsAfter(most, t, k, id) == []
    ensures 4 <= |Program(p)| && Length(p) == |Program(p)|
    ensures RowsAfter(most + Program(p)[4..Length(p)], t, k, id) == Homed(p.rows[1..], k)
  {
    RowsAfterTurn(most, p, 4, Length(p), t, k, id);
    assert p.rows[1..|p.rows|] == p.rows[1..];
  }

  /** A report without rows that runs after the first insert of another takes exactly that row away. */
  lemma EmptyReportCuts(plans: seq<Plan>, p: nat, q: nat, t: Tables, id: real) returns (sched: seq<nat>)
    requires OthersEmpty(plans, p, id) && plans[p].rows != []
    requires q < |plans| && q != p && Names(plans[q], id)
    ensures Finished(sched, Programs(plans))
    ensures forall k: Table ::
              Only(Run(TraceOf(sched, Programs(plans)), t).Of(k), id) == Homed(plans[p].rows[1..], k)
  {
    var starts, stops := HeldAt(plans, p, Zeros(plans)), HeldAt(plans, p, Lengths(plans));
    HeldTurns(plans, p);
    TurnsAreStops(plans, starts, stops);
    var first;
    sched, first := ScheduleAround(plans, p);
    forall k: Table
      ensures Only(Run(TraceOf(sched, Programs(plans)), t).Of(k), id) == Homed(plans[p].rows[1..], k)
    {
      NothingBetween(plans, p, q, t, k, id, first);
      FirstRowLost(plans[p], t, k, id, Round(Programs(plans), starts, stops, |plans|, first));
    }
  }

  // ----- comparison with serial orders

  /** A serial run keeps the rows of one report, the last one that names the machine. */
  lemma {:induction false} LastForSome(plans: seq<Plan>, id: real, named: nat) returns (i: nat)
    requires named < |plans| && Names(plans[named], id)
    ensures named <= i < |plans| && Names(plans[i], id) && LastFor(plans, id) == Some(plans[i].rows)
  {
    var last := |plans| - 1;
    if Names(plans[last], id) {
      i := last;
    } else {
      i := LastForSome(plans[..last], id, named);
    }
  }

  lemma {:induction false} OnlyCountZero(rows: seq<Row>, r: Row, id: real)
    requires r.id != id
    ensures r !in Only(rows, id)
  {
    if rows == [] {
    } else {
      OnlyCountZero(rows[..|rows| - 1], r, id);
    }
  }

  lemma SameLength(a: seq<Row>, b: seq<Row>, id: real)
    requires multiset(a) == multiset(b)
    ensures |Only(a, id)| == |Only(b, id)|
  {
    var x, y := multiset(Only(a, id)), multiset(Only(b, id));
    forall r: Row
      ensures x[r] == y[r]
    {
      if r.id == id {
        OnlyCount(a, r);
        OnlyCount(b, r);
      } else {
        OnlyCountZero(a, r, id);
        OnlyCountZero(b, r, id);
      }
    }
    assert x == y;
    assert |x| == |Only(a, id)| && |y| == |Only(b, id)|;
  }

  lemma DifferentLengthsDiffer(a: Tables, b: Tables, id: real, x: seq<Row>, y: seq<Row>)
    requires forall k: Table :: Only(a.Of(k), id) == Homed(x, k) && Only(b.Of(k), id) == Homed(y, k)
    requires |x| != |y|
    ensures !SameBags(a, b)
  {
    HomedLengths(x);
    HomedLengths(y);
    if SameBags(a, b) {
      forall k: Table ensures |Homed(x, k)| == |Homed(y, k)| {
        SameLength(a.Of(k), b.Of(k), id);
      }
    }
  }

  /** The final tables are those of some serial order. */
  ghost predicate Serializable(sched: seq<nat>, plans: seq<Plan>, t: Tables)
    requires Valid(sched, Programs(plans))
  {
    exists order :: IsOrder(order, |plans|) &&
                    SameBags(Run(TraceOf(sched, Programs(plans)), t), RunPlans(InOrder(order, plans), t))
  }

  /** Final rows whose number is not that of any one report come from no serial order. */
  lemma NoSerialOrder(sched: seq<nat>, plans: seq<Plan>, t: Tables, id: real, named: nat, rows: seq<Row>)
    requires Valid(sched, Programs(plans)) && named < |plans| && Names(plans[named], id)
    requires forall k: Table :: Only(Run(TraceOf(sched, Programs(plans)), t).Of(k), id) == Homed(rows, k)
    requires forall i :: 0 <= i < |plans| && Names(plans[i], id) ==> |plans[i].rows| != |rows|
    ensures !Serializable(sched, plans, t)
  {
    forall order | IsOrder(order, |plans|)
      ensures !SameBags(Run(TraceOf(sched, Programs(plans)), t), RunPlans(InOrder(order, plans), t))
    {
      var serial := InOrder(order, plans);
      assert named in order;
      var a: nat :| a < |order| && order[a] == named;
      var last := LastForSome(serial, id, a);
      forall k: Table ensures Only(RunPlans(serial, t).Of(k), id) == Homed(serial[last].rows, k) {
        LastWriterWins(serial, t, k, id);
      }
      assert serial[last] == plans[order[last]];
      DifferentLengthsDiffer(Run(TraceOf(sched, Programs(plans)), t), RunPlans(serial, t), id, rows,
                             serial[last].rows);
    }
  }

  /** Any two reports that name one machine insert at most one row between them. */
  ghost predicate Compatible(plans: seq<Plan>) {
    forall i, j :: 0 <= i < j < |plans| && plans[i].Replace? && Names(plans[j], plans[i].id) ==>
                     |plans[i].rows| + |plans[j].rows| <= 1
  }

  lemma BothStoreMix(plans: seq<Plan>, t: Tables, a: nat, b: nat) returns (sched: seq<nat>)
    requires a < b < |plans| && plans[a].Replace? && Names(plans[b], plans[a].id)
    requires plans[a].rows != [] && plans[b].rows != []
    ensures Finished(sched, Programs(plans)) && !Serializable(sched, plans, t)
  {
    var id := plans[a].id;
    sched := DeletesFirstJoins(plans, t);
    forall i | 0 <= i < |plans| && Names(plans[i], id)
      ensures |plans[i].rows| != |Joined(plans, |plans|, id)|
    {
      JoinedExceeds(plans, |plans|, id, i, if i == a then b else a);
    }
    NoSerialOrder(sched, plans, t, id, a, Joined(plans, |plans|, id));
  }

  /** When two reports that name one machine insert two or more rows between them, some run ends in tables that no
      serial order produces. */
  lemma SharedMachineMixes(plans: seq<Plan>, t: Tables) returns (sched: seq<nat>)
    requires !Compatible(plans)
    ensures Finished(sched, Programs(plans)) && !Serializable(sched, plans, t)
  {
    var a: nat, b: nat :| a < b < |plans| && plans[a].Replace? && Names(plans[b], plans[a].id) &&
                          |plans[a].rows| + |plans[b].rows| > 1;
    var id := plans[a].id;
    var p, q := if plans[a].rows == [] then b else a, if plans[a].rows == [] then a else b;
    if j: nat :| j < |plans| && j != p && Names(plans[j], id) && plans[j].rows != [] {
      sched := BothStoreMix(plans, t, if j < p then j else p, if j < p then p else j);
    } else {
      sched := EmptyReportCuts(plans, p, q, t, id);
      NoSerialOrder(sched, plans, t, id, p, plans[p].rows[1..]);
    }
  }

  // ----- compatible reports always end as in some serial order

  function DeletePosition(k: Table): nat {
    match k
    case ServerInfo => 0
    case DockerInfo => 1
    case CpuInfo => 2
  }

  /** The machine's rows after statement c of report p. */
  ghost function StepEffect(p: Plan, c: nat, k: Table, id: real, now: seq<Row>): seq<Row>
    requires c < Length(p)
  {
    if !Names(p, id) then now
    else if c >= 3 then now + Homed([p.rows[c - 3]], k)
    else if c == DeletePosition(k) then [] else now
  }

  lemma NextRows(p: Plan, c: nat, k: Table, rows: seq<Row>)
    requires c < |Program(p)|
    ensures p.Replace? && Program(p)[c].Id() == p.id
    ensures Without(rows, p.id) == [] ==> ApplyTo(Program(p)[c], k, rows) == StepEffect(p, c, k, p.id, rows)
  {
    assert p.Replace?;
    if c < 3 {
      assert Program(p)[c] == Deletes(p.id)[c];
    } else {
      var r := p.rows[c - 3];
      assert Program(p)[c] == Insert(r);
      assert Homed([r], k) == if r.Home() == k then [r] else [];
      assert rows + [] == rows;
    }
  }

  lemma OneMoreRows(before: seq<Stmt>, s: Stmt, t: Tables, k: Table, id: real)
    ensures RowsAfter(before + [s], t, k, id) ==
            if s.Id() == id then ApplyTo(s, k, RowsAfter(before, t, k, id)) else RowsAfter(before, t, k, id)
    ensures Without(RowsAfter(before, t, k, id), id) == []
  {
    BlockRows(before, [s], s.Id(), t, k, id);
    WithoutOnly(Run(before, t).Of(k), id);
  }

  lemma StatementRows(before: seq<Stmt>, s: Stmt, p: Plan, c: nat, t: Tables, k: Table, id: real)
    requires c < |Program(p)| && s == Program(p)[c]
    ensures RowsAfter(before + [s], t, k, id) == StepEffect(p, c, k, id, RowsAfter(before, t, k, id))
  {
    OneMoreRows(before, s, t, k, id);
    NextRows(p, c, k, RowsAfter(before, t, k, id));
  }

  lemma StepRows(sched: seq<nat>, plans: seq<Plan>, t: Tables, k: Table, id: real)
    requires Valid(sched, Programs(plans)) && sched != []
    ensures var front, j := sched[..|sched| - 1], sched[|sched| - 1];
            && Valid(front, Programs(plans)) && j < |plans| && multiset(front)[j] < Length(plans[j])
            && RowsAfter(TraceOf(sched, Programs(plans)), t, k, id) ==
               StepEffect(plans[j], multiset(front)[j], k, id, RowsAfter(TraceOf(front, Programs(plans)), t, k, id))
  {
    ValidFront(sched, Programs(plans));
    var front, j := sched[..|sched| - 1], sched[|sched| - 1];
    ProgramLength(plans[j]);
    StatementRows(TraceOf(front, Programs(plans)), Programs(plans)[j][multiset(front)[j]], plans[j], multiset(front)[j],
                  t, k, id);
  }

  lemma CountStep(sched: seq<nat>, i: nat)
    requires sched != []
    ensures var front, j := sched[..|sched| - 1], sched[|sched| - 1];
            multiset(sched)[i] == multiset(front)[i] + if j == i then 1 else 0
  {
    assert sched == sched[..|sched| - 1] + [sched[|sched| - 1]];
  }

  /** Once the report with at most one row has deleted from a table, its row is there or the table holds nothing of
      the machine; `count` is the number of statements the report has run. */
  predicate RowOrNothing(rows: seq<Row>, count: nat, k: Table, now: seq<Row>) {
    count > DeletePosition(k) ==> now == [] || (count == 4 && now == Homed(rows, k))
  }

  lemma KeepsRowOrNothing(plans: seq<Plan>, i: nat, id: real, j: nat, c: nat, count: nat, k: Table, now: seq<Row>)
    requires OthersEmpty(plans, i, id) && |plans[i].rows| <= 1 && j < |plans| && c < Length(plans[j])
    requires RowOrNothing(plans[i].rows, count, k, now) && (j == i ==> c == count)
    ensures RowOrNothing(plans[i].rows, count + if j == i then 1 else 0, k, StepEffect(plans[j], c, k, id, now))
  {
    if j == i && c >= 3 {
      assert plans[i].rows == [plans[i].rows[0]];
    }
  }

  lemma {:induction false} AlwaysRowOrNothing(
    sched: seq<nat>, plans: seq<Plan>, t: Tables, k: Table, id: real, i: nat) returns (rows: seq<Row>)
    requires Valid(sched, Programs(plans)) && OthersEmpty(plans, i, id) && |plans[i].rows| <= 1
    ensures rows == RowsAfter(TraceOf(sched, Programs(plans)), t, k, id)
    ensures RowOrNothing(plans[i].rows, multiset(sched)[i], k, rows)
  {
    if sched == [] {
      rows := RowsAfter([], t, k, id);
    } else {
      var front: seq<nat>, j: nat := sched[..|sched| - 1], sched[|sched| - 1];
      StepRows(sched, plans, t, k, id);
      var now := AlwaysRowOrNothing(front, plans, t, k, id, i);
      rows := StepEffect(plans[j], multiset(front)[j], k, id, now);
      CountStep(sched, i);
      KeepsRowOrNothing(plans, i, id, j, multiset(front)[j], multiset(front)[i], k, now);
    }
  }

  /** Report i names a machine whose final rows are those of report i. */
  ghost predicate Wins(plans: seq<Plan>, i: nat, final: Tables) {
    && i < |plans| && plans[i].Replace?
    && forall k: Table :: Only(final.Of(k), plans[i].id) == Homed(plans[i].rows, k)
  }

  lemma SomeoneWins(sched: seq<nat>, plans: seq<Plan>, t: Tables, named: nat) returns (winner: nat)
    requires Finished(sched, Programs(plans)) && Compatible(plans) && named < |plans| && plans[named].Replace?
    ensures winner < |plans| && Names(plans[winner], plans[named].id)
    ensures Wins(plans, winner, Run(TraceOf(sched, Programs(plans)), t))
  {
    var id, final := plans[named].id, Run(TraceOf(sched, Programs(plans)), t);
    if other: nat :| other < |plans| && other != named && Names(plans[other], id) {
      winner := OneOfTwoWins(sched, plans, t, named, other, id);
    } else {
      winner := named;
      forall k: Table ensures Only(final.Of(k), id) == Homed(plans[named].rows, k) {
        FinishedSole(sched, plans, t, k, named, id);
      }
    }
  }

  lemma SingleRowHome(rows: seq<Row>, k: Table)
    requires |rows| == 1
    ensures Homed(rows, k) == if rows[0].Home() == k then rows else []
  {
    assert rows[..0] == [] && rows == [rows[0]];
  }

  /** Tables that each show the row of p or nothing show it at its home table or nowhere. */
  lemma RowAtHome(p: Plan, q: Plan, final: Tables) returns (won: bool)
    requires p.Replace? && Names(q, p.id) && |p.rows| <= 1 && q.rows == []
    requires forall k: Table :: Only(final.Of(k), p.id) == [] || Only(final.Of(k), p.id) == Homed(p.rows, k)
    ensures forall k: Table :: Only(final.Of(k), p.id) == Homed(if won then p.rows else q.rows, k)
  {
    if p.rows == [] {
      won := true;
    } else {
      forall k: Table ensures Homed(p.rows, k) == if p.rows[0].Home() == k then p.rows else [] {
        SingleRowHome(p.rows, k);
      }
      won := Only(final.Of(p.rows[0].Home()), p.id) != [];
    }
  }

  /** Of compatible reports that name one machine, one has at most one row and all others have none. */
  lemma AtMostOneRow(plans: seq<Plan>, a: nat, b: nat, id: real) returns (p: nat, q: nat)
    requires Compatible(plans) && a < |plans| && b < |plans| && a != b
    requires Names(plans[a], id) && Names(plans[b], id)
    ensures OthersEmpty(plans, p, id) && |plans[p].rows| <= 1
    ensures q < |plans| && q != p && Names(plans[q], id)
  {
    if j: nat :| j < |plans| && Names(plans[j], id) && plans[j].rows != [] {
      p := j;
    } else {
      p := a;
    }
    q := if p == a then b else a;
  }

  lemma OneOfTwoWins(sched: seq<nat>, plans: seq<Plan>, t: Tables, a: nat, b: nat, id: real) returns (winner: nat)
    requires Finished(sched, Programs(plans)) && Compatible(plans)
    requires a < |plans| && b < |plans| && a != b && Names(plans[a], id) && Names(plans[b], id)
    ensures winner < |plans| && Names(plans[winner], id)
    ensures Wins(plans, winner, Run(TraceOf(sched, Programs(plans)), t))
  {
    var final := Run(TraceOf(sched, Programs(plans)), t);
    var p, q := AtMostOneRow(plans, a, b, id);
    forall k: Table
      ensures Only(final.Of(k), id) == [] || Only(final.Of(k), id) == Homed(plans[p].rows, k)
    {
      var rows := AlwaysRowOrNothing(sched, plans, t, k, id, p);
      assert multiset(sched)[p] == |Programs(plans)[p]|;
    }
    var won := RowAtHome(plans[p], plans[q], final);
    winner := if won then p else q;
  }

  /** The numbers below n whose flag is f, in order. */
  function Picked(flags: seq<bool>, n: nat, f: bool): (picked: seq<nat>)
    requires n <= |flags|
    ensures forall a :: 0 <= a < |picked| ==> picked[a] < n && flags[picked[a]] == f
    ensures forall a, b :: 0 <= a < b < |picked| ==> picked[a] < picked[b]
    ensures forall i: nat :: i < n && flags[i] == f ==> i in picked
  {
    if n == 0 then []
    else if flags[n - 1] == f then Picked(flags, n - 1, f) + [n - 1]
    else Picked(flags, n - 1, f)
  }

  function LosersFirst(flags: seq<bool>): seq<nat> {
    Picked(flags, |flags|, false) + Picked(flags, |flags|, true)
  }

  lemma LosersFirstIsOrder(flags: seq<bool>)
    ensures IsOrder(LosersFirst(flags), |flags|)
  {
  }

  /** With every flagged report behind every other one, the last report naming a machine is a flagged one, if any of
      them is. */
  lemma LastIsFlagged(plans: seq<Plan>, flags: seq<bool>, some: nat, id: real) returns (last: nat)
    requires |flags| == |plans| && some < |plans| && flags[some] && Names(plans[some], id)
    requires IsOrder(LosersFirst(flags), |plans|)
    ensures last < |plans| && flags[last] && Names(plans[last], id)
    ensures LastFor(InOrder(LosersFirst(flags), plans), id) == Some(plans[last].rows)
  {
    var losers, winners := Picked(flags, |flags|, false), Picked(flags, |flags|, true);
    assert some in winners;
    var a: nat :| a < |winners| && winners[a] == some;
    assert LosersFirst(flags)[|losers| + a] == some;
    var b := LastForSome(InOrder(LosersFirst(flags), plans), id, |losers| + a);
    last := LosersFirst(flags)[b];
    assert last == winners[b - |losers|];
  }

  lemma WinnersLast(plans: seq<Plan>, t: Tables, final: Tables, flags: seq<bool>, k: Table, winner: nat, id: real)
    requires |flags| == |plans| && forall i :: 0 <= i < |plans| && flags[i] ==> Wins(plans, i, final)
    requires winner < |plans| && flags[winner] && Names(plans[winner], id)
    requires IsOrder(LosersFirst(flags), |plans|)
    ensures Only(final.Of(k), id) == Only(RunPlans(InOrder(LosersFirst(flags), plans), t).Of(k), id)
  {
    var last := LastIsFlagged(plans, flags, winner, id);
    LastWriterWins(InOrder(LosersFirst(flags), plans), t, k, id);
  }

  /** Compatible reports end as in a serial order, however their statements interleave. */
  lemma CompatibleIsSerial(sched: seq<nat>, plans: seq<Plan>, t: Tables)
    requires Finished(sched, Programs(plans)) && Compatible(plans)
    ensures Serializable(sched, plans, t)
  {
    var final := Run(TraceOf(sched, Programs(plans)), t);
    var flags := seq(|plans|, i requires 0 <= i < |plans| => Wins(plans, i, final));
    var order := LosersFirst(flags);
    LosersFirstIsOrder(flags);
    forall k: Table, id: real
      ensures Only(final.Of(k), id) == Only(RunPlans(InOrder(order, plans), t).Of(k), id)
    {
      if named: nat :| named < |plans| && Names(plans[named], id) {
        var winner := SomeoneWins(sched, plans, t, named);
        WinnersLast(plans, t, final, flags, k, winner, id);
      } else {
        OthersUntouched(sched, plans, t, k, id);
        SerialUnnamed(plans, order, t, k, id);
      }
    }
    BagsFromMachines(final, RunPlans(InOrder(order, plans), t));
  }

  /** Reports are safe to process concurrently exactly when any two that name one machine insert at most one row
      between them. */
  lemma SerializableIffCompatible(plans: seq<Plan>)
    ensures Compatible(plans) <==>
            forall sched, t :: Finished(sched, Programs(plans)) ==> Serializable(sched, plans, t)
  {
    if Compatible(plans) {
      forall sched, t | Finished(sched, Programs(plans))
        ensures Serializable(sched, plans, t)
      {
        CompatibleIsSerial(sched, plans, t);
      }
    } else {
      var sched := SharedMachineMixes(plans, Tables([], [], []));
    }
  }
}
