/** What the store holds after reports: per-machine locality, last writer wins, cut-off reports. */
module StoreHistory {
  import opened Wrappers
  import opened JsonReport
  import opened ReportStore

  /** Equality of the three tables as SQL sees it: as bags of rows. */
  ghost predicate SameBags(a: Tables, b: Tables) {
    forall k: Table :: multiset(a.Of(k)) == multiset(b.Of(k))
  }

  // ----- locality: the rows of a machine depend only on that machine's statements

  lemma {:induction false} OnlyWithout(rows: seq<Row>, key: real, id: real)
    ensures Only(Without(rows, key), id) == if key == id then [] else Only(rows, id)
  {
    if rows == [] {
    } else {
      var rest, r := Without(rows[..|rows| - 1], key), rows[|rows| - 1];
      OnlyWithout(rows[..|rows| - 1], key, id);
      assert (rest + [r])[..|rest|] == rest;
    }
  }

  lemma {:induction false} WithoutOnly(rows: seq<Row>, id: real)
    ensures Without(Only(rows, id), id) == []
  {
    if rows == [] {
    } else {
      var rest, r := Only(rows[..|rows| - 1], id), rows[|rows| - 1];
      WithoutOnly(rows[..|rows| - 1], id);
      assert (rest + [r])[..|rest|] == rest;
    }
  }

  lemma OnlyApplyTo(s: Stmt, k: Table, rows: seq<Row>, id: real)
    ensures Only(ApplyTo(s, k, rows), id) == if s.Id() == id then ApplyTo(s, k, Only(rows, id)) else Only(rows, id)
  {
    if s.Target() == k {
      if s.Delete? {
        OnlyWithout(rows, s.key, id);
        WithoutOnly(rows, id);
      } else {
        assert (rows + [s.row])[..|rows|] == rows;
      }
    }
  }

  lemma {:induction false} RunOf(trace: seq<Stmt>, t: Tables, k: Table)
    ensures Run(trace, t).Of(k) == RunOn(trace, k, t.Of(k))
  {
    if trace == [] {
    } else {
      RunOf(trace[..|trace| - 1], t, k);
    }
  }

  /** Selecting a machine's rows after any run is running that machine's own statements on its own rows. */
  lemma {:induction false} Locality(trace: seq<Stmt>, t: Tables, k: Table, id: real)
    ensures Only(Run(trace, t).Of(k), id) == RunOn(OnlyStmts(trace, id), k, Only(t.Of(k), id))
  {
    if trace == [] {
    } else {
      var front, s := trace[..|trace| - 1], trace[|trace| - 1];
      Locality(front, t, k, id);
      RunOf(trace, t, k);
      RunOf(front, t, k);
      OnlyApplyTo(s, k, RunOn(front, k, t.Of(k)), id);
      var own := OnlyStmts(front, id);
      assert (own + [s])[..|own|] == own;
    }
  }

  lemma {:induction false} OnlyCount(rows: seq<Row>, r: Row)
    ensures multiset(rows)[r] == multiset(Only(rows, r.id))[r]
  {
    if rows == [] {
    } else {
      OnlyCount(rows[..|rows| - 1], r);
      assert rows == rows[..|rows| - 1] + [rows[|rows| - 1]];
    }
  }

  /** Agreeing on every machine's rows is agreeing as bags. */
  lemma BagsFromMachines(a: Tables, b: Tables)
    requires forall k: Table, id: real :: Only(a.Of(k), id) == Only(b.Of(k), id)
    ensures SameBags(a, b)
  {
    forall k: Table
      ensures multiset(a.Of(k)) == multiset(b.Of(k))
    {
      forall r: Row
        ensures multiset(a.Of(k))[r] == multiset(b.Of(k))[r]
      {
        OnlyCount(a.Of(k), r);
        OnlyCount(b.Of(k), r);
      }
    }
  }

  // ----- one report, possibly cut off

  lemma {:induction false} OnlyStmtsAll(trace: seq<Stmt>, id: real, other: real)
    requires forall i :: 0 <= i < |trace| ==> trace[i].Id() == id
    ensures OnlyStmts(trace, other) == if other == id then trace else []
  {
    if trace == [] {
    } else {
      OnlyStmtsAll(trace[..|trace| - 1], id, other);
    }
  }

  lemma {:induction false} HomedPrefix(rows: seq<Row>, n: nat, k: Table)
    requires n <= |rows|
    ensures Homed(rows[..n], k) <= Homed(rows, k)
  {
    if n == |rows| {
      assert rows[..n] == rows;
    } else {
      assert rows[..|rows| - 1][..n] == rows[..n];
      HomedPrefix(rows[..|rows| - 1], n, k);
    }
  }

  /** The rows a machine has in table k after the first n statements of its report. */
  function AfterPrefix(p: Plan, n: nat, k: Table, before: seq<Row>): seq<Row>
    requires p.Replace? && n <= 3 + |p.rows|
  {
    if n >= 3 then Homed(p.rows[..n - 3], k)
    else if (k == ServerInfo && n >= 1) || (k == DockerInfo && n >= 2) then []
    else before
  }

  lemma PrefixStep(rows: seq<Row>, n: nat, k: Table)
    requires 0 < n <= |rows|
    ensures Homed(rows[..n], k) == ApplyTo(Insert(rows[n - 1]), k, Homed(rows[..n - 1], k))
  {
    assert rows[..n][..n - 1] == rows[..n - 1];
  }

  lemma NextStatement(p: Plan, n: nat)
    requires p.Replace? && 0 < n <= |Program(p)|
    ensures n <= 3 + |p.rows|
    ensures Program(p)[n - 1] == if n > 3 then Insert(p.rows[n - 4]) else Deletes(p.id)[n - 1]
  {
  }

  lemma AfterNextStatement(p: Plan, n: nat, k: Table, rows: seq<Row>, s: Stmt)
    requires p.Replace? && 0 < n <= 3 + |p.rows| && Without(rows, p.id) == []
    requires s == if n > 3 then Insert(p.rows[n - 4]) else Deletes(p.id)[n - 1]
    ensures ApplyTo(s, k, AfterPrefix(p, n - 1, k, rows)) == AfterPrefix(p, n, k, rows)
  {
    if n > 3 {
      PrefixStep(p.rows, n - 3, k);
    }
  }

  lemma {:induction false} RunOnPrefix(p: Plan, n: nat, k: Table, rows: seq<Row>)
    requires p.Replace? && n <= |Program(p)| && Without(rows, p.id) == []
    ensures RunOn(Program(p)[..n], k, rows) == AfterPrefix(p, n, k, rows)
  {
    if n == 0 {
    } else {
      var stmts := Program(p)[..n];
      assert stmts[..n - 1] == Program(p)[..n - 1];
      RunOnPrefix(p, n - 1, k, rows);
      NextStatement(p, n);
      AfterNextStatement(p, n, k, rows, stmts[n - 1]);
    }
  }

  /** A report stopped after its first n statements leaves every other machine alone. Its own rows are old or
      already deleted before the third delete, and from then on the first rows of the new report, never a mix. */
  lemma CutOffReport(p: Plan, n: nat, t: Tables, k: Table, id: real)
    requires n <= |Program(p)|
    ensures var now, before := Only(Run(Program(p)[..n], t).Of(k), id), Only(t.Of(k), id);
            if p.Replace? && p.id == id then now == AfterPrefix(p, n, k, before) else now == before
  {
    var stmts := Program(p)[..n];
    Locality(stmts, t, k, id);
    if p.Replace? {
      OnlyStmtsAll(stmts, p.id, id);
      if p.id == id {
        WithoutOnly(t.Of(k), id);
        RunOnPrefix(p, n, k, Only(t.Of(k), id));
      }
    }
  }

  /** For every body and every failing insert: the machine has the rows in front of that insert, every other machine
      what it had. The servlet answers with the id as if all were stored. */
  lemma FailedInsert(body: Body, failing: Option<nat>, t: Tables, k: Table, id: real)
    ensures var p := PlanWith(body, failing);
            && Only(Run(Executed(body, failing), t).Of(k), id) ==
               (if p.Replace? && p.id == id then Homed(p.rows, k) else Only(t.Of(k), id))
            && (FailsIn(body, failing) ==>
                p.rows == PlanOf(body).rows[..failing.value] && OutcomeWith(body, failing) == Returned(p.id))
  {
    ExecutedIsProgram(body, failing);
    WholeReport(PlanWith(body, failing), t, k, id);
  }

  /** In terms of the two ends: the old rows or none while deletes are missing, a prefix of the final rows after. */
  lemma CutOffNeverMixes(p: Plan, n: nat, t: Tables, k: Table)
    requires p.Replace? && n <= |Program(p)|
    ensures var now := Only(Run(Program(p)[..n], t).Of(k), p.id);
            && (n < 3 ==> now == [] || now == Only(t.Of(k), p.id))
            && (n >= 3 ==> now <= Only(Run(Program(p), t).Of(k), p.id))
  {
    CutOffReport(p, n, t, k, p.id);
    if n >= 3 {
      WholeReport(p, t, k, p.id);
      HomedPrefix(p.rows, n - 3, k);
    } else {
      assert AfterPrefix(p, n, k, Only(t.Of(k), p.id)) == [] ||
             AfterPrefix(p, n, k, Only(t.Of(k), p.id)) == Only(t.Of(k), p.id);
    }
  }

  /** A whole report replaces the rows of its machine. */
  lemma WholeReport(p: Plan, t: Tables, k: Table, id: real)
    ensures Only(Run(Program(p), t).Of(k), id) ==
            if p.Replace? && p.id == id then Homed(p.rows, k) else Only(t.Of(k), id)
  {
    CutOffReport(p, |Program(p)|, t, k, id);
    assert Program(p)[..|Program(p)|] == Program(p);
    if p.Replace? {
      AfterWhole(p, k, Only(t.Of(k), id));
    }
  }

  lemma AfterWhole(p: Plan, k: Table, before: seq<Row>)
    requires p.Replace?
    ensures AfterPrefix(p, |Program(p)|, k, before) == Homed(p.rows, k)
  {
    assert p.rows[..|p.rows|] == p.rows;
  }

  // ----- which rows go to which table

  lemma {:induction false} HomedConcat(a: seq<Row>, b: seq<Row>, k: Table)
    ensures Homed(a + b, k) == Homed(a, k) + Homed(b, k)
  {
    if b == [] {
      assert a + b == a;
    } else {
      HomedConcat(a, b[..|b| - 1], k);
      assert (a + b)[..|a + b| - 1] == a + b[..|b| - 1];
    }
  }

  ghost predicate AllHomed(rows: seq<Row>, home: Table) {
    forall i :: 0 <= i < |rows| ==> rows[i].Home() == home
  }

  lemma {:induction false} HomedAll(rows: seq<Row>, home: Table, k: Table)
    requires AllHomed(rows, home)
    ensures Homed(rows, k) == if home == k then rows else []
  {
    if rows == [] {
    } else {
      HomedAll(rows[..|rows| - 1], home, k);
    }
  }

  lemma HomedSum(a: seq<Row>, b: seq<Row>, c: seq<Row>, k: Table)
    ensures Homed(a + b + c, k) == Homed(a, k) + Homed(b, k) + Homed(c, k)
  {
    HomedConcat(a + b, c, k);
    HomedConcat(a, b, k);
  }

  lemma HomedThree(servers: seq<Row>, cpus: seq<Row>, dockers: seq<Row>, k: Table)
    requires AllHomed(servers, ServerInfo) && AllHomed(cpus, CpuInfo) && AllHomed(dockers, DockerInfo)
    ensures Homed(servers + cpus + dockers, k) ==
            match k case ServerInfo => servers case CpuInfo => cpus case DockerInfo => dockers
  {
    HomedSum(servers, cpus, dockers, k);
    HomedAll(servers, ServerInfo, k);
    HomedAll(cpus, CpuInfo, k);
    HomedAll(dockers, DockerInfo, k);
    EmptyAround(match k case ServerInfo => servers case CpuInfo => cpus case DockerInfo => dockers);
  }

  lemma EmptyAround(rows: seq<Row>)
    ensures rows + [] + [] == rows && [] + rows + [] == rows && [] + [] + rows == rows
  {
  }

  function Stored(id: real, r: Report): Tables {
    Tables(
      if HasSections(r) then ServerRows(id, r) else [],
      if Complete(r) then CpuRows(id, r.cpu.value) else [],
      if Complete(r) && r.docker.Some? then DockerRows(id, r.docker.value) else [])
  }

  /** The rows a report leaves in each table. */
  lemma RowsPerTable(id: real, r: Report, k: Table)
    ensures Homed(InsertedRows(id, r), k) == Stored(id, r).Of(k)
  {
    var s := Stored(id, r);
    HomedThree(s.server, s.cpu, s.docker, k);
    InsertedIsStored(id, r);
  }

  /** How many of a section's n rows are inserted after those of the sections before it. */
  function Fit(failing: Option<nat>, before: nat, n: nat): nat {
    if failing.None? then n else Clamp(failing.value - before, n)
  }

  /** What is inserted of these rows when an insert fails. */
  function CutOff(s: Tables, failing: Option<nat>): Tables {
    Tables(s.server[..Fit(failing, 0, |s.server|)],
           s.cpu[..Fit(failing, |s.server|, |s.cpu|)],
           s.docker[..Fit(failing, |s.server| + |s.cpu|, |s.docker|)])
  }

  function StoredWith(id: real, r: Report, failing: Option<nat>): Tables {
    CutOff(Stored(id, r), failing)
  }

  lemma PrefixOfTwo(a: seq<Row>, b: seq<Row>, n: nat)
    requires n <= |a| + |b|
    ensures (a + b)[..n] == a[..Clamp(n, |a|)] + b[..Clamp(n - |a|, |b|)]
  {
  }

  lemma PrefixOfThree(a: seq<Row>, b: seq<Row>, c: seq<Row>, n: nat)
    requires n <= |a| + |b| + |c|
    ensures (a + b + c)[..n] ==
            a[..Clamp(n, |a|)] + b[..Clamp(n - |a|, |b|)] + c[..Clamp(n - |a| - |b|, |c|)]
  {
    PrefixOfTwo(a + b, c, n);
    PrefixOfTwo(a, b, Clamp(n, |a| + |b|));
  }

  lemma RowsWithFailure(id: real, r: Report, failing: Option<nat>)
    requires Machine(Object(r)) == Some(id)
    ensures var s := StoredWith(id, r, failing);
            PlanWith(Object(r), failing) == Replace(id, s.server + s.cpu + s.docker)
  {
    InsertedIsStored(id, r);
    CutOffRows(Stored(id, r), failing);
  }

  lemma InsertedIsStored(id: real, r: Report)
    ensures var s := Stored(id, r); InsertedRows(id, r) == s.server + s.cpu + s.docker
  {
  }

  lemma CutOffRows(s: Tables, failing: Option<nat>)
    ensures var c, all := CutOff(s, failing), s.server + s.cpu + s.docker;
            c.server + c.cpu + c.docker ==
            if failing.Some? && failing.value < |all| then all[..failing.value] else all
  {
    if failing.Some? && failing.value < |s.server + s.cpu + s.docker| {
      PrefixOfThree(s.server, s.cpu, s.docker, failing.value);
    } else {
      assert CutOff(s, failing) == s;
    }
  }

  /** The rows a report leaves in each table, a failing insert included. */
  lemma RowsPerTableWith(id: real, r: Report, failing: Option<nat>, k: Table)
    requires Machine(Object(r)) == Some(id)
    ensures var p := PlanWith(Object(r), failing);
            p.Replace? && p.id == id && Homed(p.rows, k) == StoredWith(id, r, failing).Of(k)
  {
    var s := StoredWith(id, r, failing);
    RowsWithFailure(id, r, failing);
    HomedThree(s.server, s.cpu, s.docker, k);
  }

  lemma {:induction false} HomedLengths(rows: seq<Row>)
    ensures |Homed(rows, ServerInfo)| + |Homed(rows, CpuInfo)| + |Homed(rows, DockerInfo)| == |rows|
  {
    if rows == [] {
    } else {
      HomedLengths(rows[..|rows| - 1]);
    }
  }

  /** Every table holds the whole report. */
  ghost predicate HoldsAll(t: Tables, id: real, r: Report) {
    forall k: Table :: Only(t.Of(k), id) == Stored(id, r).Of(k)
  }

  lemma FailureIsVisible(body: Body, failing: Option<nat>, t: Tables)
    requires FailsIn(body, failing)
    ensures !HoldsAll(Run(Executed(body, failing), t), PlanOf(body).id, body.report)
  {
    var p, now := PlanOf(body), Run(Executed(body, failing), t);
    HomedLengths(p.rows);
    HomedLengths(p.rows[..failing.value]);
    if HoldsAll(now, p.id, body.report) {
      forall k: Table ensures |Homed(p.rows, k)| == |Homed(p.rows[..failing.value], k)| {
        FailedInsert(body, failing, t, k, p.id);
        RowsPerTable(p.id, body.report, k);
      }
    }
  }

  lemma SuccessIsWhole(body: Body, t: Tables)
    requires OutcomeOf(body).Returned? && !body.SyntaxError?
    ensures Machine(body).Some? && OutcomeOf(body) == Returned(Machine(body).value) && Complete(body.report)
    ensures HoldsAll(Run(Statements(body), t), Machine(body).value, body.report)
  {
    var id := Machine(body).value;
    forall k: Table ensures Only(Run(Statements(body), t).Of(k), id) == Stored(id, body.report).Of(k) {
      WholeReport(PlanOf(body), t, k, id);
      RowsPerTable(id, body.report, k);
    }
  }

  /** A returned id means a report stored whole exactly when the body is JSON and no insert fails. */
  lemma ReturnedMeansStoredIff(body: Body, failing: Option<nat>, t: Tables)
    ensures (OutcomeWith(body, failing).Returned? ==>
               && Machine(body) == Some(OutcomeWith(body, failing).macId) && Complete(body.report)
               && HoldsAll(Run(Executed(body, failing), t), Machine(body).value, body.report)) <==>
            !body.SyntaxError? && !FailsIn(body, failing)
  {
    if FailsIn(body, failing) {
      FailureIsVisible(body, failing, t);
    } else if OutcomeOf(body).Returned? && !body.SyntaxError? {
      SuccessIsWhole(body, t);
    }
  }

  // ----- sequences of completed reports

  function RunPlans(plans: seq<Plan>, t: Tables): Tables {
    if plans == [] then t
    else Run(Program(plans[|plans| - 1]), RunPlans(plans[..|plans| - 1], t))
  }

  /** The rows of the last report that names the machine. */
  function LastFor(plans: seq<Plan>, id: real): Option<seq<Row>> {
    if plans == [] then None
    else
      var last := plans[|plans| - 1];
      if last.Replace? && last.id == id then Some(last.rows) else LastFor(plans[..|plans| - 1], id)
  }

  /** Last writer wins: a machine's rows are those of its last report, and untouched if it sent none. */
  lemma {:induction false} LastWriterWins(plans: seq<Plan>, t: Tables, k: Table, id: real)
    ensures Only(RunPlans(plans, t).Of(k), id) ==
            match LastFor(plans, id)
            case None => Only(t.Of(k), id)
            case Some(rows) => Homed(rows, k)
  {
    if plans == [] {
    } else {
      var front, last := plans[..|plans| - 1], plans[|plans| - 1];
      LastWriterWins(front, t, k, id);
      WholeReport(last, RunPlans(front, t), k, id);
    }
  }

  /** Sending a report again, even after reports of other machines, changes no table. */
  lemma RepeatIsNoOp(plans: seq<Plan>, again: Plan, t: Tables)
    requires again.Replace? ==> LastFor(plans, again.id) == Some(again.rows)
    ensures SameBags(RunPlans(plans + [again], t), RunPlans(plans, t))
  {
    assert (plans + [again])[..|plans|] == plans;
    forall k: Table, id: real
      ensures Only(RunPlans(plans + [again], t).Of(k), id) == Only(RunPlans(plans, t).Of(k), id)
    {
      LastWriterWins(plans + [again], t, k, id);
      LastWriterWins(plans, t, k, id);
    }
    BagsFromMachines(RunPlans(plans + [again], t), RunPlans(plans, t));
  }
}
