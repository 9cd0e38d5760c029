/** The three SQL tables, the statements a report turns into, and `insertData` itself. */
module ReportStore {
  import opened Wrappers
  import opened JsonReport

  datatype Table = ServerInfo | CpuInfo | DockerInfo

  /** A double column that may hold 0.0 / 0. */
  datatype Double = Finite(v: real) | NaN

  datatype Row =
    | ServerRow(id: real,
                diskAvailable: real, diskTotal: real, diskUsed: real,
                memoryAvailable: real, memoryTotal: real, memoryUsed: real,
                downloadRate: Double, uploadRate: Double, netCardNumber: int,
                location: string, timestamp: string)
    | CpuRow(id: real, cpuUsed: real, cpuMhz: real, cpuCores: int, cpuId: int)
    | DockerRow(id: real, cpuUsage: real, memoryInUse: real, memoryUsage: real, memoryLimit: real, dockerId: string)
  {
    function Home(): Table {
      match this
      case ServerRow(_, _, _, _, _, _, _, _, _, _, _, _) => ServerInfo
      case CpuRow(_, _, _, _, _) => CpuInfo
      case DockerRow(_, _, _, _, _, _) => DockerInfo
    }
  }

  /** One auto-committed SQL statement. */
  datatype Stmt = Delete(table: Table, key: real) | Insert(row: Row)
  {
    function Target(): Table { if Delete? then table else row.Home() }

    function Id(): real { if Delete? then key else row.id }
  }

  /** The rows of each table in insertion order; SQL promises them only as bags. */
  datatype Tables = Tables(server: seq<Row>, cpu: seq<Row>, docker: seq<Row>)
  {
    function Of(k: Table): seq<Row> {
      match k
      case ServerInfo => server
      case CpuInfo => cpu
      case DockerInfo => docker
    }
  }

  // ----- selecting rows and statements by machine id

  function Only(rows: seq<Row>, id: real): seq<Row> {
    if rows == [] then []
    else
      var front, last := Only(rows[..|rows| - 1], id), rows[|rows| - 1];
      if last.id == id then front + [last] else front
  }

  function Without(rows: seq<Row>, id: real): seq<Row> {
    if rows == [] then []
    else
      var front, last := Without(rows[..|rows| - 1], id), rows[|rows| - 1];
      if last.id == id then front else front + [last]
  }

  function OnlyStmts(trace: seq<Stmt>, id: real): seq<Stmt> {
    if trace == [] then []
    else
      var front, last := OnlyStmts(trace[..|trace| - 1], id), trace[|trace| - 1];
      if last.Id() == id then front + [last] else front
  }

  function Homed(rows: seq<Row>, k: Table): seq<Row> {
    if rows == [] then []
    else
      var front, last := Homed(rows[..|rows| - 1], k), rows[|rows| - 1];
      if last.Home() == k then front + [last] else front
  }

  // ----- the meaning of statements

  function ApplyTo(s: Stmt, k: Table, rows: seq<Row>): seq<Row> {
    if s.Target() != k then rows
    else if s.Delete? then Without(rows, s.key)
    else rows + [s.row]
  }

  function Apply(s: Stmt, t: Tables): Tables {
    Tables(ApplyTo(s, ServerInfo, t.server), ApplyTo(s, CpuInfo, t.cpu), ApplyTo(s, DockerInfo, t.docker))
  }

  function RunOn(trace: seq<Stmt>, k: Table, rows: seq<Row>): seq<Row> {
    if trace == [] then rows
    else ApplyTo(trace[|trace| - 1], k, RunOn(trace[..|trace| - 1], k, rows))
  }

  function Run(trace: seq<Stmt>, t: Tables): Tables {
    if trace == [] then t
    else Apply(trace[|trace| - 1], Run(trace[..|trace| - 1], t))
  }

  // ----- the statements of one report

  function Average(xs: seq<real>): Double {
    if |xs| == 0 then NaN else Finite(Sum(xs) / |xs| as real)
  }

  /** The average times the count is the sum; without elements it is 0.0 / 0. */
  lemma AverageIs(xs: seq<real>)
    ensures Average(xs) == NaN <==> xs == []
    ensures Average(xs).Finite? ==> Average(xs).v * |xs| as real == Sum(xs)
  {
  }

  /** The members that `insertData` fetches unconditionally after its deletes. */
  predicate HasSections(r: Report) {
    r.cpu.Some? && r.memory.Some? && r.disk.Some? && r.network.Some? && r.location.Some? && r.timestamp.Some?
  }

  function Min(a: nat, b: nat): nat { if a < b then a else b }

  /** How many iterations of the serverinfo loop reach their insert. */
  function ServerCount(r: Report): nat
    requires HasSections(r)
  {
    Min(|r.memory.value|, Min(|r.disk.value|, Min(|r.location.value|, |r.timestamp.value|)))
  }

  /** Row i is inserted exactly when all four arrays reach it. */
  lemma ServerCountIs(r: Report, i: nat)
    requires HasSections(r)
    ensures i < ServerCount(r) <==>
            i < |r.memory.value| && i < |r.disk.value| && i < |r.location.value| && i < |r.timestamp.value|
  {
  }

  function ServerRowAt(id: real, r: Report, i: nat): Row
    requires HasSections(r) && i < ServerCount(r)
  {
    var disk, memory, cards := r.disk.value[i], r.memory.value[i], r.network.value;
    ServerRow(id, disk.available, disk.total, disk.used, memory.available, memory.total, memory.used,
              Average(Downloads(cards)), Average(Uploads(cards)), |cards|, r.location.value[i], r.timestamp.value[i])
  }

  function CpuRowOf(id: real, c: Cpu): Row {
    CpuRow(id, c.source, c.mhz, Truncate(c.cores), c.id)
  }

  function DockerRowOf(id: real, d: Docker): Row {
    DockerRow(id, d.cpu, d.memory, d.memoryUsage, d.memoryLimit, d.id)
  }

  function ServerRows(id: real, r: Report): seq<Row>
    requires HasSections(r)
  {
    seq(ServerCount(r), i requires 0 <= i < ServerCount(r) => ServerRowAt(id, r, i))
  }

  function CpuRows(id: real, cpus: seq<Cpu>): seq<Row> {
    seq(|cpus|, i requires 0 <= i < |cpus| => CpuRowOf(id, cpus[i]))
  }

  function DockerRows(id: real, dockers: seq<Docker>): seq<Row> {
    seq(|dockers|, i requires 0 <= i < |dockers| => DockerRowOf(id, dockers[i]))
  }

  /** Every loop ran to its end: no section is missing and no array is shorter than "memory info". */
  predicate Complete(r: Report) {
    HasSections(r) && ServerCount(r) == |r.memory.value|
  }

  function InsertedRows(id: real, r: Report): seq<Row> {
    if !HasSections(r) then []
    else if !Complete(r) then ServerRows(id, r)
    else ServerRows(id, r) + CpuRows(id, r.cpu.value) + if r.docker.Some? then DockerRows(id, r.docker.value) else []
  }

  function Inserts(rows: seq<Row>): seq<Stmt> {
    seq(|rows|, i requires 0 <= i < |rows| => Insert(rows[i]))
  }

  function Deletes(id: real): seq<Stmt> {
    [Delete(ServerInfo, id), Delete(DockerInfo, id), Delete(CpuInfo, id)]
  }

  /** The machine id whose rows the body replaces, if `insertData` gets as far as its deletes. */
  function Machine(body: Body): Option<real> {
    if body.Object? && body.report.mac.Some? && |body.report.mac.value| > 0 then Some(body.report.mac.value[0])
    else None
  }

  /** The first address names the machine. Without one, as for a body that is no JSON or no object, nothing is done; of
      these only a syntax error is answered, with machine 0.0. */
  lemma MachineIsFirstAddress(r: Report, id: real, more: seq<real>, failing: Option<nat>)
    ensures r.mac == Some([id] + more) ==>
              Machine(Object(r)) == Some(id) && Executed(Object(r), failing)[..3] ==
              [Delete(ServerInfo, id), Delete(DockerInfo, id), Delete(CpuInfo, id)]
    ensures r.mac.None? || r.mac == Some([]) ==>
              Executed(Object(r), failing) == [] && OutcomeWith(Object(r), failing) == Raised
    ensures Executed(SyntaxError, failing) == [] && OutcomeWith(SyntaxError, failing) == Returned(0.0)
    ensures Executed(NotObject, failing) == [] && OutcomeWith(NotObject, failing) == Raised
  {
    if r.mac == Some([id] + more) {
      assert r.mac.value[0] == id;
    }
  }

  /** What a body does to the tables: nothing, or replace one machine's rows by rows of that machine. */
  datatype Effect = Nothing | Replace(id: real, rows: seq<Row>)

  type Plan = e: Effect | e.Replace? ==> forall i :: 0 <= i < |e.rows| ==> e.rows[i].id == e.id witness Nothing

  function PlanOf(body: Body): Plan {
    match Machine(body)
    case None => Nothing
    case Some(id) => Replace(id, InsertedRows(id, body.report))
  }

  /** The statements issued for a plan, in order: three deletes, then an insert per row. */
  function Program(p: Plan): seq<Stmt> {
    if p.Nothing? then [] else Deletes(p.id) + Inserts(p.rows)
  }

  function Statements(body: Body): seq<Stmt> {
    Program(PlanOf(body))
  }

  /** `Raised` is an unchecked exception that leaves `insertData`. */
  datatype Outcome = Returned(macId: real) | Raised

  function OutcomeOf(body: Body): Outcome {
    match body
    case SyntaxError => Returned(0.0)
    case NotObject => Raised
    case Object(r) =>
      if Machine(body).Some? && Complete(r) then Returned(Machine(body).value) else Raised
  }

  /** How a loop of inserts ends; both other ends are exceptions. */
  datatype Ending = Done | OutOfBounds | SqlFailure

  /** Insert number `failing`, counted from 0 within the report, throws before it changes its table. */
  predicate FailsIn(body: Body, failing: Option<nat>) {
    failing.Some? && PlanOf(body).Replace? && failing.value < |PlanOf(body).rows|
  }

  /** The statements that succeed. */
  function Executed(body: Body, failing: Option<nat>): seq<Stmt> {
    if FailsIn(body, failing) then Statements(body)[..3 + failing.value] else Statements(body)
  }

  /** The same as a plan: the report with the rows in front of the failing insert. */
  function PlanWith(body: Body, failing: Option<nat>): Plan {
    if FailsIn(body, failing) then Replace(PlanOf(body).id, PlanOf(body).rows[..failing.value]) else PlanOf(body)
  }

  lemma ExecutedIsProgram(body: Body, failing: Option<nat>)
    ensures Executed(body, failing) == Program(PlanWith(body, failing))
  {
    if FailsIn(body, failing) {
      var p, n := PlanOf(body), failing.value;
      assert Program(p)[..3 + n] == Deletes(p.id) + Inserts(p.rows[..n]);
    }
  }

  /** `insertData` catches the failure of an insert and returns the id all the same. */
  function OutcomeWith(body: Body, failing: Option<nat>): Outcome {
    if FailsIn(body, failing) then Returned(PlanOf(body).id) else OutcomeOf(body)
  }

  class Database {
    var serverinfo: seq<Row>
    var cpuinfo: seq<Row>
    var dockerinfo: seq<Row>

    ghost function Contents(): Tables
      reads this
    {
      Tables(serverinfo, cpuinfo, dockerinfo)
    }

    method DeleteTable(table: Table, id: real)
      modifies this
      ensures Contents() == Apply(Delete(table, id), old(Contents()))
    {
      match table
      case ServerInfo => serverinfo := Without(serverinfo, id);
      case CpuInfo => cpuinfo := Without(cpuinfo, id);
      case DockerInfo => dockerinfo := Without(dockerinfo, id);
    }

    method ExecuteInsert(row: Row)
      modifies this
      ensures Contents() == Apply(Insert(row), old(Contents()))
    {
      match row.Home()
      case ServerInfo => serverinfo := serverinfo + [row];
      case CpuInfo => cpuinfo := cpuinfo + [row];
      case DockerInfo => dockerinfo := dockerinfo + [row];
    }

    /** The loop filling serverinfo; it runs out of bounds when an array is shorter than "memory info". */
    method InsertServerInfo(id: real, r: Report, failing: Option<nat>) returns (end: Ending)
      requires HasSections(r)
      modifies this
      ensures end == if failing.Some? && failing.value < ServerCount(r) then SqlFailure
                     else if Complete(r) then Done else OutOfBounds
      ensures Contents() == Run(Inserts(ServerRows(id, r)[..if end.SqlFailure? then failing.value else ServerCount(r)]),
                                old(Contents()))
    {
      ghost var t0, rows := Contents(), ServerRows(id, r);
      var i := 0;
      while i < |r.memory.value|
        invariant 0 <= i <= ServerCount(r) <= |r.memory.value|
        invariant failing.Some? ==> i <= failing.value
        invariant Contents() == Run(Inserts(rows[..i]), t0)
      {
        if i >= |r.disk.value| || i >= |r.location.value| || i >= |r.timestamp.value| {
          return OutOfBounds;
        }
        var downloadRate, uploadRate := AverageRates(r.network.value);
        var disk, memory := r.disk.value[i], r.memory.value[i];
        var row := ServerRow(id, disk.available, disk.total, disk.used, memory.available, memory.total, memory.used,
                             downloadRate, uploadRate, |r.network.value|, r.location.value[i], r.timestamp.value[i]);
        if failing == Some(i) {
          return SqlFailure;
        }
        ExecuteInsert(row);
        RunNextInsert(rows, i, t0);
        i := i + 1;
      }
      end := Done;
    }

    /** The loop filling cpuinfo, after `done` inserts. */
    method InsertCpuInfo(id: real, cpus: seq<Cpu>, done: nat, failing: Option<nat>) returns (end: Ending)
      requires failing.Some? ==> done <= failing.value
      modifies this
      ensures end == if failing.Some? && failing.value < done + |cpus| then SqlFailure else Done
      ensures Contents() == Run(Inserts(CpuRows(id, cpus)[..if end.SqlFailure? then failing.value - done else |cpus|]),
                                old(Contents()))
    {
      ghost var t0, rows := Contents(), CpuRows(id, cpus);
      var i := 0;
      while i < |cpus|
        invariant 0 <= i <= |cpus|
        invariant failing.Some? ==> done + i <= failing.value
        invariant Contents() == Run(Inserts(rows[..i]), t0)
      {
        if failing == Some(done + i) {
          return SqlFailure;
        }
        ExecuteInsert(CpuRow(id, cpus[i].source, cpus[i].mhz, Truncate(cpus[i].cores), cpus[i].id));
        RunNextInsert(rows, i, t0);
        i := i + 1;
      }
      end := Done;
    }

    /** The loop filling dockerinfo, after `done` inserts. */
    method InsertDockerInfo(id: real, dockers: seq<Docker>, done: nat, failing: Option<nat>) returns (end: Ending)
      requires failing.Some? ==> done <= failing.value
      modifies this
      ensures end == if failing.Some? && failing.value < done + |dockers| then SqlFailure else Done
      ensures Contents() ==
              Run(Inserts(DockerRows(id, dockers)[..if end.SqlFailure? then failing.value - done else |dockers|]),
                  old(Contents()))
    {
      ghost var t0, rows := Contents(), DockerRows(id, dockers);
      var i := 0;
      while i < |dockers|
        invariant 0 <= i <= |dockers|
        invariant failing.Some? ==> done + i <= failing.value
        invariant Contents() == Run(Inserts(rows[..i]), t0)
      {
        if failing == Some(done + i) {
          return SqlFailure;
        }
        var d := dockers[i];
        ExecuteInsert(DockerRow(id, d.cpu, d.memory, d.memoryUsage, d.memoryLimit, d.id));
        RunNextInsert(rows, i, t0);
        i := i + 1;
      }
      end := Done;
    }

    /** The servlet's handling of one report, statement by statement. */
    method InsertData(body: Body, failing: Option<nat>) returns (o: Outcome)
      modifies this
      ensures o == OutcomeWith(body, failing)
      ensures Contents() == Run(Executed(body, failing), old(Contents()))
    {
      match body {
        case SyntaxError => return Returned(0.0);
        case NotObject => return Raised;
        case Object(_) =>
      }
      var r := body.report;
      if r.mac.None? || |r.mac.value| == 0 {
        return Raised;
      }
      var id := r.mac.value[0];
      ghost var t0 := Contents();
      DeleteTable(ServerInfo, id);
      DeleteTable(DockerInfo, id);
      DeleteTable(CpuInfo, id);
      RunDeletes(id, t0);
      RunExecuted(id, r, failing, t0);
      if r.cpu.None? || r.memory.None? || r.disk.None? || r.network.None? || r.location.None? || r.timestamp.None? {
        return Raised;
      }
      var end := InsertSections(id, r, failing);
      return if end.OutOfBounds? then Raised else Returned(id);
    }

    /** The three loops, each started only if the one before ran to its end. */
    method InsertSections(id: real, r: Report, failing: Option<nat>) returns (end: Ending)
      requires HasSections(r)
      modifies this
      ensures end == if failing.Some? && failing.value < |InsertedRows(id, r)| then SqlFailure
                     else if Complete(r) then Done else OutOfBounds
      ensures Contents() == Run(Inserts(InsertedRows(id, r)[..Inserted(id, r, failing)]), old(Contents()))
    {
      RunSections(id, r, Inserted(id, r, failing), Contents());
      end := InsertServerInfo(id, r, failing);
      if end.Done? {
        end := InsertCpuInfo(id, r.cpu.value, |r.memory.value|, failing);
      }
      if end.Done? && r.docker.Some? {
        end := InsertDockerInfo(id, r.docker.value, |r.memory.value| + |r.cpu.value|, failing);
      }
    }
  }

  /** The inner loop of `insertData`: both sums in one pass, then two divisions by the number of cards. */
  method AverageRates(cards: seq<Network>) returns (download: Double, upload: Double)
    ensures download == Average(Downloads(cards))
    ensures upload == Average(Uploads(cards))
  {
    var downloadRate, uploadRate := 0.0, 0.0;
    var j := 0;
    while j < |cards|
      invariant 0 <= j <= |cards|
      invariant downloadRate == Sum(Downloads(cards)[..j])
      invariant uploadRate == Sum(Uploads(cards)[..j])
    {
      assert Downloads(cards)[..j + 1][..j] == Downloads(cards)[..j];
      assert Uploads(cards)[..j + 1][..j] == Uploads(cards)[..j];
      downloadRate := downloadRate + cards[j].download;
      uploadRate := uploadRate + cards[j].upload;
      j := j + 1;
    }
    assert Downloads(cards)[..j] == Downloads(cards) && Uploads(cards)[..j] == Uploads(cards);
    download := if |cards| == 0 then NaN else Finite(downloadRate / |cards| as real);
    upload := if |cards| == 0 then NaN else Finite(uploadRate / |cards| as real);
  }

  lemma RunDeletes(id: real, t: Tables)
    ensures Run(Deletes(id), t) ==
            Apply(Delete(CpuInfo, id), Apply(Delete(DockerInfo, id), Apply(Delete(ServerInfo, id), t)))
  {
    var d := Deletes(id);
    assert d[..2][..1] == [Delete(ServerInfo, id)];
    assert Run(d[..1], t) == Apply(Delete(ServerInfo, id), t);
    assert Run(d[..2], t) == Apply(Delete(DockerInfo, id), Run(d[..1], t));
  }

  /** Running two traces one after the other is running their concatenation. */
  lemma {:induction false} RunConcat(a: seq<Stmt>, b: seq<Stmt>, t: Tables)
    ensures Run(a + b, t) == Run(b, Run(a, t))
  {
    if b == [] {
      assert a + b == a;
    } else {
      var rest := b[..|b| - 1];
      assert (a + b)[..|a + b| - 1] == a + rest;
      RunConcat(a, rest, t);
    }
  }

  lemma RunNextInsert(rows: seq<Row>, i: nat, t: Tables)
    requires i < |rows|
    ensures Run(Inserts(rows[..i + 1]), t) == Apply(Insert(rows[i]), Run(Inserts(rows[..i]), t))
  {
    assert Inserts(rows[..i + 1])[..i] == Inserts(rows[..i]);
  }

  /** How many inserts of a report succeed. */
  function Inserted(id: real, r: Report, failing: Option<nat>): nat {
    var n := |InsertedRows(id, r)|;
    if failing.Some? && failing.value < n then failing.value else n
  }

  lemma RunExecuted(id: real, r: Report, failing: Option<nat>, t: Tables)
    requires Machine(Object(r)) == Some(id)
    ensures Run(Executed(Object(r), failing), t) ==
            Run(Inserts(InsertedRows(id, r)[..Inserted(id, r, failing)]), Run(Deletes(id), t))
  {
    var rows, n := InsertedRows(id, r), Inserted(id, r, failing);
    assert Executed(Object(r), failing) == Deletes(id) + Inserts(rows[..n]);
    RunConcat(Deletes(id), Inserts(rows[..n]), t);
  }

  lemma RunMoreInserts(a: seq<Row>, b: seq<Row>, m: nat, t: Tables)
    requires m <= |b|
    ensures Run(Inserts((a + b)[..|a| + m]), t) == Run(Inserts(b[..m]), Run(Inserts(a), t))
  {
    assert Inserts((a + b)[..|a| + m]) == Inserts(a) + Inserts(b[..m]);
    RunConcat(Inserts(a), Inserts(b[..m]), t);
  }

  lemma PrefixOfFirst(a: seq<Row>, b: seq<Row>, m: nat)
    requires m <= |a|
    ensures (a + b)[..m] == a[..m]
  {
  }

  function Clamp(n: int, len: nat): nat {
    if n < 0 then 0 else if n < len then n else len
  }

  lemma ClampTwice(n: nat, a: nat, b: nat)
    ensures Clamp(Clamp(n, a + b), a) == Clamp(n, a) && Clamp(Clamp(n, a + b) - a, b) == Clamp(n - a, b)
  {
  }

  lemma RunTwoSections(a: seq<Row>, b: seq<Row>, n: nat, t: Tables)
    requires n <= |a| + |b|
    ensures Run(Inserts((a + b)[..n]), t) ==
            Run(Inserts(b[..Clamp(n - |a|, |b|)]), Run(Inserts(a[..Clamp(n, |a|)]), t))
  {
    if n <= |a| {
      PrefixOfFirst(a, b, n);
      assert Inserts(b[..0]) == [];
    } else {
      RunMoreInserts(a, b, n - |a|, t);
      assert a[..|a|] == a;
    }
  }

  /** The first n inserts of three sections, section by section. */
  lemma RunThreeSections(servers: seq<Row>, cpus: seq<Row>, dockers: seq<Row>, n: nat, t: Tables)
    requires n <= |servers| + |cpus| + |dockers|
    ensures Run(Inserts((servers + cpus + dockers)[..n]), t) ==
            Run(Inserts(dockers[..Clamp(n - |servers| - |cpus|, |dockers|)]),
                Run(Inserts(cpus[..Clamp(n - |servers|, |cpus|)]),
                    Run(Inserts(servers[..Clamp(n, |servers|)]), t)))
  {
    var m := |servers| + |cpus|;
    RunTwoSections(servers + cpus, dockers, n, t);
    RunTwoSections(servers, cpus, Clamp(n, m), t);
    ClampTwice(n, |servers|, |cpus|);
  }

  function DockersOf(id: real, r: Report): seq<Row> {
    if r.docker.Some? then DockerRows(id, r.docker.value) else []
  }

  lemma RunSections(id: real, r: Report, n: nat, t: Tables)
    requires HasSections(r) && n <= |InsertedRows(id, r)|
    ensures |InsertedRows(id, r)| ==
            ServerCount(r) + if Complete(r) then |r.cpu.value| + |DockersOf(id, r)| else 0
    ensures Run(Inserts(InsertedRows(id, r)[..n]), t) ==
            Run(Inserts(DockersOf(id, r)[..Clamp(n - ServerCount(r) - |r.cpu.value|, |DockersOf(id, r)|)]),
                Run(Inserts(CpuRows(id, r.cpu.value)[..Clamp(n - ServerCount(r), |r.cpu.value|)]),
                    Run(Inserts(ServerRows(id, r)[..Clamp(n, ServerCount(r))]), t)))
  {
    var servers, cpus, dockers := ServerRows(id, r), CpuRows(id, r.cpu.value), DockersOf(id, r);
    if Complete(r) {
      assert InsertedRows(id, r) == servers + cpus + dockers;
      RunThreeSections(servers, cpus, dockers, n, t);
    } else {
      assert Inserts(cpus[..0]) == [] && Inserts(dockers[..0]) == [];
    }
  }

  /** The statements of a report that names a machine, section by section. */
  lemma RunStatements(id: real, r: Report, t: Tables)
    requires Machine(Object(r)) == Some(id)
    ensures var t1 := Run(Deletes(id), t);
            Run(Statements(Object(r)), t) ==
            if !HasSections(r) then t1
            else
              var t2 := Run(Inserts(ServerRows(id, r)), t1);
              if !Complete(r) then t2
              else
                var t3 := Run(Inserts(CpuRows(id, r.cpu.value)), t2);
                if r.docker.None? then t3 else Run(Inserts(DockerRows(id, r.docker.value)), t3)
  {
    RunConcat(Deletes(id), Inserts(InsertedRows(id, r)), t);
    if Complete(r) {
      RunAllSections(ServerRows(id, r), CpuRows(id, r.cpu.value), DockersOf(id, r), Run(Deletes(id), t));
    }
  }

  lemma RunBoth(a: seq<Row>, b: seq<Row>, t: Tables)
    ensures Run(Inserts(a + b), t) == Run(Inserts(b), Run(Inserts(a), t))
  {
    assert Inserts(a + b) == Inserts(a) + Inserts(b);
    RunConcat(Inserts(a), Inserts(b), t);
  }

  lemma RunAllSections(servers: seq<Row>, cpus: seq<Row>, dockers: seq<Row>, t: Tables)
    ensures Run(Inserts(servers + cpus + dockers), t) ==
            var t3 := Run(Inserts(cpus), Run(Inserts(servers), t));
            if dockers == [] then t3 else Run(Inserts(dockers), t3)
  {
    RunBoth(servers + cpus, dockers, t);
    RunBoth(servers, cpus, t);
  }
}
