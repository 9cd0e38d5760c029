/** The agent's side of a report: readings in parallel vectors turned into JSON records. */
module SampleAssembly {
  import opened Wrappers
  import opened JsonReport
  import opened ReportStore
  import opened Tokens

  datatype Readings = Readings(
    cpuSourceAvailable: seq<real>, cpuMHz: seq<real>, cpuCores: seq<real>,
    memoryTotal: seq<real>, memoryAvailable: seq<real>,
    diskTotal: seq<real>, diskAvailable: seq<real>,
    ethFirst: seq<real>, ethSecond: seq<real>,
    dockerIds: seq<string>, dockerCpu: seq<real>,
    dockerMemoryUsage: seq<real>, dockerMemoryLimit: seq<real>, dockerMemory: seq<real>,
    macAddressId: seq<real>, location: seq<string>, timestamp: seq<string>)

  /** What the unchecked indexing and the two divisions of `data_to_json` need. */
  predicate Usable(v: Readings) {
    && |v.cpuMHz| <= |v.cpuSourceAvailable| && |v.cpuMHz| <= |v.cpuCores|
    && |v.dockerIds| <= |v.dockerCpu| && |v.dockerIds| <= |v.dockerMemoryUsage|
    && |v.dockerIds| <= |v.dockerMemoryLimit| && |v.dockerIds| <= |v.dockerMemory|
    && |v.memoryTotal| > 0 && |v.memoryAvailable| > 0 && v.memoryTotal[0] != 0.0
    && |v.diskTotal| <= |v.diskAvailable| && Sum(v.diskTotal) != 0.0
    && |v.ethFirst| % 2 == 0 && |v.ethFirst| <= |v.ethSecond|
    && |v.macAddressId| > 0 && |v.location| > 0 && |v.timestamp| > 0
  }

  /** `root[key].append(x)`: the member comes into being with its first element. */
  function Append<T>(member: Option<seq<T>>, x: T): Option<seq<T>> {
    if member.None? then Some([x]) else Some(member.value + [x])
  }

  /** A member that exists only if something was appended to it. */
  function Section<T>(xs: seq<T>): Option<seq<T>> {
    if xs == [] then None else Some(xs)
  }

  lemma AppendToSection<T>(xs: seq<T>, i: nat)
    requires i < |xs|
    ensures Append(Section(xs[..i]), xs[i]) == Section(xs[..i + 1])
  {
    assert xs[..i + 1] == xs[..i] + [xs[i]];
    assert i == 0 ==> xs[..1] == [xs[0]];
  }

  function Cpus(v: Readings): seq<Cpu>
    requires Usable(v)
  {
    seq(|v.cpuMHz|, i requires 0 <= i < |v.cpuMHz| => Cpu(i, v.cpuSourceAvailable[i], v.cpuMHz[i], v.cpuCores[i]))
  }

  function Dockers(v: Readings): seq<Docker>
    requires Usable(v)
  {
    seq(|v.dockerIds|, i requires 0 <= i < |v.dockerIds| =>
      Docker(v.dockerIds[i], v.dockerCpu[i], v.dockerMemoryUsage[i], v.dockerMemoryLimit[i], v.dockerMemory[i]))
  }

  /** Card c owns counters 2c (upload) and 2c + 1 (download). */
  function Cards(v: Readings): seq<Network>
    requires Usable(v)
  {
    seq(|v.ethFirst| / 2, c requires 0 <= c < |v.ethFirst| / 2 =>
      Network(c, (v.ethSecond[2 * c] - v.ethFirst[2 * c]) / 1024.0,
              (v.ethSecond[2 * c + 1] - v.ethFirst[2 * c + 1]) / 1024.0))
  }

  function UsedOf(available: real, total: real): Capacity
    requires total != 0.0
  {
    Capacity(available, total, 1.0 - available / total)
  }

  /** The sample's JSON object: members whose loop never ran are absent. */
  function Assembled(v: Readings): Report
    requires Usable(v)
  {
    Report(Some([v.macAddressId[0]]), Section(Cpus(v)),
           Some([UsedOf(v.memoryAvailable[0], v.memoryTotal[0])]),
           Some([UsedOf(Sum(v.diskAvailable[..|v.diskTotal|]), Sum(v.diskTotal))]),
           Section(Cards(v)), Section(Dockers(v)), Some([v.location[0]]), Some([v.timestamp[0]]))
  }

  method DataToJson(v: Readings) returns (root: Report)
    requires Usable(v)
    ensures root == Assembled(v)
  {
    root := Report(None, None, None, None, None, None, None, None);
    for i := 0 to |v.cpuMHz|
      invariant root == Report(None, Section(Cpus(v)[..i]), None, None, None, None, None, None)
    {
      AppendToSection(Cpus(v), i);
      root := root.(cpu := Append(root.cpu, Cpu(i, v.cpuSourceAvailable[i], v.cpuMHz[i], v.cpuCores[i])));
    }
    assert Cpus(v)[..|v.cpuMHz|] == Cpus(v);
    for i := 0 to |v.dockerIds|
      invariant root == Report(None, Section(Cpus(v)), None, None, None, Section(Dockers(v)[..i]), None, None)
    {
      AppendToSection(Dockers(v), i);
      var docker := Docker(v.dockerIds[i], v.dockerCpu[i], v.dockerMemoryUsage[i], v.dockerMemoryLimit[i],
                           v.dockerMemory[i]);
      root := root.(docker := Append(root.docker, docker));
    }
    assert Dockers(v)[..|v.dockerIds|] == Dockers(v);
    var memory := Capacity(v.memoryAvailable[0], v.memoryTotal[0], 1.0 - v.memoryAvailable[0] / v.memoryTotal[0]);
    root := root.(memory := Append(root.memory, memory));

    var diskTotal, diskAvailable := DiskTotals(v);
    root := root.(disk := Append(root.disk, Capacity(diskAvailable, diskTotal, 1.0 - diskAvailable / diskTotal)));

    var network := NetworkInfo(v);
    root := root.(network := network);

    root := root.(mac := Append(root.mac, v.macAddressId[0]));
    root := root.(location := Append(root.location, v.location[0]));
    root := root.(timestamp := Append(root.timestamp, v.timestamp[0]));
  }

  method DiskTotals(v: Readings) returns (total: real, available: real)
    requires Usable(v)
    ensures total == Sum(v.diskTotal) && available == Sum(v.diskAvailable[..|v.diskTotal|])
  {
    total, available := 0.0, 0.0;
    for i := 0 to |v.diskTotal|
      invariant total == Sum(v.diskTotal[..i]) && available == Sum(v.diskAvailable[..i])
    {
      assert v.diskTotal[..i + 1][..i] == v.diskTotal[..i];
      assert v.diskAvailable[..i + 1][..i] == v.diskAvailable[..i];
      total := total + v.diskTotal[i];
      available := available + v.diskAvailable[i];
    }
    assert v.diskTotal[..|v.diskTotal|] == v.diskTotal;
  }

  /** The counter loop advances by two and numbers cards by an integer division. */
  method NetworkInfo(v: Readings) returns (network: Option<seq<Network>>)
    requires Usable(v)
    ensures network == Section(Cards(v))
    ensures network.None? <==> |v.ethFirst| == 0
    ensures network.Some? ==> |network.value| == |v.ethFirst| / 2
    ensures network.Some? ==> forall c :: 0 <= c < |network.value| ==>
              && network.value[c].id == c
              && network.value[c].upload == (v.ethSecond[2 * c] - v.ethFirst[2 * c]) / 1024.0
              && network.value[c].download == (v.ethSecond[2 * c + 1] - v.ethFirst[2 * c + 1]) / 1024.0
  {
    network := None;
    var i := 0;
    while i < |v.ethFirst|
      invariant 0 <= i <= |v.ethFirst| && i % 2 == 0
      invariant network == Section(Cards(v)[..i / 2])
    {
      var card := Network((i + 1) / 2, (v.ethSecond[i] - v.ethFirst[i]) / 1024.0,
                          (v.ethSecond[i + 1] - v.ethFirst[i + 1]) / 1024.0);
      assert (i + 1) / 2 == i / 2 && 2 * (i / 2) == i;
      AppendToSection(Cards(v), i / 2);
      network := Append(network, card);
      i := i + 2;
    }
    assert Cards(v)[..|v.ethFirst| / 2] == Cards(v);
  }

  /** Cards are numbered from 0 without gaps, and disk and memory are used as far as they are not available. */
  lemma AssembledIs(v: Readings)
    requires Usable(v)
    ensures var network := Assembled(v).network;
            && (network.None? <==> |v.ethFirst| == 0)
            && (network.Some? ==>
                && |network.value| == |v.ethFirst| / 2
                && forall c :: 0 <= c < |network.value| ==> network.value[c].id == c)
    ensures Assembled(v).memory.Some? && |Assembled(v).memory.value| == 1
    ensures Assembled(v).disk.Some? && |Assembled(v).disk.value| == 1
    ensures var memory := Assembled(v).memory.value[0];
            && memory.available == v.memoryAvailable[0] && memory.total == v.memoryTotal[0]
            && memory.used * memory.total == memory.total - memory.available
    ensures var disk := Assembled(v).disk.value[0];
            && disk.available == Sum(v.diskAvailable[..|v.diskTotal|]) && disk.total == Sum(v.diskTotal)
            && disk.used * disk.total == disk.total - disk.available
  {
    UsedIsTheRest(v.memoryAvailable[0], v.memoryTotal[0]);
    UsedIsTheRest(Sum(v.diskAvailable[..|v.diskTotal|]), Sum(v.diskTotal));
  }

  lemma UsedIsTheRest(available: real, total: real)
    requires total != 0.0
    ensures UsedOf(available, total).used * total == total - available
  {
    assert available / total * total == available;
  }

  // ----- through both programs

  /** Every other counter, starting at the given one. */
  function Alternate(xs: seq<real>, start: nat, n: nat): real
    requires start < 2 && 2 * n <= |xs|
  {
    if n == 0 then 0.0 else Alternate(xs, start, n - 1) + xs[2 * (n - 1) + start]
  }

  lemma {:induction false} SumOfDifferences(v: Readings, n: nat)
    requires Usable(v) && 2 * n <= |v.ethFirst|
    ensures Sum(Uploads(Cards(v))[..n]) == (Alternate(v.ethSecond, 0, n) - Alternate(v.ethFirst, 0, n)) / 1024.0
    ensures Sum(Downloads(Cards(v))[..n]) == (Alternate(v.ethSecond, 1, n) - Alternate(v.ethFirst, 1, n)) / 1024.0
  {
    if n == 0 {
    } else {
      SumOfDifferences(v, n - 1);
      var ups, downs := Uploads(Cards(v)), Downloads(Cards(v));
      assert ups[..n][..n - 1] == ups[..n - 1] && downs[..n][..n - 1] == downs[..n - 1];
    }
  }

  /** The server's row for a sample, in terms of the readings alone. */
  function StoredRow(v: Readings): Row
    requires Usable(v) && |v.ethFirst| > 0
  {
    var cards := |v.ethFirst| / 2;
    var total, available := Sum(v.diskTotal), Sum(v.diskAvailable[..|v.diskTotal|]);
    ServerRow(v.macAddressId[0], available, total, 1.0 - available / total,
              v.memoryAvailable[0], v.memoryTotal[0], 1.0 - v.memoryAvailable[0] / v.memoryTotal[0],
              Finite((Alternate(v.ethSecond, 1, cards) - Alternate(v.ethFirst, 1, cards)) / (1024 * cards) as real),
              Finite((Alternate(v.ethSecond, 0, cards) - Alternate(v.ethFirst, 0, cards)) / (1024 * cards) as real),
              cards, v.location[0], v.timestamp[0])
  }

  lemma DivideTwice(x: real, n: nat)
    requires n > 0
    ensures x / 1024.0 / n as real == x / (1024 * n) as real
  {
  }

  lemma AveragesOfCards(v: Readings)
    requires Usable(v) && |v.ethFirst| > 0
    ensures Average(Downloads(Cards(v))) == StoredRow(v).downloadRate
    ensures Average(Uploads(Cards(v))) == StoredRow(v).uploadRate
  {
    var cards := |v.ethFirst| / 2;
    SumOfDifferences(v, cards);
    assert Downloads(Cards(v))[..cards] == Downloads(Cards(v)) && Uploads(Cards(v))[..cards] == Uploads(Cards(v));
    DivideTwice(Alternate(v.ethSecond, 1, cards) - Alternate(v.ethFirst, 1, cards), cards);
    DivideTwice(Alternate(v.ethSecond, 0, cards) - Alternate(v.ethFirst, 0, cards), cards);
  }

  /** A sample of a machine with at least one cpu and one network card is stored whole: one serverinfo row with
      exactly these columns, one cpuinfo row per cpu, one dockerinfo row per container. Without a cpu or without a
      card the servlet deletes the machine's rows, stores nothing and fails. */
  lemma SampleStored(v: Readings)
    requires Usable(v)
    ensures var id, root := v.macAddressId[0], Assembled(v);
            && Machine(Object(root)) == Some(id)
            && (Complete(root) <==> |v.cpuMHz| > 0 && |v.ethFirst| > 0)
            && (Complete(root) <==> OutcomeOf(Object(root)) == Returned(id))
            && InsertedRows(id, root) ==
               if |v.cpuMHz| > 0 && |v.ethFirst| > 0
               then [StoredRow(v)] + CpuRows(id, Cpus(v)) + DockerRows(id, Dockers(v)) else []
    ensures |Cpus(v)| == |v.cpuMHz| && forall i :: 0 <= i < |v.cpuMHz| ==>
              CpuRows(v.macAddressId[0], Cpus(v))[i] ==
              CpuRow(v.macAddressId[0], v.cpuSourceAvailable[i], v.cpuMHz[i], Truncate(v.cpuCores[i]), i)
    ensures |Dockers(v)| == |v.dockerIds| && forall i :: 0 <= i < |v.dockerIds| ==>
              DockerRows(v.macAddressId[0], Dockers(v))[i] ==
              DockerRow(v.macAddressId[0], v.dockerCpu[i], v.dockerMemory[i], v.dockerMemoryUsage[i],
                        v.dockerMemoryLimit[i], v.dockerIds[i])
  {
    var id, root := v.macAddressId[0], Assembled(v);
    if Complete(root) {
      AveragesOfCards(v);
      assert ServerRows(id, root) == [StoredRow(v)];
      assert root.docker.None? ==> DockerRows(id, Dockers(v)) == [];
    }
  }

  /** A reading of n whole cores is stored as n. */
  lemma WholeCoresStored(v: Readings, i: nat, n: int)
    requires Usable(v) && i < |v.cpuMHz| && v.cpuCores[i] == n as real
    ensures |CpuRows(v.macAddressId[0], Cpus(v))| == |v.cpuMHz|
    ensures CpuRows(v.macAddressId[0], Cpus(v))[i] ==
            CpuRow(v.macAddressId[0], v.cpuSourceAvailable[i], v.cpuMHz[i], n, i)
  {
    TruncateIs(n as real);
  }

  lemma {:induction false} SumWithin(available: seq<real>, total: seq<real>)
    requires |available| == |total| && forall i :: 0 <= i < |total| ==> 0.0 <= available[i] <= total[i]
    ensures 0.0 <= Sum(available) <= Sum(total)
  {
    if total == [] {
    } else {
      SumWithin(available[..|total| - 1], total[..|total| - 1]);
    }
  }

  lemma Quotient(a: real, b: real)
    requires 0.0 <= a <= b && b > 0.0
    ensures 0.0 <= a / b <= 1.0
  {
  }

  /** The used fraction of the disks is a fraction. */
  lemma DiskUsedIsFraction(v: Readings)
    requires Usable(v) && Sum(v.diskTotal) > 0.0
    requires forall i :: 0 <= i < |v.diskTotal| ==> 0.0 <= v.diskAvailable[i] <= v.diskTotal[i]
    ensures 0.0 <= Assembled(v).disk.value[0].used <= 1.0
  {
    var available := v.diskAvailable[..|v.diskTotal|];
    SumWithin(available, v.diskTotal);
    Quotient(Sum(available), Sum(v.diskTotal));
  }

  // ----- lines of `docker stats`

  /** The columns the loop reads: seven tokens, and a unit letter third from the end of columns 3 and 5. */
  predicate IsDockerLine(line: string) {
    var s := Split(line, " ");
    '\0' !in line && |s| >= 7 && |s[3]| >= 3 && |s[5]| >= 3
  }

  function UnitScale(amount: string): real
    requires |amount| >= 3
  {
    var unit := amount[|amount| - 3];
    if unit == 'M' then 1024.0 else if unit == 'G' then 1024.0 * 1024.0 else 1.0
  }

  /** One container per line. Sizes in KiB, MiB or GiB come out in KiB; any other unit is not scaled. */
  function LineDocker(line: string, atof: string -> real): Docker
    requires IsDockerLine(line)
  {
    var s := Split(line, " ");
    Docker(s[0], atof(s[2]), atof(s[3]) * UnitScale(s[3]), atof(s[5]) * UnitScale(s[5]), atof(s[6]))
  }

  /** A line rendered from columns is read back column by column, whatever the gaps of spaces. */
  lemma DockerLineColumns(gaps: seq<string>, s: seq<string>, tail: string, atof: string -> real)
    requires |gaps| == |s| && IsSeparator(tail, " ") && '\0' !in Render(gaps, s, tail)
    requires forall i :: 0 <= i < |s| ==> IsToken(s[i], " ") && IsSeparator(gaps[i], " ")
    requires forall i :: 0 < i < |gaps| ==> gaps[i] != []
    requires |s| >= 7 && |s[3]| >= 3 && |s[5]| >= 3
    ensures IsDockerLine(Render(gaps, s, tail))
    ensures LineDocker(Render(gaps, s, tail), atof) ==
            Docker(s[0], atof(s[2]), atof(s[3]) * UnitScale(s[3]), atof(s[5]) * UnitScale(s[5]), atof(s[6]))
  {
    SplitOfRender(gaps, s, tail, " ");
  }

  lemma ScaleOf(n: string)
    ensures UnitScale(n + "MiB") == 1024.0 && UnitScale(n + "GiB") == 1048576.0 && UnitScale(n + "KiB") == 1.0
    ensures |n| >= 2 && 'M' !in n && 'G' !in n ==> UnitScale(n + "B") == 1.0
  {
    if |n| >= 2 {
      assert (n + "B")[|n| - 2] in n;
    }
  }

  /** In a rendered line MiB and GiB are scaled to KiB in both size columns; KiB and plain bytes are left alone. */
  lemma DockerLineSizes(
    gaps: seq<string>, s: seq<string>, tail: string, atof: string -> real, used: string, limit: string)
    requires |gaps| == |s| && IsSeparator(tail, " ") && '\0' !in Render(gaps, s, tail)
    requires forall i :: 0 <= i < |s| ==> IsToken(s[i], " ") && IsSeparator(gaps[i], " ")
    requires forall i :: 0 < i < |gaps| ==> gaps[i] != []
    requires |s| >= 7 && |s[3]| >= 3 && |s[5]| >= 3
    ensures IsDockerLine(Render(gaps, s, tail))
    ensures var d := LineDocker(Render(gaps, s, tail), atof);
            && (s[3] == used + "MiB" ==> d.memoryUsage == atof(s[3]) * 1024.0)
            && (s[3] == used + "GiB" ==> d.memoryUsage == atof(s[3]) * 1048576.0)
            && (s[3] == used + "KiB" ==> d.memoryUsage == atof(s[3]))
            && (s[3] == used + "B" && 'M' !in used && 'G' !in used ==> d.memoryUsage == atof(s[3]))
            && (s[5] == limit + "MiB" ==> d.memoryLimit == atof(s[5]) * 1024.0)
            && (s[5] == limit + "GiB" ==> d.memoryLimit == atof(s[5]) * 1048576.0)
            && (s[5] == limit + "KiB" ==> d.memoryLimit == atof(s[5]))
            && (s[5] == limit + "B" && 'M' !in limit && 'G' !in limit ==> d.memoryLimit == atof(s[5]))
  {
    DockerLineColumns(gaps, s, tail, atof);
    ScaleOf(used);
    ScaleOf(limit);
  }

  method ReadDockerLines(lines: seq<string>, atof: string -> real, v: Readings) returns (w: Readings)
    requires forall i :: 0 <= i < |lines| ==> IsDockerLine(lines[i])
    requires Usable(v)
    ensures Usable(w)
    ensures w == v.(dockerIds := w.dockerIds, dockerCpu := w.dockerCpu, dockerMemoryUsage := w.dockerMemoryUsage,
                    dockerMemoryLimit := w.dockerMemoryLimit, dockerMemory := w.dockerMemory)
    ensures Dockers(w) == seq(|lines|, i requires 0 <= i < |lines| => LineDocker(lines[i], atof))
  {
    var ids: seq<string>, cpu: seq<real>, usage: seq<real>, limit: seq<real>, memory: seq<real> := [], [], [], [], [];
    for i := 0 to |lines|
      invariant |ids| == |cpu| == |usage| == |limit| == |memory| == i
      invariant forall j :: 0 <= j < i ==>
                  Docker(ids[j], cpu[j], usage[j], limit[j], memory[j]) == LineDocker(lines[j], atof)
    {
      var d := ReadDockerLine(lines[i], atof);
      ids := ids + [d.id];
      cpu := cpu + [d.cpu];
      usage := usage + [d.memoryUsage];
      limit := limit + [d.memoryLimit];
      memory := memory + [d.memory];
    }
    w := v.(dockerIds := ids, dockerCpu := cpu, dockerMemoryUsage := usage, dockerMemoryLimit := limit,
            dockerMemory := memory);
  }

  method ReadDockerLine(line: string, atof: string -> real) returns (d: Docker)
    requires IsDockerLine(line)
    ensures d == LineDocker(line, atof)
    ensures var s := Split(line, " ");
            && (s[3][|s[3]| - 3..] == "MiB" ==> d.memoryUsage == atof(s[3]) * 1024.0)
            && (s[3][|s[3]| - 3..] == "GiB" ==> d.memoryUsage == atof(s[3]) * 1048576.0)
            && (s[3][|s[3]| - 3] !in "MG" ==> d.memoryUsage == atof(s[3]))
            && (s[5][|s[5]| - 3..] == "MiB" ==> d.memoryLimit == atof(s[5]) * 1024.0)
            && (s[5][|s[5]| - 3..] == "GiB" ==> d.memoryLimit == atof(s[5]) * 1048576.0)
            && (s[5][|s[5]| - 3] !in "MG" ==> d.memoryLimit == atof(s[5]))
  {
    var s := SplitText(line, " ");
    var usage := Scaled(atof(s[3]), s[3]);
    var limit := Scaled(atof(s[5]), s[5]);
    d := Docker(s[0], atof(s[2]), usage, limit, atof(s[6]));
  }

  method Scaled(amount: real, text: string) returns (r: real)
    requires |text| >= 3
    ensures text[|text| - 3] == 'M' ==> r == amount * 1024.0
    ensures text[|text| - 3] == 'G' ==> r == amount * 1048576.0
    ensures text[|text| - 3] !in "MG" ==> r == amount
  {
    r := amount;
    if text[|text| - 3] == 'M' {
      r := r * 1024.0;
    } else if text[|text| - 3] == 'G' {
      r := r * (1024.0 * 1024.0);
    }
  }
}
