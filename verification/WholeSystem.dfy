/** Agents and store joined: from readings to rows, what is lost on the way, and what colliding ids do. */
module WholeSystem {
  import opened Wrappers
  import opened JsonReport
  import opened ReportStore
  import opened StoreHistory
  import opened ConcurrentReports
  import opened SharedMachines
  import opened SampleAssembly
  import opened TextSearch
  import opened AgentLoop
  import opened Freshness
  import opened HashCode
  import opened AddressLines

  /** Readings of one machine. */
  ghost predicate ReadingsOf(readings: seq<Readings>, id: real) {
    forall i :: 0 <= i < |readings| ==> Usable(readings[i]) && readings[i].macAddressId[0] == id
  }

  ghost function Samples(readings: seq<Readings>): seq<Report>
    requires forall i :: 0 <= i < |readings| ==> Usable(readings[i])
  {
    seq(|readings|, i requires 0 <= i < |readings| => Assembled(readings[i]))
  }

  /** A cpu and a network card were found. */
  predicate Healthy(v: Readings) {
    |v.cpuMHz| > 0 && |v.ethFirst| > 0
  }

  lemma SampleFits(v: Readings, id: real)
    requires Usable(v) && v.macAddressId[0] == id
    ensures SampleOf(Assembled(v), id)
  {
  }

  lemma SamplesFit(readings: seq<Readings>, id: real)
    requires ReadingsOf(readings, id)
    ensures forall i :: 0 <= i < |readings| ==> SampleOf(Samples(readings)[i], id)
  {
    forall i | 0 <= i < |readings| ensures SampleOf(Samples(readings)[i], id) {
      SampleFits(readings[i], id);
    }
  }

  /** The agent has taken these readings, in the sense of `AgentRan`. */
  ghost predicate AgentRead(readings: seq<Readings>, services: seq<Service>, id: real, trace: seq<Stmt>) {
    && readings != [] && |readings| <= |services| && ReadingsOf(readings, id)
    && OnlyStmts(trace, id) == AllStatements(Posted(Samples(readings), services))
  }

  lemma ReadIsRan(readings: seq<Readings>, services: seq<Service>, id: real, trace: seq<Stmt>)
    requires AgentRead(readings, services, id, trace)
    ensures AgentRan(Samples(readings), services, id, trace)
  {
    SamplesFit(readings, id);
  }

  /** The rows of a reading when no insert fails. */
  ghost function RowsOfReading(v: Readings): Tables
    requires Usable(v)
  {
    if Healthy(v) then Tables([StoredRow(v)], CpuRows(v.macAddressId[0], Cpus(v)),
                              DockerRows(v.macAddressId[0], Dockers(v)))
    else Tables([], [], [])
  }

  lemma ReadingIsStored(v: Readings)
    requires Usable(v)
    ensures Stored(v.macAddressId[0], Assembled(v)) == RowsOfReading(v)
  {
    SampleStored(v);
    if Healthy(v) {
      AveragesOfCards(v);
      assert ServerRows(v.macAddressId[0], Assembled(v)) == [StoredRow(v)];
      assert v.dockerIds == [] ==> DockerRows(v.macAddressId[0], Dockers(v)) == [];
    }
  }

  /** The store after any number of iterations: all three tables hold the rows of the reading last posted, cut off only
      by a failing insert, and its disk and memory are the latest, posted or skipped. */
  lemma StoreFollowsAgent(readings: seq<Readings>, services: seq<Service>, id: real, trace: seq<Stmt>, t: Tables)
      returns (posted: nat)
    requires AgentRead(readings, services, id, trace)
    ensures posted < |readings| && LastPost(Samples(readings)) == Some(posted)
    ensures forall k: Table ::
              Only(Run(trace, t).Of(k), id) == CutOff(RowsOfReading(readings[posted]), services[posted].failing).Of(k)
    ensures SampleOf(Assembled(readings[|readings| - 1]), id)
    ensures Healthy(readings[posted]) ==> Shows([StoredRow(readings[posted])], Assembled(readings[|readings| - 1]), id)
  {
    posted := LastReadingPosted(readings, services, id, trace);
    RowsPosted(readings, services, id, trace, t, posted);
    if Healthy(readings[posted]) {
      SameSpaceShows(readings[posted], Assembled(readings[|readings| - 1]), id);
    }
  }

  lemma LastReadingPosted(readings: seq<Readings>, services: seq<Service>, id: real, trace: seq<Stmt>)
      returns (posted: nat)
    requires AgentRead(readings, services, id, trace)
    ensures posted < |readings| && LastPost(Samples(readings)) == Some(posted)
    ensures var sent, latest := Assembled(readings[posted]), Assembled(readings[|readings| - 1]);
            sent.disk == latest.disk && sent.memory == latest.memory && SampleOf(latest, id)
  {
    ReadIsRan(readings, services, id, trace);
    SomethingIsPosted(Samples(readings), services);
    posted := LastPost(Samples(readings)).value;
    SampleFits(readings[|readings| - 1], id);
  }

  lemma RowsPosted(readings: seq<Readings>, services: seq<Service>, id: real, trace: seq<Stmt>, t: Tables, posted: nat)
    requires AgentRead(readings, services, id, trace)
    requires posted < |readings| && LastPost(Samples(readings)) == Some(posted)
    ensures forall k: Table ::
              Only(Run(trace, t).Of(k), id) == CutOff(RowsOfReading(readings[posted]), services[posted].failing).Of(k)
  {
    ReadIsRan(readings, services, id, trace);
    ReadingIsStored(readings[posted]);
    forall k: Table
      ensures Only(Run(trace, t).Of(k), id) == CutOff(RowsOfReading(readings[posted]), services[posted].failing).Of(k)
    {
      OwnRows(Samples(readings), services, id, trace, t, k);
    }
  }

  lemma SameSpaceShows(v: Readings, latest: Report, id: real)
    requires Usable(v) && |v.ethFirst| > 0 && v.macAddressId[0] == id && SampleOf(latest, id)
    requires Assembled(v).disk == latest.disk && Assembled(v).memory == latest.memory
    ensures Shows([StoredRow(v)], latest, id)
  {
  }

  // ----- what the change filter loses

  /** A sample that lists containers and has the disk and memory of the first. */
  ghost predicate Repeats(first: Report, root: Report) {
    root.docker.Some? && root.disk == first.disk && root.memory == first.memory
  }

  /** Behind a sample that was posted such samples are all skipped. */
  lemma {:induction false} RepeatsAreSkipped(before: seq<Report>, first: Report, later: seq<Report>)
    requires Keeps(Kept(before), first) && forall i :: 0 <= i < |later| ==> Repeats(first, later[i])
    ensures Kept(before + [first] + later) == Kept(before) + [first]
    ensures LastPost(before + [first] + later) == Some(|before|)
  {
    if later == [] {
      assert before + [first] + later == before + [first];
      PostedNext(before, first);
    } else {
      var front, root := later[..|later| - 1], later[|later| - 1];
      RepeatsAreSkipped(before, first, front);
      assert before + [first] + later == before + [first] + front + [root];
      RepeatIsSkipped(Kept(before), first, before + [first] + front, |before|, root);
    }
  }

  lemma RepeatIsSkipped(kept: seq<Report>, first: Report, samples: seq<Report>, last: nat, root: Report)
    requires Kept(samples) == kept + [first] && LastPost(samples) == Some(last) && Repeats(first, root)
    ensures Kept(samples + [root]) == kept + [first] && LastPost(samples + [root]) == Some(last)
  {
    assert (samples + [root])[..|samples|] == samples;
  }

  /** The agent ran over any samples, then posted `first`, then saw only samples that repeat it. */
  ghost predicate RanIntoRepeats(
    before: seq<Report>, first: Report, later: seq<Report>, services: seq<Service>, id: real, trace: seq<Stmt>) {
    && AgentRan(before + [first] + later, services, id, trace) && Keeps(Kept(before), first)
    && forall i :: 0 <= i < |later| ==> Repeats(first, later[i])
  }

  /** As long as later samples repeat a posted one, the store holds what arrived of that one. */
  lemma PostStays(before: seq<Report>, first: Report, later: seq<Report>, services: seq<Service>, id: real,
                  trace: seq<Stmt>, t: Tables, k: Table)
    requires RanIntoRepeats(before, first, later, services, id, trace)
    ensures Kept(before + [first] + later) == Kept(before) + [first]
    ensures Only(Run(trace, t).Of(k), id) == StoredWith(id, first, services[|before|].failing).Of(k)
  {
    assert (before + [first] + later)[|before|] == first;
    RepeatsAreSkipped(before, first, later);
    OwnRows(before + [first] + later, services, id, trace, t, k);
  }

  lemma CutOffDiffers(id: real, r: Report, failing: Option<nat>)
    requires Machine(Object(r)) == Some(id) && FailsIn(Object(r), failing)
    ensures exists k: Table :: StoredWith(id, r, failing).Of(k) != Stored(id, r).Of(k)
  {
    var p, q := PlanOf(Object(r)), PlanWith(Object(r), failing);
    HomedLengths(p.rows);
    HomedLengths(q.rows);
    forall k: Table
      ensures Homed(p.rows, k) == Stored(id, r).Of(k) && Homed(q.rows, k) == StoredWith(id, r, failing).Of(k)
    {
      RowsPerTable(id, r, k);
      RowsPerTableWith(id, r, failing, k);
    }
    assert |q.rows| < |p.rows|;
    assert StoredWith(id, r, failing).Of(ServerInfo) != Stored(id, r).Of(ServerInfo) ||
           StoredWith(id, r, failing).Of(CpuInfo) != Stored(id, r).Of(CpuInfo) ||
           StoredWith(id, r, failing).Of(DockerInfo) != Stored(id, r).Of(DockerInfo);
  }

  lemma PostIsOwn(before: seq<Report>, first: Report, later: seq<Report>, services: seq<Service>, id: real,
                  trace: seq<Stmt>)
    requires RanIntoRepeats(before, first, later, services, id, trace)
    ensures SampleOf(first, id) && |before| < |services|
  {
    assert (before + [first] + later)[|before|] == first;
  }

  /** A failed insert, at any point of the stream, is not made up for: the agent remembers the sample as posted, so the
      machine's rows stay incomplete through all samples that repeat it. */
  lemma PartialRowsStay(before: seq<Report>, first: Report, later: seq<Report>, services: seq<Service>, id: real,
                        trace: seq<Stmt>, t: Tables)
    requires RanIntoRepeats(before, first, later, services, id, trace)
    requires FailsIn(Object(first), services[|before|].failing)
    ensures forall k: Table :: Only(Run(trace, t).Of(k), id) == StoredWith(id, first, services[|before|].failing).Of(k)
    ensures !HoldsAll(Run(trace, t), id, first)
  {
    PostIsOwn(before, first, later, services, id, trace);
    forall k: Table
      ensures Only(Run(trace, t).Of(k), id) == StoredWith(id, first, services[|before|].failing).Of(k)
    {
      PostStays(before, first, later, services, id, trace, t, k);
    }
    CutOffDiffers(id, first, services[|before|].failing);
  }

  lemma NothingArrives(v: Readings, failing: Option<nat>, k: Table)
    requires Usable(v) && !Healthy(v)
    ensures StoredWith(v.macAddressId[0], Assembled(v), failing).Of(k) == []
  {
    ReadingIsStored(v);
  }

  /** A posted sample without a cpu or a card wipes the machine, at any point of the stream. Later samples, healthy ones
      included, do not bring its rows back as long as they list containers and repeat its disk and memory. */
  lemma WipedAndSkipped(before: seq<Report>, v: Readings, later: seq<Report>, services: seq<Service>, id: real,
                        trace: seq<Stmt>, t: Tables, k: Table)
    requires Usable(v) && !Healthy(v) && RanIntoRepeats(before, Assembled(v), later, services, id, trace)
    ensures Kept(before + [Assembled(v)] + later) == Kept(before) + [Assembled(v)]
    ensures Only(Run(trace, t).Of(k), id) == []
  {
    PostIsOwn(before, Assembled(v), later, services, id, trace);
    PostStays(before, Assembled(v), later, services, id, trace, t, k);
    NothingArrives(v, services[|before|].failing, k);
  }

  /** Such a later sample always exists: the same machine with a cpu, a card and a container. */
  lemma HealthyCanRepeat(v: Readings) returns (w: Readings)
    requires Usable(v)
    ensures Usable(w) && Healthy(w) && w.macAddressId == v.macAddressId && Repeats(Assembled(v), Assembled(w))
  {
    w := v.(cpuMHz := [1.0], cpuSourceAvailable := [1.0], cpuCores := [1.0], ethFirst := [0.0, 0.0],
            ethSecond := [0.0, 0.0], dockerIds := ["new"], dockerCpu := [0.0], dockerMemoryUsage := [0.0],
            dockerMemoryLimit := [0.0], dockerMemory := [0.0]);
    assert |Dockers(w)| == 1;
  }

  /** v with another list of containers. */
  ghost predicate OtherContainers(v: Readings, w: Readings) {
    && Usable(v) && Usable(w) && Dockers(w) != Dockers(v)
    && w == v.(dockerIds := w.dockerIds, dockerCpu := w.dockerCpu, dockerMemoryUsage := w.dockerMemoryUsage,
               dockerMemoryLimit := w.dockerMemoryLimit, dockerMemory := w.dockerMemory)
  }

  lemma TwoReadings(v: Readings, w: Readings)
    requires OtherContainers(v, w)
    ensures Samples([v, w]) == [Assembled(v), Assembled(w)]
    ensures LastPost(Samples([v, w])) == Some(if Dockers(w) == [] then 1 else 0)
  {
    var first, root := Assembled(v), Assembled(w);
    assert Samples([v, w]) == [first] + [root] && [] + [first] == [first];
    PostedNext([], first);
    if Dockers(w) == [] {
      PostedNext([first], root);
    } else {
      RepeatIsSkipped([], first, [first], 0, root);
    }
  }

  lemma PostedNext(samples: seq<Report>, root: Report)
    requires Keeps(Kept(samples), root)
    ensures Kept(samples + [root]) == Kept(samples) + [root] && LastPost(samples + [root]) == Some(|samples|)
  {
    assert (samples + [root])[..|samples|] == samples;
  }

  /** After a change of containers alone the new sample is skipped, and dockerinfo goes on showing the old ones, exactly
      when the new list is not empty. */
  lemma ContainersGoStale(v: Readings, w: Readings, services: seq<Service>, id: real, trace: seq<Stmt>, t: Tables)
    requires OtherContainers(v, w) && Healthy(v) && AgentRead([v, w], services, id, trace)
    requires !FailsIn(Object(Assembled(v)), services[0].failing)
    ensures Samples([v, w]) == [Assembled(v), Assembled(w)]
    ensures LastPost(Samples([v, w])) == Some(if Dockers(w) == [] then 1 else 0)
    ensures Only(Run(trace, t).docker, id) == DockerRows(id, if Dockers(w) == [] then [] else Dockers(v))
    ensures Only(Run(trace, t).docker, id) == DockerRows(id, Dockers(w)) <==> Dockers(w) == []
  {
    assert [v, w][0] == v && [v, w][1] == w;
    TwoReadings(v, w);
    ReadIsRan([v, w], services, id, trace);
    OwnRows(Samples([v, w]), services, id, trace, t, DockerInfo);
    if Dockers(w) == [] {
      NoContainersArrive(w, services[1].failing);
    } else {
      ContainersArrive(v, services[0].failing);
    }
    DockerRowsInjective(id, Dockers(v), Dockers(w));
  }

  lemma NoContainersArrive(w: Readings, failing: Option<nat>)
    requires Usable(w) && Dockers(w) == []
    ensures StoredWith(w.macAddressId[0], Assembled(w), failing).docker == []
  {
    ReadingIsStored(w);
  }

  lemma ContainersArrive(v: Readings, failing: Option<nat>)
    requires Usable(v) && Healthy(v) && !FailsIn(Object(Assembled(v)), failing)
    ensures StoredWith(v.macAddressId[0], Assembled(v), failing).docker == DockerRows(v.macAddressId[0], Dockers(v))
  {
    var id := v.macAddressId[0];
    SampleStored(v);
    ArrivedRows(id, Assembled(v), failing);
    AllArrived(id, Assembled(v), failing);
  }

  /** Every reading can be followed by a change that is skipped: a container more. */
  lemma ContainersCanChange(v: Readings) returns (w: Readings)
    requires Usable(v)
    ensures OtherContainers(v, w) && Dockers(w) != []
  {
    var n := |v.dockerIds|;
    w := v.(dockerIds := v.dockerIds + ["new"], dockerCpu := v.dockerCpu[..n] + [0.0],
            dockerMemoryUsage := v.dockerMemoryUsage[..n] + [0.0],
            dockerMemoryLimit := v.dockerMemoryLimit[..n] + [0.0], dockerMemory := v.dockerMemory[..n] + [0.0]);
    assert |Dockers(w)| == n + 1 && |Dockers(v)| == n;
  }

  /** A reading without a cpu or a card makes the servlet fail, and the agent starts whatever the error page spells
      after position 13, whatever the directives say. */
  lemma ErrorPageStarts(v: Readings, s: Service)
    requires Usable(v) && !Healthy(v) && !Contains(s.head, MARKER)
    ensures Started(Assembled(v), s) == if |s.head| < 13 || s.head[13..] == "null" then [] else [s.head[13..]]
  {
    SampleStored(v);
    StartedCases(Assembled(v), s);
  }

  // ----- colliding ids

  /** The readings of a machine with this address line. */
  ghost function WithAddress(v: Readings, line: Text): Readings {
    v.(macAddressId := [Hash(line) as real])
  }

  /** Two machines whose address lines share an id post under it, whatever else they read, and some interleaving of
      their reports mixes their rows. */
  lemma CollidingAgentsMix(a: Readings, b: Readings, x: Text, y: Text, t: Tables) returns (sched: seq<nat>)
    requires Usable(a) && Healthy(a)
    requires Usable(b) && Healthy(b)
    requires Hash(x) == Hash(y)
    ensures var p, q := PlanOf(Object(Assembled(WithAddress(a, x)))), PlanOf(Object(Assembled(WithAddress(b, y))));
            Finished(sched, Programs([p, q])) && !Serializable(sched, [p, q], t)
  {
    HealthySampleStores(WithAddress(a, x));
    HealthySampleStores(WithAddress(b, y));
    sched := MixTwo(PlanOf(Object(Assembled(WithAddress(a, x)))), PlanOf(Object(Assembled(WithAddress(b, y)))), t);
  }

  /** So do two machines with consecutive addresses of one vendor. */
  lemma NeighbouringAgentsMix(a: Readings, b: Readings, t: Tables) returns (sched: seq<nat>)
    requires Usable(a) && Healthy(a)
    requires Usable(b) && Healthy(b)
    ensures NeighbourLine('1') != NeighbourLine('2')
    ensures var p, q := PlanOf(Object(Assembled(WithAddress(a, NeighbourLine('1'))))),
                        PlanOf(Object(Assembled(WithAddress(b, NeighbourLine('2')))));
            Finished(sched, Programs([p, q])) && !Serializable(sched, [p, q], t)
  {
    NeighboursCollide();
    sched := CollidingAgentsMix(a, b, NeighbourLine('1'), NeighbourLine('2'), t);
  }

  lemma MixTwo(p: Plan, q: Plan, t: Tables) returns (sched: seq<nat>)
    requires p.Replace? && q.Replace? && p.id == q.id && p.rows != [] && q.rows != []
    ensures Finished(sched, Programs([p, q])) && !Serializable(sched, [p, q], t)
  {
    assert Names([p, q][1], [p, q][0].id) && |[p, q][0].rows| + |[p, q][1].rows| > 1;
    sched := SharedMachineMixes([p, q], t);
  }

  lemma HealthySampleStores(v: Readings)
    requires Usable(v) && Healthy(v)
    ensures var p := PlanOf(Object(Assembled(v)));
            p.Replace? && p.id == v.macAddressId[0] && p.rows != []
  {
  }
}
