/** Which rows of the store are those of the agent's latest sample, whatever was posted, skipped or cut off. */
module Freshness {
  import opened Wrappers
  import opened JsonReport
  import opened ReportStore
  import opened StoreHistory
  import opened AgentLoop

  // ----- when rows of two reports are equal

  lemma DockerRowsInjective(id: real, a: seq<Docker>, b: seq<Docker>)
    ensures DockerRows(id, a) == DockerRows(id, b) <==> a == b
  {
    if DockerRows(id, a) == DockerRows(id, b) {
      assert |a| == |DockerRows(id, a)| && |b| == |DockerRows(id, b)|;
      forall i | 0 <= i < |a| ensures a[i] == b[i] {
        assert DockerRows(id, a)[i] == DockerRows(id, b)[i];
      }
    }
  }

  /** Equal but for the fractions of cores that the servlet cuts off. */
  predicate SameCpus(a: seq<Cpu>, b: seq<Cpu>) {
    && |a| == |b|
    && forall i :: 0 <= i < |a| ==>
         && a[i].id == b[i].id && a[i].source == b[i].source && a[i].mhz == b[i].mhz
         && Truncate(a[i].cores) == Truncate(b[i].cores)
  }

  lemma CpuRowsEqualIff(id: real, a: seq<Cpu>, b: seq<Cpu>)
    ensures CpuRows(id, a) == CpuRows(id, b) <==> SameCpus(a, b)
  {
    if CpuRows(id, a) == CpuRows(id, b) {
      assert |a| == |CpuRows(id, a)| && |b| == |CpuRows(id, b)|;
      forall i | 0 <= i < |a|
        ensures a[i].id == b[i].id && a[i].source == b[i].source && a[i].mhz == b[i].mhz
        ensures Truncate(a[i].cores) == Truncate(b[i].cores)
      {
        assert CpuRows(id, a)[i] == CpuRows(id, b)[i];
      }
    }
  }

  /** The columns of serverinfo that are no disk or memory figures. */
  predicate SameSurroundings(a: Report, b: Report)
    requires HasSections(a) && HasSections(b) && ServerCount(a) > 0 && ServerCount(b) > 0
  {
    && |a.network.value| == |b.network.value|
    && Sum(Downloads(a.network.value)) == Sum(Downloads(b.network.value))
    && Sum(Uploads(a.network.value)) == Sum(Uploads(b.network.value))
    && a.location.value[0] == b.location.value[0] && a.timestamp.value[0] == b.timestamp.value[0]
  }

  lemma AverageEqualIff(x: seq<real>, y: seq<real>)
    requires |x| == |y|
    ensures Average(x) == Average(y) <==> Sum(x) == Sum(y)
  {
    if |x| > 0 {
      SameQuotient(Sum(x), Sum(y), |x| as real);
    }
  }

  lemma SameQuotient(x: real, y: real, n: real)
    requires n > 0.0
    ensures x / n == y / n <==> x == y
  {
    assert x == x / n * n && y == y / n * n;
  }

  lemma ServerRowEqualIff(id: real, a: Report, b: Report)
    requires HasSections(a) && HasSections(b) && ServerCount(a) > 0 && ServerCount(b) > 0
    requires a.disk.value[0] == b.disk.value[0] && a.memory.value[0] == b.memory.value[0]
    ensures ServerRowAt(id, a, 0) == ServerRowAt(id, b, 0) <==> SameSurroundings(a, b)
  {
    var x, y := a.network.value, b.network.value;
    if |x| == |y| {
      AverageEqualIff(Downloads(x), Downloads(y));
      AverageEqualIff(Uploads(x), Uploads(y));
    }
  }

  // ----- what arrived of the sample last posted

  function Listed<T>(member: Option<seq<T>>): seq<T> {
    if member.Some? then member.value else []
  }

  /** The cpus of a posted sample whose inserts succeeded. */
  function ArrivedCpus(sent: Report, failing: Option<nat>): seq<Cpu> {
    if Complete(sent) then sent.cpu.value[..Fit(failing, ServerCount(sent), |sent.cpu.value|)] else []
  }

  /** The containers of a posted sample whose inserts succeeded. */
  function ArrivedDockers(sent: Report, failing: Option<nat>): seq<Docker> {
    if Complete(sent)
    then Listed(sent.docker)[..Fit(failing, ServerCount(sent) + |sent.cpu.value|, |Listed(sent.docker)|)]
    else []
  }

  lemma ArrivedRows(id: real, sent: Report, failing: Option<nat>)
    ensures StoredWith(id, sent, failing).cpu == CpuRows(id, ArrivedCpus(sent, failing))
    ensures StoredWith(id, sent, failing).docker == DockerRows(id, ArrivedDockers(sent, failing))
  {
  }

  lemma AllArrived(id: real, sent: Report, failing: Option<nat>)
    requires Machine(Object(sent)) == Some(id) && !FailsIn(Object(sent), failing)
    ensures Complete(sent) ==> ArrivedCpus(sent, failing) == sent.cpu.value
    ensures Complete(sent) ==> ArrivedDockers(sent, failing) == Listed(sent.docker)
  {
    if Complete(sent) {
      assert |InsertedRows(id, sent)| == ServerCount(sent) + |sent.cpu.value| + |Listed(sent.docker)|;
    }
  }

  // ----- table by table

  /** dockerinfo lists the latest sample's containers exactly when they are those that arrived of the sample last
      posted. If no insert of that one failed, this is so exactly when the latest sample lists none, or the posted one
      had every section and the same containers. */
  lemma DockerInfoCurrentIff(samples: seq<Report>, services: seq<Service>, id: real, trace: seq<Stmt>, t: Tables)
    requires AgentRan(samples, services, id, trace)
    ensures LastPost(samples).Some?
    ensures var last, latest := LastPost(samples).value, samples[|samples| - 1];
            var sent, failing := samples[last], services[last].failing;
            var current := Only(Run(trace, t).docker, id) == DockerRows(id, Listed(latest.docker));
            && (current <==> Listed(latest.docker) == ArrivedDockers(sent, failing))
            && (!FailsIn(Object(sent), failing) && latest.docker != Some([]) ==>
                (current <==> latest.docker.None? || (HasSections(sent) && sent.docker == latest.docker)))
  {
    OwnRows(samples, services, id, trace, t, DockerInfo);
    SomethingIsPosted(samples, services);
    var last, latest := LastPost(samples).value, samples[|samples| - 1];
    var sent, failing := samples[last], services[last].failing;
    ArrivedRows(id, sent, failing);
    DockerRowsInjective(id, ArrivedDockers(sent, failing), Listed(latest.docker));
    OneServerRow(sent, id);
    if !FailsIn(Object(sent), failing) {
      AllArrived(id, sent, failing);
    }
  }

  /** cpuinfo lists the latest sample's cpus exactly when they equal those that arrived of the sample last posted. */
  lemma CpuInfoCurrentIff(samples: seq<Report>, services: seq<Service>, id: real, trace: seq<Stmt>, t: Tables)
    requires AgentRan(samples, services, id, trace)
    ensures LastPost(samples).Some?
    ensures var last, latest := LastPost(samples).value, samples[|samples| - 1];
            var sent, failing := samples[last], services[last].failing;
            var current := Only(Run(trace, t).cpu, id) == CpuRows(id, Listed(latest.cpu));
            && (current <==> SameCpus(Listed(latest.cpu), ArrivedCpus(sent, failing)))
            && (!FailsIn(Object(sent), failing) && HasSections(sent) ==>
                (current <==> SameCpus(Listed(latest.cpu), sent.cpu.value)))
  {
    OwnRows(samples, services, id, trace, t, CpuInfo);
    var last, latest := LastPost(samples).value, samples[|samples| - 1];
    var sent, failing := samples[last], services[last].failing;
    ArrivedRows(id, sent, failing);
    CpuRowsEqualIff(id, Listed(latest.cpu), ArrivedCpus(sent, failing));
    OneServerRow(sent, id);
    if !FailsIn(Object(sent), failing) {
      AllArrived(id, sent, failing);
    }
  }

  /** The serverinfo row is wholly the latest sample's, rates, location and time included, exactly when the sample last
      posted got that far and these figures did not change since. */
  lemma ServerInfoCurrentIff(samples: seq<Report>, services: seq<Service>, id: real, trace: seq<Stmt>, t: Tables)
    requires AgentRan(samples, services, id, trace) && HasSections(samples[|samples| - 1])
    ensures LastPost(samples).Some?
    ensures var last, latest := LastPost(samples).value, samples[|samples| - 1];
            Only(Run(trace, t).server, id) == [ServerRowAt(id, latest, 0)] <==>
            && HasSections(samples[last]) && services[last].failing != Some(0)
            && SameSurroundings(samples[last], latest)
  {
    OwnRows(samples, services, id, trace, t, ServerInfo);
    SomethingIsPosted(samples, services);
    var last, latest := LastPost(samples).value, samples[|samples| - 1];
    ServerRowsAre(samples[last], latest, id, services[last].failing);
  }

  lemma ServerRowsAre(sent: Report, latest: Report, id: real, failing: Option<nat>)
    requires SampleOf(sent, id) && SampleOf(latest, id) && HasSections(latest)
    requires sent.disk == latest.disk && sent.memory == latest.memory
    ensures StoredWith(id, sent, failing).server == [ServerRowAt(id, latest, 0)] <==>
            HasSections(sent) && failing != Some(0) && SameSurroundings(sent, latest)
  {
    OneServerRow(sent, id);
    if HasSections(sent) {
      var mine, theirs := ServerRowAt(id, sent, 0), ServerRowAt(id, latest, 0);
      ServerRowEqualIff(id, sent, latest);
      assert StoredWith(id, sent, failing).server == if failing == Some(0) then [] else [mine];
      assert [mine][0] == mine && [theirs][0] == theirs;
    }
  }

  /** When every sample has a time of its own, a skipped sample's row is never stored: the row is the latest sample's
      exactly when that sample was posted and its first insert succeeded. */
  lemma SkippedIsNeverStored(samples: seq<Report>, services: seq<Service>, id: real, trace: seq<Stmt>, t: Tables)
    requires AgentRan(samples, services, id, trace) && HasSections(samples[|samples| - 1])
    requires forall i :: 0 <= i < |samples| - 1 ==> samples[i].timestamp != samples[|samples| - 1].timestamp
    ensures var n := |samples| - 1;
            Only(Run(trace, t).server, id) == [ServerRowAt(id, samples[n], 0)] <==>
            Keeps(Kept(samples[..n]), samples[n]) && services[n].failing != Some(0)
  {
    ServerInfoCurrentIff(samples, services, id, trace, t);
    var n, last := |samples| - 1, LastPost(samples).value;
    if !Keeps(Kept(samples[..n]), samples[n]) {
      assert last < n;
      assert samples[last].timestamp.value == [samples[last].timestamp.value[0]];
      assert samples[n].timestamp.value == [samples[n].timestamp.value[0]];
    }
  }
}
