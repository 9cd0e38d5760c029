/** Servlet threads running `insertData` at the same time: every interleaving of their statements. */
module ConcurrentReports {
  import opened Wrappers
  import opened ReportStore
  import opened StoreHistory

  /** A schedule lists, statement by statement, which thread moves next; each thread runs its program in order. */
  ghost predicate Valid(sched: seq<nat>, progs: seq<seq<Stmt>>) {
    && (forall i :: i in sched ==> i < |progs|)
    && forall i :: 0 <= i < |progs| ==> multiset(sched)[i] <= |progs[i]|
  }

  /** A schedule after which every thread has run all of its statements. */
  ghost predicate Finished(sched: seq<nat>, progs: seq<seq<Stmt>>) {
    && Valid(sched, progs)
    && forall i :: 0 <= i < |progs| ==> multiset(sched)[i] == |progs[i]|
  }

  lemma ValidFront(sched: seq<nat>, progs: seq<seq<Stmt>>)
    requires Valid(sched, progs) && sched != []
    ensures Valid(sched[..|sched| - 1], progs)
    ensures var i := sched[|sched| - 1]; i < |progs| && multiset(sched[..|sched| - 1])[i] < |progs[i]|
    ensures multiset(sched) == multiset(sched[..|sched| - 1]) + multiset{sched[|sched| - 1]}
  {
    var front, i := sched[..|sched| - 1], sched[|sched| - 1];
    assert sched == front + [i];
    assert i in sched;
    forall j | j in front ensures j < |progs| {
      assert j in sched;
    }
    forall j | 0 <= j < |progs| ensures multiset(front)[j] <= |progs[j]| {
      assert multiset(front)[j] <= multiset(sched)[j];
    }
  }

  /** The statements the database sees. */
  ghost function TraceOf(sched: seq<nat>, progs: seq<seq<Stmt>>): seq<Stmt>
    requires Valid(sched, progs)
  {
    if sched == [] then []
    else
      ValidFront(sched, progs);
      var front, i := sched[..|sched| - 1], sched[|sched| - 1];
      TraceOf(front, progs) + [progs[i][multiset(front)[i]]]
  }

  ghost predicate Owned(prog: seq<Stmt>, id: real) {
    forall s :: s in prog ==> s.Id() == id
  }

  ghost predicate Foreign(prog: seq<Stmt>, id: real) {
    forall s :: s in prog ==> s.Id() != id
  }

  lemma {:induction false} OwnStatements(sched: seq<nat>, progs: seq<seq<Stmt>>, i: nat, id: real)
    requires Valid(sched, progs) && i < |progs| && Owned(progs[i], id)
    requires forall j :: 0 <= j < |progs| && j != i ==> Foreign(progs[j], id)
    ensures multiset(sched)[i] <= |progs[i]|
    ensures OnlyStmts(TraceOf(sched, progs), id) == progs[i][..multiset(sched)[i]]
  {
    if sched == [] {
    } else {
      ValidFront(sched, progs);
      var front, j := sched[..|sched| - 1], sched[|sched| - 1];
      OwnStatements(front, progs, i, id);
      var trace, s := TraceOf(front, progs), progs[j][multiset(front)[j]];
      assert (trace + [s])[..|trace|] == trace;
      assert s in progs[j];
    }
  }

  lemma {:induction false} NoStatements(sched: seq<nat>, progs: seq<seq<Stmt>>, id: real)
    requires Valid(sched, progs) && forall j :: 0 <= j < |progs| ==> Foreign(progs[j], id)
    ensures OnlyStmts(TraceOf(sched, progs), id) == []
  {
    if sched == [] {
    } else {
      ValidFront(sched, progs);
      var front, j := sched[..|sched| - 1], sched[|sched| - 1];
      NoStatements(front, progs, id);
      var trace, s := TraceOf(front, progs), progs[j][multiset(front)[j]];
      assert (trace + [s])[..|trace|] == trace;
      assert s in progs[j];
    }
  }

  // ----- threads that each process one report

  ghost function Programs(plans: seq<Plan>): (progs: seq<seq<Stmt>>)
    ensures |progs| == |plans|
  {
    seq(|plans|, i requires 0 <= i < |plans| => Program(plans[i]))
  }

  ghost predicate Names(p: Plan, id: real) {
    p.Replace? && p.id == id
  }

  /** No two reports name the same machine. */
  ghost predicate DistinctMachines(plans: seq<Plan>) {
    forall i, j :: 0 <= i < j < |plans| && plans[i].Replace? ==> !Names(plans[j], plans[i].id)
  }

  ghost predicate Sole(plans: seq<Plan>, i: nat, id: real) {
    && i < |plans| && Names(plans[i], id)
    && forall j :: 0 <= j < |plans| && j != i ==> !Names(plans[j], id)
  }

  ghost predicate Unnamed(plans: seq<Plan>, id: real) {
    forall j :: 0 <= j < |plans| ==> !Names(plans[j], id)
  }

  lemma ProgramsOwned(plans: seq<Plan>, id: real)
    ensures forall i :: 0 <= i < |plans| ==>
              if Names(plans[i], id) then Owned(Programs(plans)[i], id) else Foreign(Programs(plans)[i], id)
  {
  }

  /** At every moment of every run, the rows of a machine named by one report are what that report alone would have
      left after as many of its statements. */
  lemma EveryMoment(sched: seq<nat>, plans: seq<Plan>, t: Tables, k: Table, i: nat, id: real)
    requires Valid(sched, Programs(plans)) && Sole(plans, i, id)
    ensures multiset(sched)[i] <= |Program(plans[i])|
    ensures Only(Run(TraceOf(sched, Programs(plans)), t).Of(k), id) ==
            AfterPrefix(plans[i], multiset(sched)[i], k, Only(t.Of(k), id))
  {
    ProgramsOwned(plans, id);
    Locality(TraceOf(sched, Programs(plans)), t, k, id);
    OwnStatements(sched, Programs(plans), i, id);
    WithoutOnly(t.Of(k), id);
    RunOnPrefix(plans[i], multiset(sched)[i], k, Only(t.Of(k), id));
  }

  /** The rows of a machine that no report names never change. */
  lemma OthersUntouched(sched: seq<nat>, plans: seq<Plan>, t: Tables, k: Table, id: real)
    requires Valid(sched, Programs(plans)) && Unnamed(plans, id)
    ensures Only(Run(TraceOf(sched, Programs(plans)), t).Of(k), id) == Only(t.Of(k), id)
  {
    ProgramsOwned(plans, id);
    Locality(TraceOf(sched, Programs(plans)), t, k, id);
    NoStatements(sched, Programs(plans), id);
  }

  // ----- comparison with serial execution

  /** Every index below n exactly once. */
  ghost predicate IsOrder(order: seq<nat>, n: nat) {
    && (forall a :: 0 <= a < |order| ==> order[a] < n)
    && (forall a, b :: 0 <= a < b < |order| ==> order[a] != order[b])
    && forall i: nat :: i < n ==> i in order
  }

  ghost function InOrder(order: seq<nat>, plans: seq<Plan>): seq<Plan>
    requires IsOrder(order, |plans|)
  {
    seq(|order|, a requires 0 <= a < |order| => plans[order[a]])
  }

  lemma {:induction false} LastForSole(plans: seq<Plan>, i: nat, id: real)
    requires Sole(plans, i, id)
    ensures LastFor(plans, id) == Some(plans[i].rows)
  {
    if i == |plans| - 1 {
    } else {
      LastForSole(plans[..|plans| - 1], i, id);
    }
  }

  lemma {:induction false} LastForNone(plans: seq<Plan>, id: real)
    requires Unnamed(plans, id)
    ensures LastFor(plans, id) == None
  {
    if plans == [] {
    } else {
      LastForNone(plans[..|plans| - 1], id);
    }
  }

  lemma SerialRows(plans: seq<Plan>, order: seq<nat>, t: Tables, k: Table, i: nat, id: real)
    requires IsOrder(order, |plans|) && Sole(plans, i, id)
    ensures Only(RunPlans(InOrder(order, plans), t).Of(k), id) == Homed(plans[i].rows, k)
  {
    var serial := InOrder(order, plans);
    assert i in order;
    var a: nat :| a < |order| && order[a] == i;
    assert Sole(serial, a, id);
    LastForSole(serial, a, id);
    LastWriterWins(serial, t, k, id);
  }

  lemma FinishedSole(sched: seq<nat>, plans: seq<Plan>, t: Tables, k: Table, i: nat, id: real)
    requires Finished(sched, Programs(plans)) && Sole(plans, i, id)
    ensures Only(Run(TraceOf(sched, Programs(plans)), t).Of(k), id) == Homed(plans[i].rows, k)
  {
    EveryMoment(sched, plans, t, k, i, id);
    assert multiset(sched)[i] == |Programs(plans)[i]|;
    AfterWhole(plans[i], k, Only(t.Of(k), id));
  }

  lemma SerialUnnamed(plans: seq<Plan>, order: seq<nat>, t: Tables, k: Table, id: real)
    requires IsOrder(order, |plans|) && Unnamed(plans, id)
    ensures Only(RunPlans(InOrder(order, plans), t).Of(k), id) == Only(t.Of(k), id)
  {
    LastForNone(InOrder(order, plans), id);
    LastWriterWins(InOrder(order, plans), t, k, id);
  }

  lemma FinishedRows(sched: seq<nat>, plans: seq<Plan>, order: seq<nat>, t: Tables, k: Table, id: real)
    requires Finished(sched, Programs(plans)) && DistinctMachines(plans) && IsOrder(order, |plans|)
    ensures Only(Run(TraceOf(sched, Programs(plans)), t).Of(k), id) ==
            Only(RunPlans(InOrder(order, plans), t).Of(k), id)
  {
    if i: nat :| i < |plans| && Names(plans[i], id) {
      FinishedSole(sched, plans, t, k, i, id);
      SerialRows(plans, order, t, k, i, id);
    } else {
      OthersUntouched(sched, plans, t, k, id);
      SerialUnnamed(plans, order, t, k, id);
    }
  }

  /** Statement-level interleavings of reports from distinct machines end in the same three tables as running the
      reports one after another, whatever the order. */
  lemma InterleavingIsSerial(sched: seq<nat>, plans: seq<Plan>, order: seq<nat>, t: Tables)
    requires Finished(sched, Programs(plans)) && DistinctMachines(plans) && IsOrder(order, |plans|)
    ensures SameBags(Run(TraceOf(sched, Programs(plans)), t), RunPlans(InOrder(order, plans), t))
  {
    forall k: Table, id: real
      ensures Only(Run(TraceOf(sched, Programs(plans)), t).Of(k), id) ==
              Only(RunPlans(InOrder(order, plans), t).Of(k), id)
    {
      FinishedRows(sched, plans, order, t, k, id);
    }
    BagsFromMachines(Run(TraceOf(sched, Programs(plans)), t), RunPlans(InOrder(order, plans), t));
  }
}
