/** The agent: which samples it posts, what it reads out of replies, and what the store then shows. */
module AgentLoop {
  import opened Wrappers
  import opened JsonReport
  import opened ReportStore
  import opened StoreHistory
  import opened SearchServlet
  import opened TextSearch

  // ----- the change filter

  /** The three remembered JSON values; None is JSON null. */
  datatype Memory = Memory(disk: Option<seq<Capacity>>, memory: Option<seq<Capacity>>, docker: Option<seq<Docker>>)

  const NOTHING := Memory(None, None, None)

  function LastDisk(kept: seq<Report>): Option<seq<Capacity>> {
    if kept == [] then None else kept[|kept| - 1].disk
  }

  function LastMemory(kept: seq<Report>): Option<seq<Capacity>> {
    if kept == [] then None else kept[|kept| - 1].memory
  }

  /** A sample is kept unless it lists containers and repeats the disk and memory of the last kept sample. */
  predicate Keeps(kept: seq<Report>, root: Report) {
    root.docker.None? || root.disk != LastDisk(kept) || root.memory != LastMemory(kept)
  }

  function Kept(samples: seq<Report>): (kept: seq<Report>) {
    if samples == [] then []
    else
      var kept, root := Kept(samples[..|samples| - 1]), samples[|samples| - 1];
      if Keeps(kept, root) then kept + [root] else kept
  }

  function LastDocker(kept: seq<Report>): Option<seq<Docker>> {
    if kept == [] then None
    else if kept[|kept| - 1].docker.Some? then kept[|kept| - 1].docker
    else LastDocker(kept[..|kept| - 1])
  }

  /** What the agent should remember after keeping these samples. */
  function Remembered(kept: seq<Report>): Memory {
    Memory(LastDisk(kept), LastMemory(kept), LastDocker(kept))
  }

  /** Remembered are the disk and memory of the last kept sample, and the containers of the last one that lists any. */
  lemma {:induction false} RememberedIs(kept: seq<Report>, i: nat)
    ensures kept == [] ==> Remembered(kept) == Memory(None, None, None)
    ensures kept != [] ==>
              Remembered(kept).disk == kept[|kept| - 1].disk && Remembered(kept).memory == kept[|kept| - 1].memory
    ensures i < |kept| && kept[i].docker.Some? && (forall j :: i < j < |kept| ==> kept[j].docker.None?) ==>
              Remembered(kept).docker == kept[i].docker
    ensures (forall j :: 0 <= j < |kept| ==> kept[j].docker.None?) ==> Remembered(kept).docker == None
  {
    if kept == [] {
    } else {
      RememberedIs(kept[..|kept| - 1], i);
    }
  }

  /** The last sample, kept or not, has the disk and memory of the last kept one. */
  lemma {:induction false} KeptShowsLatest(samples: seq<Report>)
    requires samples != [] && forall i :: 0 <= i < |samples| ==> samples[i].disk.Some?
    ensures var kept, latest := Kept(samples), samples[|samples| - 1];
            && kept != []
            && kept[|kept| - 1] in samples
            && kept[|kept| - 1].disk == latest.disk && kept[|kept| - 1].memory == latest.memory
            && (kept[|kept| - 1] == latest || latest.docker.Some?)
  {
    var front, latest := samples[..|samples| - 1], samples[|samples| - 1];
    if Keeps(Kept(front), latest) {
    } else {
      assert front != [];
      KeptShowsLatest(front);
    }
  }

  // ----- reading a reply

  const MARKER := "POST request.\n"

  /** What the agent takes for the image: the text after the first marker. Without a marker the search yields -1 and
      the text after the first 13 characters is taken; None is the exception a shorter response causes. */
  function Extract(response: string): Option<string> {
    var found := Find(response, MARKER);
    var index := (if found.Some? then found.value else -1) + |MARKER|;
    if index > |response| then None else Some(response[index..])
  }

  /** Every response: text after the first marker, or the text from position 13 on, or an exception. */
  lemma ExtractCases(response: string)
    ensures forall i: nat :: FirstAt(response, MARKER, i) ==> Extract(response) == Some(response[i + 14..])
    ensures !Contains(response, MARKER) && |response| >= 13 ==> Extract(response) == Some(response[13..])
    ensures Extract(response) == None <==> |response| < 13
  {
    FindFromIsFirst(response, MARKER, 0);
    assert |MARKER| == 14;
  }

  lemma SliceOfFront(a: string, b: string, i: nat, j: nat)
    requires i <= j <= |a|
    ensures (a + b)[i..j] == a[i..j]
  {
  }

  /** A line w that ends like the marker, with the newline after it, is an occurrence of the marker. */
  lemma MarkerEndsLine(pre: string, w: string, pat: string, rest: string)
    requires pat != [] && pat[|pat| - 1] == '\n'
    requires |pat| - 1 <= |w| && w[|w| + 1 - |pat|..] == pat[..|pat| - 1]
    ensures var s, home := pre + w + "\n" + rest, |pre| + |w| + 1 - |pat|;
            OccursAt(s, pat, home) && s[home + |pat|..] == rest && |s| == home + |pat| + |rest|
  {
  }

  /** Before that, a marker whose only newline is its last character occurs just where it occurs in front of w. */
  lemma EarlierMarkers(pre: string, w: string, pat: string, rest: string, i: nat)
    requires pat != [] && pat[|pat| - 1] == '\n' && '\n' !in w && |pat| - 1 <= |w|
    ensures i < |pre| + |w| + 1 - |pat| ==> (OccursAt(pre + w + "\n" + rest, pat, i) <==> OccursAt(pre, pat, i))
    ensures OccursAt(pre, pat, i) ==> i < |pre| + |w| + 1 - |pat|
  {
    var s, n := pre + (w + "\n" + rest), |pat| - 1;
    assert pre + w + "\n" + rest == s;
    if i + |pat| <= |pre| {
      SliceOfFront(pre, w + "\n" + rest, i, i + |pat|);
    } else if i + n < |pre| + |w| {
      assert s[i + n] == w[i + n - |pre|];
    }
  }

  lemma WelcomeEndsInMarker()
    ensures |MARKER| == 14 && MARKER[13] == '\n'
    ensures '\n' !in WELCOME
    ensures |WELCOME| == 42 && WELCOME[42 + 1 - 14..] == MARKER[..14 - 1]
  {
  }

  /** The first occurrence is the one at the end of the line exactly when none lies in front of the line. */
  lemma FirstMarker(pre: string, w: string, pat: string, rest: string, first: nat)
    requires pat != [] && pat[|pat| - 1] == '\n' && '\n' !in w
    requires |pat| - 1 <= |w| && w[|w| + 1 - |pat|..] == pat[..|pat| - 1]
    requires var s := pre + w + "\n" + rest;
             OccursAt(s, pat, first) && forall j: nat :: j < first ==> !OccursAt(s, pat, j)
    ensures (pre + w + "\n" + rest)[first + |pat|..] == rest <==> !Contains(pre, pat)
  {
    var s, home := pre + w + "\n" + rest, |pre| + |w| + 1 - |pat|;
    MarkerEndsLine(pre, w, pat, rest);
    EarlierMarkers(pre, w, pat, rest, first);
    assert first <= home;
    if first < home {
      assert |s[first + |pat|..]| > |rest|;
    } else if Contains(pre, pat) {
      var i: nat :| OccursAt(pre, pat, i);
      EarlierMarkers(pre, w, pat, rest, i);
    }
  }

  /** Whatever precedes the greeting, the agent reads the directive back, markers in it or not, exactly when the
      marker does not occur in what precedes it. */
  lemma ReplyRoundTrip(pre: string, directive: string)
    ensures Extract(pre + WELCOME + "\n" + directive) == Some(directive) <==> !Contains(pre, MARKER)
  {
    WelcomeEndsInMarker();
    var s := pre + WELCOME + "\n" + directive;
    MarkerEndsLine(pre, WELCOME, MARKER, directive);
    FindFromIsFirst(s, MARKER, 0);
    FirstMarker(pre, WELCOME, MARKER, directive, Find(s, MARKER).value);
  }

  // ----- the loop

  /** What surrounds one iteration: the head of the HTTP response, error page included, the insert that fails, and the
      directive file as the servlet finds it. */
  datatype Service = Service(head: string, failing: Option<nat>, file: Option<seq<DockerEntry>>)

  /** The servlet writes a reply. */
  predicate Replied(root: Report, s: Service) {
    OutcomeWith(Object(root), s.failing).Returned? && s.file.Some?
  }

  function DirectiveFor(root: Report, s: Service): string
    requires Replied(root, s)
  {
    Directive(s.file.value, OutcomeWith(Object(root), s.failing).macId)
  }

  /** What the agent receives for a sample: the head of the response, then the servlet's reply if it wrote one. */
  function Response(root: Report, s: Service): string {
    if Replied(root, s) then s.head + (Greeting(None) + DirectiveFor(root, s)) else s.head
  }

  /** The image a kept sample starts, if any. */
  function Started(root: Report, s: Service): seq<string> {
    var image := Extract(Response(root, s));
    if image.Some? && image.value != "null" then [image.value] else []
  }

  /** The images the agent starts, in order, over the samples it keeps. */
  function Deployed(samples: seq<Report>, services: seq<Service>): seq<string>
    requires |samples| <= |services|
  {
    if samples == [] then []
    else
      var n := |samples| - 1;
      Deployed(samples[..n], services) +
      if Keeps(Kept(samples[..n]), samples[n]) then Started(samples[n], services[n]) else []
  }

  /** What the posted samples do to the tables. */
  function Posted(samples: seq<Report>, services: seq<Service>): seq<Plan>
    requires |samples| <= |services|
  {
    if samples == [] then []
    else
      var n := |samples| - 1;
      var front := Posted(samples[..n], services);
      if Keeps(Kept(samples[..n]), samples[n]) then front + [PlanWith(Object(samples[n]), services[n].failing)]
      else front
  }

  lemma PostAppends(plans: seq<Plan>, p: Plan, t: Tables)
    ensures RunPlans(plans + [p], t) == Run(Program(p), RunPlans(plans, t))
  {
  }

  lemma RememberedAppends(kept: seq<Report>, root: Report)
    ensures Remembered(kept + [root]) ==
            Memory(root.disk, root.memory, if root.docker.Some? then root.docker else Remembered(kept).docker)
  {
  }

  class Agent {
    var diskStore: Option<seq<Capacity>>
    var memoryStore: Option<seq<Capacity>>
    var dockerStore: Option<seq<Docker>>

    ghost function Holds(): Memory
      reads this
    {
      Memory(diskStore, memoryStore, dockerStore)
    }

    constructor ()
      ensures Holds() == NOTHING
    {
      diskStore, memoryStore, dockerStore := None, None, None;
    }

    /** The four-way decision; `kept` names the samples kept so far. */
    method Consider(root: Report, ghost kept: seq<Report>) returns (post: bool)
      requires Holds() == Remembered(kept)
      modifies this
      ensures post == Keeps(kept, root)
      ensures Holds() == Remembered(if post then kept + [root] else kept)
    {
      RememberedAppends(kept, root);
      if diskStore == root.disk && memoryStore == root.memory && root.docker.Some? && dockerStore == root.docker {
        return false;
      } else if diskStore == root.disk && memoryStore == root.memory && root.docker.Some? {
        return false;
      } else if root.docker.Some? {
        diskStore := root.disk;
        memoryStore := root.memory;
        dockerStore := root.docker;
      } else {
        diskStore := root.disk;
        memoryStore := root.memory;
      }
      return true;
    }
  }

  /** One exchange with the servlet; the agent's URL has no query. */
  method Post(root: Report, s: Service, db: Database) returns (response: string)
    modifies db
    ensures db.Contents() == Run(Executed(Object(root), s.failing), old(db.Contents()))
    ensures response == Response(root, s)
  {
    var reply := DoPost(None, Object(root), s.failing, db, s.file);
    response := if reply.Some? then s.head + reply.value else s.head;
  }

  /** The rest of an iteration after a sample is kept; `alive` is false when reading the reply throws. */
  method Exchange(root: Report, s: Service, db: Database) returns (alive: bool, started: seq<string>)
    modifies db
    ensures db.Contents() == Run(Executed(Object(root), s.failing), old(db.Contents()))
    ensures started == Started(root, s)
    ensures alive <==> |Response(root, s)| >= 13
  {
    var response := Post(root, s, db);
    var image := Extract(response);
    ExtractCases(response);
    alive := image.Some?;
    started := if image.Some? && image.value != "null" then [image.value] else [];
  }

  /** Sample i was kept and its response was too short to read. */
  ghost predicate CrashedAt(samples: seq<Report>, services: seq<Service>, i: int)
    requires |samples| <= |services|
  {
    0 <= i < |samples| && Keeps(Kept(samples[..i]), samples[i]) && |Response(samples[i], services[i])| < 13
  }

  /** None of the first n iterations crashed. */
  ghost predicate Survives(samples: seq<Report>, services: seq<Service>, n: nat)
    requires |samples| <= |services|
  {
    forall i :: 0 <= i < n ==> !CrashedAt(samples, services, i)
  }

  lemma SurvivesOneMore(samples: seq<Report>, services: seq<Service>, n: nat)
    requires |samples| <= |services| && Survives(samples, services, n) && !CrashedAt(samples, services, n)
    ensures Survives(samples, services, n + 1)
  {
    forall i | 0 <= i < n + 1 ensures !CrashedAt(samples, services, i) {
      if i == n {
      } else {
        assert i < n;
      }
    }
  }

  /** One iteration: decide and, unless the sample is skipped, post it and read the reply. */
  method Iterate(agent: Agent, root: Report, s: Service, db: Database, ghost kept: seq<Report>, ghost plans: seq<Plan>,
                 ghost t0: Tables)
      returns (alive: bool, started: seq<string>)
    requires agent.Holds() == Remembered(kept) && db.Contents() == RunPlans(plans, t0)
    modifies agent, db
    ensures agent.Holds() == Remembered(if Keeps(kept, root) then kept + [root] else kept)
    ensures db.Contents() ==
            RunPlans(if Keeps(kept, root) then plans + [PlanWith(Object(root), s.failing)] else plans, t0)
    ensures started == if Keeps(kept, root) then Started(root, s) else []
    ensures alive <==> !(Keeps(kept, root) && |Response(root, s)| < 13)
  {
    var post := agent.Consider(root, kept);
    PostAppends(plans, PlanWith(Object(root), s.failing), t0);
    ExecutedIsProgram(Object(root), s.failing);
    if post {
      alive, started := Exchange(root, s, db);
    } else {
      alive, started := true, [];
    }
  }

  /** What the first n iterations kept, posted and started. */
  ghost predicate Through(samples: seq<Report>, services: seq<Service>, n: nat,
                          kept: seq<Report>, plans: seq<Plan>, deployed: seq<string>)
    requires n <= |samples| <= |services|
  {
    && kept == Kept(samples[..n]) && plans == Posted(samples[..n], services)
    && deployed == Deployed(samples[..n], services)
  }

  lemma NothingYet(samples: seq<Report>, services: seq<Service>)
    requires |samples| <= |services|
    ensures Through(samples, services, 0, [], [], [])
  {
    assert samples[..0] == [];
  }

  /** What iteration n adds, and whether it crashes. */
  lemma NextIteration(samples: seq<Report>, services: seq<Service>, n: nat,
                      kept: seq<Report>, plans: seq<Plan>, deployed: seq<string>)
    requires n < |samples| <= |services| && Through(samples, services, n, kept, plans, deployed)
    ensures var root, s := samples[n], services[n];
            && (CrashedAt(samples, services, n) <==> Keeps(kept, root) && |Response(root, s)| < 13)
            && if Keeps(kept, root)
               then Through(samples, services, n + 1, kept + [root], plans + [PlanWith(Object(root), s.failing)],
                            deployed + Started(root, s))
               else Through(samples, services, n + 1, kept, plans, deployed)
  {
    assert samples[..n + 1][..n] == samples[..n];
  }

  /** Iteration n of the loop. */
  method IterateAt(agent: Agent, samples: seq<Report>, services: seq<Service>, n: nat, db: Database, ghost t0: Tables,
                   ghost kept: seq<Report>, ghost plans: seq<Plan>, deployed: seq<string>)
      returns (alive: bool, ghost kept': seq<Report>, ghost plans': seq<Plan>, deployed': seq<string>)
    requires n < |samples| <= |services| && Through(samples, services, n, kept, plans, deployed)
    requires agent.Holds() == Remembered(kept) && db.Contents() == RunPlans(plans, t0)
    modifies agent, db
    ensures Through(samples, services, n + 1, kept', plans', deployed')
    ensures agent.Holds() == Remembered(kept') && db.Contents() == RunPlans(plans', t0)
    ensures alive <==> !CrashedAt(samples, services, n)
  {
    NextIteration(samples, services, n, kept, plans, deployed);
    var started;
    alive, started := Iterate(agent, samples[n], services[n], db, kept, plans, t0);
    kept' := if Keeps(kept, samples[n]) then kept + [samples[n]] else kept;
    plans' := if Keeps(kept, samples[n]) then plans + [PlanWith(Object(samples[n]), services[n].failing)] else plans;
    deployed' := deployed + started;
    assert deployed + [] == deployed;
  }

  /** `timerControl` over a finite stream of samples, every post delivered and processed before the next sample.
      `n` counts the iterations begun; the loop is left by the first exception that `Extract` stands for. */
  method TimerControl(samples: seq<Report>, services: seq<Service>, db: Database)
      returns (n: nat, ghost kept: seq<Report>, ghost posted: seq<Plan>, deployed: seq<string>)
    requires |samples| == |services|
    modifies db
    ensures n <= |samples| && kept == Kept(samples[..n]) && posted == Posted(samples[..n], services)
    ensures db.Contents() == RunPlans(posted, old(db.Contents()))
    ensures deployed == Deployed(samples[..n], services)
    ensures n == |samples| || CrashedAt(samples, services, n - 1)
    ensures n == 0 || Survives(samples, services, n - 1)
  {
    ghost var t0 := db.Contents();
    var agent := new Agent();
    NothingYet(samples, services);
    n, kept, posted, deployed := 0, [], [], [];
    while n < |samples|
      invariant n <= |samples| && Through(samples, services, n, kept, posted, deployed)
      invariant fresh(agent) && agent.Holds() == Remembered(kept) && db.Contents() == RunPlans(posted, t0)
      invariant Survives(samples, services, n) && (n == 0 || Survives(samples, services, n - 1))
    {
      var alive;
      alive, kept, posted, deployed := IterateAt(agent, samples, services, n, db, t0, kept, posted, deployed);
      n := n + 1;
      if !alive {
        return;
      }
      SurvivesOneMore(samples, services, n - 1);
    }
  }

  /** Every kept sample: with a reply the agent starts the directive, unless that is the text "null". Without one, as
      when the servlet fails, it starts whatever follows position 13 of the error page, though nobody granted it. */
  lemma StartedCases(root: Report, s: Service)
    requires !Contains(s.head, MARKER)
    ensures Started(root, s) ==
            if Replied(root, s) then (if DirectiveFor(root, s) == "null" then [] else [DirectiveFor(root, s)])
            else if |s.head| < 13 || s.head[13..] == "null" then [] else [s.head[13..]]
  {
    if Replied(root, s) {
      ResponseText(root, s);
      ReplyRoundTrip(s.head, DirectiveFor(root, s));
    } else {
      ExtractCases(s.head);
    }
  }

  /** An image starts exactly when the first entry granting the machine names it, or the error page of a failed
      exchange spells it. */
  lemma DeployIff(root: Report, s: Service, image: string)
    requires !Contains(s.head, MARKER)
    ensures Started(root, s) == [image] <==>
            && image != "null"
            && if Replied(root, s)
               then exists i: nat :: FirstGrant(s.file.value, OutcomeWith(Object(root), s.failing).macId, i) &&
                                     s.file.value[i].address == image
               else |s.head| >= 13 && image == s.head[13..]
  {
    StartedCases(root, s);
    if Replied(root, s) {
      DirectiveIsFirstGrant(s.file.value, OutcomeWith(Object(root), s.failing).macId);
    }
  }

  lemma ResponseText(root: Report, s: Service)
    requires Replied(root, s)
    ensures Response(root, s) == s.head + WELCOME + "\n" + DirectiveFor(root, s)
  {
  }

  lemma OneMore(samples: seq<Report>, services: seq<Service>)
    requires samples != [] && |samples| <= |services|
    ensures var front := samples[..|samples| - 1];
            Kept(front) <= Kept(samples) && Posted(front, services) <= Posted(samples, services) &&
            Deployed(front, services) <= Deployed(samples, services)
  {
  }

  /** Later iterations change nothing of what was kept, posted and started before them: they only add to it. */
  lemma {:induction false} HistoryOnlyGrows(samples: seq<Report>, services: seq<Service>, n: nat)
    requires n <= |samples| <= |services|
    ensures Kept(samples[..n]) <= Kept(samples)
    ensures Posted(samples[..n], services) <= Posted(samples, services)
    ensures Deployed(samples[..n], services) <= Deployed(samples, services)
  {
    if n == |samples| {
      assert samples[..n] == samples;
    } else {
      var front := samples[..|samples| - 1];
      HistoryOnlyGrows(front, services, n);
      assert front[..n] == samples[..n];
      OneMore(samples, services);
    }
  }

  // ----- the agent and the store together

  function AllStatements(plans: seq<Plan>): seq<Stmt> {
    if plans == [] then [] else AllStatements(plans[..|plans| - 1]) + Program(plans[|plans| - 1])
  }

  lemma {:induction false} RunPlansIsRun(plans: seq<Plan>, t: Tables)
    ensures RunPlans(plans, t) == Run(AllStatements(plans), t)
  {
    if plans == [] {
    } else {
      var front := plans[..|plans| - 1];
      RunPlansIsRun(front, t);
      RunConcat(AllStatements(front), Program(plans[|plans| - 1]), t);
    }
  }

  ghost predicate AllOf(plans: seq<Plan>, id: real) {
    forall i :: 0 <= i < |plans| ==> plans[i].Replace? && plans[i].id == id
  }

  lemma {:induction false} AllStatementsBelong(plans: seq<Plan>, id: real)
    requires AllOf(plans, id)
    ensures forall i :: 0 <= i < |AllStatements(plans)| ==> AllStatements(plans)[i].Id() == id
  {
    if plans == [] {
    } else {
      AllStatementsBelong(plans[..|plans| - 1], id);
    }
  }

  /** A machine's rows depend only on its own reports, wherever other machines' statements ran. */
  lemma OwnReportsDecide(plans: seq<Plan>, id: real, trace: seq<Stmt>, t: Tables, k: Table)
    requires AllOf(plans, id) && plans != [] && OnlyStmts(trace, id) == AllStatements(plans)
    ensures Only(Run(trace, t).Of(k), id) == Homed(plans[|plans| - 1].rows, k)
  {
    AllStatementsBelong(plans, id);
    OnlyStmtsAll(AllStatements(plans), id, id);
    Locality(trace, t, k, id);
    Locality(AllStatements(plans), t, k, id);
    RunPlansIsRun(plans, t);
    LastWriterWins(plans, t, k, id);
  }

  /** A sample of machine id: one disk record, one memory record. */
  predicate SampleOf(root: Report, id: real) {
    && Machine(Object(root)) == Some(id)
    && root.disk.Some? && |root.disk.value| == 1
    && root.memory.Some? && |root.memory.value| == 1
    && root.location.Some? && |root.location.value| == 1
    && root.timestamp.Some? && |root.timestamp.value| == 1
  }

  /** The machine's one serverinfo row has the sample's disk and memory columns. */
  predicate Shows(rows: seq<Row>, root: Report, id: real)
    requires SampleOf(root, id)
  {
    var disk, memory := root.disk.value[0], root.memory.value[0];
    && |rows| == 1 && rows[0].ServerRow? && rows[0].id == id
    && Capacity(rows[0].diskAvailable, rows[0].diskTotal, rows[0].diskUsed) == disk
    && Capacity(rows[0].memoryAvailable, rows[0].memoryTotal, rows[0].memoryUsed) == memory
  }

  lemma OneServerRow(root: Report, id: real)
    requires SampleOf(root, id)
    ensures HasSections(root) ==> ServerRows(id, root) == [ServerRowAt(id, root, 0)] && Complete(root)
  {
  }

  lemma ServerRowsWith(sent: Report, latest: Report, id: real, failing: Option<nat>)
    requires SampleOf(sent, id) && SampleOf(latest, id) && sent.disk == latest.disk && sent.memory == latest.memory
    ensures Shows(StoredWith(id, sent, failing).server, latest, id) <==> HasSections(sent) && failing != Some(0)
  {
    OneServerRow(sent, id);
  }

  /** The sample last posted, if any. */
  function LastPost(samples: seq<Report>): (last: Option<nat>)
    ensures last.Some? ==> last.value < |samples|
  {
    if samples == [] then None
    else
      var n := |samples| - 1;
      if Keeps(Kept(samples[..n]), samples[n]) then Some(n) else LastPost(samples[..n])
  }

  lemma {:induction false} LastPostDecides(samples: seq<Report>, services: seq<Service>)
    requires |samples| <= |services|
    ensures var kept, plans, last := Kept(samples), Posted(samples, services), LastPost(samples);
            if last.None? then kept == [] && plans == []
            else
              && kept != [] && kept[|kept| - 1] == samples[last.value]
              && plans != []
              && plans[|plans| - 1] == PlanWith(Object(samples[last.value]), services[last.value].failing)
  {
    if samples == [] {
    } else {
      LastPostDecides(samples[..|samples| - 1], services);
    }
  }

  lemma PlanIsOwn(root: Report, id: real, failing: Option<nat>)
    requires Machine(Object(root)) == Some(id)
    ensures var p := PlanWith(Object(root), failing); p.Replace? && p.id == id
  {
  }

  lemma {:induction false} PostedAreOwn(samples: seq<Report>, services: seq<Service>, id: real)
    requires |samples| <= |services| && forall i :: 0 <= i < |samples| ==> SampleOf(samples[i], id)
    ensures AllOf(Posted(samples, services), id)
  {
    if samples == [] {
    } else {
      var n := |samples| - 1;
      PostedAreOwn(samples[..n], services, id);
      PlanIsOwn(samples[n], id, services[n].failing);
    }
  }

  /** The agent of machine id has taken these samples and every post has been processed, some up to a failing insert,
      while the statements of other machines ran anywhere in between. */
  ghost predicate AgentRan(samples: seq<Report>, services: seq<Service>, id: real, trace: seq<Stmt>) {
    && samples != [] && |samples| <= |services|
    && (forall i :: 0 <= i < |samples| ==> SampleOf(samples[i], id))
    && OnlyStmts(trace, id) == AllStatements(Posted(samples, services))
  }

  lemma SomethingIsPosted(samples: seq<Report>, services: seq<Service>)
    requires samples != [] && |samples| <= |services| && forall i :: 0 <= i < |samples| ==> samples[i].disk.Some?
    ensures LastPost(samples).Some?
    ensures var sent, latest := samples[LastPost(samples).value], samples[|samples| - 1];
            && sent.disk == latest.disk && sent.memory == latest.memory
            && (sent == latest || latest.docker.Some?)
  {
    KeptShowsLatest(samples);
    LastPostDecides(samples, services);
  }

  /** All three tables hold what the last posted sample inserted. */
  lemma OwnRows(samples: seq<Report>, services: seq<Service>, id: real, trace: seq<Stmt>, t: Tables, k: Table)
    requires AgentRan(samples, services, id, trace)
    ensures LastPost(samples).Some?
    ensures var last := LastPost(samples).value;
            Only(Run(trace, t).Of(k), id) == StoredWith(id, samples[last], services[last].failing).Of(k)
  {
    SomethingIsPosted(samples, services);
    LastPostDecides(samples, services);
    PostedAreOwn(samples, services, id);
    OwnReportsDecide(Posted(samples, services), id, trace, t, k);
    var last := LastPost(samples).value;
    RowsPerTableWith(id, samples[last], services[last].failing, k);
  }

  /** Whole system. The machine's serverinfo row shows the latest sample, posted or skipped, exactly when the last
      posted sample had every section the servlet reads and its first insert did not fail. */
  lemma StoreShowsLatest(samples: seq<Report>, services: seq<Service>, id: real, trace: seq<Stmt>, t: Tables)
    requires AgentRan(samples, services, id, trace)
    ensures LastPost(samples).Some?
    ensures var last, latest := LastPost(samples).value, samples[|samples| - 1];
            Shows(Only(Run(trace, t).server, id), latest, id) <==>
            HasSections(samples[last]) && services[last].failing != Some(0)
  {
    SomethingIsPosted(samples, services);
    OwnRows(samples, services, id, trace, t, ServerInfo);
    var last := LastPost(samples).value;
    ServerRowsWith(samples[last], samples[|samples| - 1], id, services[last].failing);
  }
}
