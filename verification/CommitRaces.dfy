/** When appends may be issued at the same time: exactly if no proxy of the new append still expects another stripe's
    connection. Otherwise that connection can be taken for the new append's, and a default-constructed entry is committed. */
module CommitRaces {
  import opened Arithmetic
  import opened Generators
  import opened NodePlacement
  import opened ConfigCapacity
  import opened ParitySlices
  import opened AppendPlan
  import opened ClientAppend
  import opened CommitProtocol

  ghost predicate AllRight(states: seq<State>, steps: seq<Step>)
    requires |states| == |steps| + 1
  {
    forall i :: 0 <= i < |steps| ==> StepRight(states[i], steps[i])
  }

  lemma CarefulIsRight(states: seq<State>, steps: seq<Step>, proxy: Key -> nat)
    requires IsRun(states, steps, proxy) && Careful(states, steps, proxy)
    ensures AllRight(states, steps)
  {
    hide StepRight, Careful, Does, WaitRight, ReportRight;
    forall i | 0 <= i < |steps| ensures StepRight(states[i], steps[i]) {
      EachIsRight(states, steps, proxy, i);
    }
  }

  lemma EachIsRight(states: seq<State>, steps: seq<Step>, proxy: Key -> nat, i: nat)
    requires IsRun(states, steps, proxy) && Careful(states, steps, proxy) && i < |steps|
    ensures StepRight(states[i], steps[i])
  {
    hide IsRun, Careful, WaitRight, ReportRight;
    if steps[i].WaitEndsStep? {
      WaitsAreRight(states, steps, proxy, i);
    }
    if steps[i].ReportStep? {
      ReportsAreRight(states, steps, proxy, i);
    }
  }

  // ----- going on without new appends

  ghost predicate IsPath(states: seq<State>, steps: seq<Step>, s: State, t: State, proxy: Key -> nat) {
    && |states| == |steps| + 1 && states[0] == s && states[|steps|] == t
    && forall i :: 0 <= i < |steps| ==> Does(states[i], states[i + 1], steps[i], proxy) && !steps[i].IssueStep?
  }

  ghost predicate Leads(s: State, t: State, proxy: Key -> nat) {
    exists states, steps :: IsPath(states, steps, s, t, proxy)
  }

  lemma Stays(s: State, proxy: Key -> nat)
    ensures Leads(s, s, proxy)
  {
    assert IsPath([s], [], s, s, proxy);
  }

  lemma OneStep(s: State, t: State, step: Step, proxy: Key -> nat)
    requires Does(s, t, step, proxy) && !step.IssueStep?
    ensures Leads(s, t, proxy)
  {
    hide Does;
    assert IsPath([s, t], [step], s, t, proxy);
  }

  lemma Then(s: State, t: State, u: State, proxy: Key -> nat)
    requires Leads(s, t, proxy) && Leads(t, u, proxy)
    ensures Leads(s, u, proxy)
  {
    hide Does;
    var xs, ps :| IsPath(xs, ps, s, t, proxy);
    var ys, qs :| IsPath(ys, qs, t, u, proxy);
    var zs: seq<State>, rs: seq<Step> := xs + ys[1..], ps + qs;
    forall i | 0 <= i < |rs| ensures Does(zs[i], zs[i + 1], rs[i], proxy) && !rs[i].IssueStep? {
      if i >= |ps| {
        assert zs[i] == ys[i - |ps|] && zs[i + 1] == ys[i - |ps| + 1];
      }
    }
    assert IsPath(zs, rs, s, u, proxy);
  }

  // ----- bringing an append forward

  /** The next point of the notification of a job. */
  function Raise(j: Job): Job {
    match j.notify
    case Planned => j.(notify := Erased)
    case Erased => j.(notify := Scheduled, thread := Listening)
    case Scheduled => j.(notify := Registered)
    case Registered => j
  }

  /** All jobs of the append that were at the given point have gone on to the next one. */
  ghost predicate Raised(s: State, t: State, append: nat, from: Notify) {
    && t.count == s.count && t.jobs.Keys == s.jobs.Keys
    && (forall id :: id in s.jobs ==>
         t.jobs[id] == if id.append == append && s.jobs[id].notify == from then Raise(s.jobs[id]) else s.jobs[id])
    && TablesKept(s, t, append) && (from != Scheduled ==> t.updating == s.updating)
  }

  /** Only keys of the append can be new in the table of updates, only planned ones can be gone from the commits. */
  ghost predicate TablesKept(s: State, t: State, append: nat) {
    && (forall k :: k in t.updating ==> k in s.updating || Id(append, k) in s.jobs)
    && forall k :: k in s.committed && (Id(append, k) in s.jobs ==> s.jobs[Id(append, k)].notify != Planned) ==>
         k in t.committed && t.committed[k] == s.committed[k]
  }

  /** The state after one job of the append has gone on. */
  function RaiseOne(s: State, id: Id): State
    requires id in s.jobs
  {
    var jobs := s.jobs[id := Raise(s.jobs[id])];
    match s.jobs[id].notify
    case Planned => s.(jobs := jobs, committed := s.committed - {id.key})
    case Scheduled => s.(jobs := jobs, updating := s.updating[id.key := s.jobs[id].entry])
    case _ => s.(jobs := jobs)
  }

  lemma RaiseOneLeads(s: State, id: Id, proxy: Key -> nat)
    requires id in s.jobs && s.jobs[id].notify != Registered
    requires s.jobs[id].notify == Erased ==> AllReach(s, id.append, {Erased, Scheduled, Registered})
    ensures Leads(s, RaiseOne(s, id), proxy)
  {
    var next := RaiseOne(s, id);
    match s.jobs[id].notify
    case Planned => OneStep(s, next, EraseStep(id), proxy);
    case Erased => OneStep(s, next, ScheduleStep(id), proxy);
    case Scheduled => OneStep(s, next, RegisterStep(id), proxy);
  }

  function AtPoint(s: State, append: nat, from: Notify): set<Id> {
    set id | id in s.jobs && id.append == append && s.jobs[id].notify == from
  }

  lemma {:induction false} RaiseAll(s: State, append: nat, from: Notify, proxy: Key -> nat) returns (t: State)
    requires from != Registered && (from == Erased ==> AllReach(s, append, {Erased, Scheduled, Registered}))
    ensures Leads(s, t, proxy) && Raised(s, t, append, from)
    decreases |AtPoint(s, append, from)|
  {
    hide Leads, AllReach, Raised, RaiseOne;
    if AtPoint(s, append, from) == {} {
      t := s;
      Stays(s, proxy);
      NothingRaised(s, append, from);
    } else {
      var id :| id in AtPoint(s, append, from);
      var next := RaiseOne(s, id);
      RaiseOneLeads(s, id, proxy);
      RaiseOneEffect(s, id, append, from);
      t := RaiseAll(next, append, from, proxy);
      Then(s, next, t, proxy);
      RaiseOneKeeps(s, t, id, append, from);
    }
  }

  lemma NothingRaised(s: State, append: nat, from: Notify)
    requires AtPoint(s, append, from) == {}
    ensures Raised(s, s, append, from)
  {
    forall id | id in s.jobs && id.append == append ensures s.jobs[id].notify != from {
      assert id !in AtPoint(s, append, from);
    }
  }

  lemma RaiseOneEffect(s: State, id: Id, append: nat, from: Notify)
    requires id in AtPoint(s, append, from) && from != Registered
    requires from == Erased ==> AllReach(s, append, {Erased, Scheduled, Registered})
    ensures AtPoint(RaiseOne(s, id), append, from) == AtPoint(s, append, from) - {id}
    ensures from == Erased ==> AllReach(RaiseOne(s, id), append, {Erased, Scheduled, Registered})
  {
  }

  lemma RaiseOneKeeps(s: State, t: State, id: Id, append: nat, from: Notify)
    requires id in AtPoint(s, append, from) && from != Registered && Raised(RaiseOne(s, id), t, append, from)
    ensures Raised(s, t, append, from)
  {
    hide TablesKept;
    RaiseOneTables(s, t, id, append, from);
    assert RaiseOne(s, id).jobs[id] == Raise(s.jobs[id]) && Raise(s.jobs[id]).notify != from;
  }

  lemma RaiseOneTables(s: State, t: State, id: Id, append: nat, from: Notify)
    requires id in AtPoint(s, append, from) && from != Registered && TablesKept(RaiseOne(s, id), t, append)
    ensures TablesKept(s, t, append)
  {
    assert id == Id(append, id.key);
  }

  /** All jobs of the append are registered; the other ones are as before. */
  ghost predicate AppendRegistered(s: State, t: State, append: nat) {
    && t.count == s.count && t.jobs.Keys == s.jobs.Keys
    && (forall id :: id in s.jobs ==>
         t.jobs[id] == if id.append == append then RaisedFully(s.jobs[id]) else s.jobs[id])
    && TablesKept(s, t, append)
  }

  function RaisedFully(j: Job): Job {
    if j.notify in {Planned, Erased} then j.(notify := Registered, thread := Listening) else j.(notify := Registered)
  }

  lemma RegisterAppend(s: State, append: nat, proxy: Key -> nat) returns (t: State)
    ensures Leads(s, t, proxy) && AppendRegistered(s, t, append) && AllReach(t, append, {Registered})
  {
    hide Leads, Raised, AllReach, AppendRegistered;
    var t1 := RaiseAll(s, append, Planned, proxy);
    AllErased(s, t1, append);
    var t2 := RaiseAll(t1, append, Erased, proxy);
    t := RaiseAll(t2, append, Scheduled, proxy);
    Then(s, t1, t2, proxy);
    Then(s, t2, t, proxy);
    AllRegistered(s, t1, t2, t, append);
  }

  lemma AllErased(s: State, t: State, append: nat)
    requires Raised(s, t, append, Planned)
    ensures AllReach(t, append, {Erased, Scheduled, Registered})
  {
  }

  lemma AllRegistered(s: State, t1: State, t2: State, t: State, append: nat)
    requires Raised(s, t1, append, Planned) && Raised(t1, t2, append, Erased) && Raised(t2, t, append, Scheduled)
    ensures AppendRegistered(s, t, append) && AllReach(t, append, {Registered})
  {
    hide TablesKept;
    forall id | id in s.jobs
      ensures t.jobs[id] == if id.append == append then RaisedFully(s.jobs[id]) else s.jobs[id]
      ensures s.jobs[id].notify != Planned ==> t1.jobs[id].notify != Planned && t2.jobs[id].notify != Planned
    {
      assert id in t1.jobs && id in t2.jobs;
    }
    TablesKeptTwice(s, t1, t2, append);
    TablesKeptTwice(s, t2, t, append);
  }

  lemma TablesKeptTwice(s: State, t: State, u: State, append: nat)
    requires TablesKept(s, t, append) && TablesKept(t, u, append) && t.jobs.Keys == s.jobs.Keys
    requires forall id :: id in s.jobs && s.jobs[id].notify != Planned ==> t.jobs[id].notify != Planned
    ensures TablesKept(s, u, append)
  {
  }

  // ----- what goes wrong

  /** Append b's connection is not taken yet, and `a` is a job of a new append at its proxy. */
  ghost predicate Race(s: State, a: Id, b: Id, proxy: Key -> nat) {
    && a in s.jobs && b in s.jobs && a.append != b.append && a.key.stripe != b.key.stripe && proxy(a.key) == proxy(b.key)
    && s.jobs[a] == Job(s.jobs[a].entry, Planned, Unsent, NoThread, false, false)
    && (forall id :: id in s.jobs && id.append == a.append ==> s.jobs[id].notify == Planned)
    && (forall id :: id in s.jobs && id.append == b.append ==> id.key.stripe == b.key.stripe)
    && a.key !in s.updating
  }

  ghost predicate Unaccepted(j: Job) {
    && !j.reported && j.client != Done && (j.pending <==> j.client == Sent)
    && j.thread == if j.notify in {Planned, Erased} then NoThread else Listening
  }

  /** b's client connects. */
  lemma Connect(s: State, a: Id, b: Id, proxy: Key -> nat) returns (t: State)
    requires Race(s, a, b, proxy) && Unaccepted(s.jobs[b])
    ensures Leads(s, t, proxy) && Race(t, a, b, proxy) && t.jobs[a] == s.jobs[a]
    ensures t.jobs[b].pending && t.jobs[b].thread == Listening
  {
    hide Leads;
    var s1 := RegisterAppend(s, b.append, proxy);
    assert s1.jobs[a] == s.jobs[a];
    assert Id(b.append, a.key) !in s.jobs;
    if s.jobs[b].client == Sent {
      t := s1;
    } else {
      t := s1.(jobs := s1.jobs[b := s1.jobs[b].(client := Sent, pending := true)]);
      OneStep(s1, t, SendStep(b), proxy);
      Then(s, s1, t, proxy);
    }
  }

  /** a's thread takes b's connection and reports before a is registered. */
  lemma TakeOver(s: State, a: Id, b: Id, proxy: Key -> nat) returns (t: State)
    requires Race(s, a, b, proxy) && s.jobs[b].pending
    ensures Leads(s, t, proxy) && a in t.jobs && t.jobs[a] == s.jobs[a].(notify := Scheduled, reported := true)
    ensures a.key in t.committed && t.committed[a.key] == DEFAULT_ENTRY
  {
    hide Leads;
    var s1 := RaiseAll(s, a.append, Planned, proxy);
    Unchanged(s, s1, a, b);
    var s2 := s1.(jobs := s1.jobs[a := s1.jobs[a].(notify := Scheduled, thread := Listening)]);
    OneStep(s1, s2, ScheduleStep(a), proxy);
    var taken := s2.jobs[b := s2.jobs[b].(pending := false)];
    var s3 := s2.(jobs := taken[a := taken[a].(thread := Got(b))]);
    OneStep(s2, s3, AcceptStep(a, b), proxy);
    t := s3.(jobs := s3.jobs[a := s3.jobs[a].(thread := NoThread, reported := true)],
      committed := s3.committed[a.key := DEFAULT_ENTRY], updating := s3.updating - {a.key});
    OneStep(s3, t, ReportStep(a), proxy);
    Then(s, s1, s2, proxy);
    Then(s, s2, s3, proxy);
    Then(s, s3, t, proxy);
  }

  lemma Unchanged(s: State, t: State, a: Id, b: Id)
    requires a in s.jobs && b in s.jobs && a.append != b.append && a.key !in s.updating && Raised(s, t, a.append, Planned)
    requires forall id :: id in s.jobs && id.append == a.append ==> s.jobs[id].notify == Planned
    ensures t.jobs.Keys == s.jobs.Keys && t.jobs[b] == s.jobs[b] && t.jobs[a] == s.jobs[a].(notify := Erased)
    ensures AllReach(t, a.append, {Erased, Scheduled, Registered})
  {
  }

  /** a's client is told that all is well, although its data has not arrived. */
  lemma Finish(s: State, a: Id, proxy: Key -> nat) returns (u: State, t: State)
    requires a in s.jobs && s.jobs[a].notify == Scheduled && s.jobs[a].reported && s.jobs[a].client == Unsent
    requires s.jobs[a].entry.size > 0 && a.key in s.committed && s.committed[a.key] == DEFAULT_ENTRY
    ensures Leads(s, u, proxy) && WaitEnds(u, t, a) && !WaitRight(u, a)
  {
    hide Leads;
    var s1 := RegisterAppend(s, a.append, proxy);
    assert a == Id(a.append, a.key);
    u := s1.(jobs := s1.jobs[a := s1.jobs[a].(client := Sent, pending := true)]);
    OneStep(s1, u, SendStep(a), proxy);
    Then(s, s1, u, proxy);
    t := u.(jobs := u.jobs[a := u.jobs[a].(client := Done)]);
  }

  lemma RaceFails(s: State, a: Id, b: Id, proxy: Key -> nat) returns (u: State, t: State)
    requires Race(s, a, b, proxy) && Unaccepted(s.jobs[b]) && s.jobs[a].entry.size > 0
    ensures Leads(s, u, proxy) && WaitEnds(u, t, a) && !WaitRight(u, a)
  {
    hide Leads, Race, Unaccepted, WaitEnds, WaitRight;
    RaceJobs(s, a, b, proxy);
    var s1 := Connect(s, a, b, proxy);
    RaceJobs(s1, a, b, proxy);
    var s2 := TakeOver(s1, a, b, proxy);
    u, t := Finish(s2, a, proxy);
    Then(s, s1, s2, proxy);
    Then(s, s2, u, proxy);
  }

  lemma RaceJobs(s: State, a: Id, b: Id, proxy: Key -> nat)
    requires Race(s, a, b, proxy)
    ensures a in s.jobs && b in s.jobs && s.jobs[a].client == Unsent
  {
  }

  function AfterIssue(s: State, plan: map<Key, Entry>): State {
    s.(count := s.count + 1, jobs := s.jobs + NewJobs(s.count, plan))
  }

  /** Issuing an append whose proxy still expects another stripe's connection sets up the race. */
  lemma IssueRaces(s: State, plan: map<Key, Entry>, proxy: Key -> nat) returns (a: Id, b: Id)
    requires Inv(s, proxy) && ValidPlan(plan, proxy) && OwnDone(s, plan) && !Clear(s, plan, proxy)
    ensures var issued := AfterIssue(s, plan);
      Race(issued, a, b, proxy) && Unaccepted(issued.jobs[b]) && issued.jobs[a].entry.size > 0
  {
    hide Inv, Local, Tracked, Ordered, ValidPlan, AfterIssue, Race, Unaccepted, Accepted;
    var k;
    b, k :| b in s.jobs && k in plan && b.key.stripe != k.stripe && proxy(b.key) == proxy(k) && !Accepted(s.jobs[b]);
    a := Id(s.count, k);
    Below(s, proxy);
    NotExpected(s, plan, k, proxy);
    IsIssue(s, plan, proxy);
    Issued(s, AfterIssue(s, plan), plan, proxy);
    NotTaken(s, b);
    InRace(s, AfterIssue(s, plan), plan, a, b, proxy);
  }

  lemma IsIssue(s: State, plan: map<Key, Entry>, proxy: Key -> nat)
    requires ValidPlan(plan, proxy)
    ensures Issue(s, AfterIssue(s, plan), plan, proxy)
  {
  }

  lemma NotTaken(s: State, b: Id)
    requires b in s.jobs && Local(s, b) && !Accepted(s.jobs[b])
    ensures Unaccepted(s.jobs[b])
  {
    hide AllReach, Latest;
  }

  lemma InRace(s: State, issued: State, plan: map<Key, Entry>, a: Id, b: Id, proxy: Key -> nat)
    requires Issue(s, issued, plan, proxy) && a.append == s.count && a.key in plan && b in s.jobs && Spread(s, proxy)
    requires a.key.stripe != b.key.stripe && proxy(a.key) == proxy(b.key) && a.key !in s.updating
    requires forall id :: id in s.jobs ==> id.append < s.count && id in issued.jobs && issued.jobs[id] == s.jobs[id]
    requires forall id :: id in issued.jobs && id !in s.jobs ==> id.append == s.count && id.key in plan
    ensures Race(issued, a, b, proxy) && issued.jobs[a].entry.size > 0 && issued.jobs[b] == s.jobs[b]
  {
    forall id | id in issued.jobs && id.append == b.append ensures id.key.stripe == b.key.stripe {
      assert id in s.jobs;
    }
  }

  lemma NotExpected(s: State, plan: map<Key, Entry>, k: Key, proxy: Key -> nat)
    requires Inv(s, proxy) && OwnDone(s, plan) && k in plan
    ensures k !in s.updating
  {
    hide AllReach, Latest, Spread, Ordered;
  }

  /** The run goes on with the append and whatever else, but issues nothing more. */
  ghost predicate GoesOn(states: seq<State>, steps: seq<Step>, plan: map<Key, Entry>, longer: seq<State>, more: seq<Step>) {
    && |longer| == |more| + 1 && states <= longer && steps + [IssueStep(plan)] <= more
    && forall i :: |steps| < i < |more| ==> !more[i].IssueStep?
  }

  lemma Lengthened(states: seq<State>, steps: seq<Step>, s: State, plan: map<Key, Entry>, u: State, t: State, a: Id,
      proxy: Key -> nat)
    returns (longer: seq<State>, more: seq<Step>)
    requires IsRun(states, steps, proxy) && states[|steps|] == s && ValidPlan(plan, proxy)
    requires Leads(AfterIssue(s, plan), u, proxy) && WaitEnds(u, t, a)
    ensures IsRun(longer, more, proxy) && GoesOn(states, steps, plan, longer, more)
    ensures |longer| == |more| + 1 && |more| > 0 && more[|more| - 1] == WaitEndsStep(a) && longer[|more| - 1] == u
  {
    hide IsRun, WaitEnds, AfterIssue, ValidPlan;
    IsIssue(s, plan, proxy);
    var first := AfterIssue(s, plan);
    var xs, ps :| IsPath(xs, ps, first, u, proxy);
    hide IsPath;
    RunLengths(states, steps, proxy);
    OneMoreStep(states, steps, first, IssueStep(plan), proxy);
    AlongPath(states + [first], steps + [IssueStep(plan)], xs, ps, first, u, proxy);
    longer, more := states + [first] + xs[1..], steps + [IssueStep(plan)] + ps;
    OneMoreStep(longer, more, t, WaitEndsStep(a), proxy);
    longer, more := longer + [t], more + [WaitEndsStep(a)];
  }

  lemma RunLengths(states: seq<State>, steps: seq<Step>, proxy: Key -> nat)
    requires IsRun(states, steps, proxy)
    ensures |states| == |steps| + 1
  {
  }

  lemma OneMoreStep(states: seq<State>, steps: seq<Step>, next: State, step: Step, proxy: Key -> nat)
    requires IsRun(states, steps, proxy) && Does(states[|steps|], next, step, proxy)
    ensures IsRun(states + [next], steps + [step], proxy)
  {
    hide Does;
  }

  lemma AlongPath(states: seq<State>, steps: seq<Step>, xs: seq<State>, ps: seq<Step>, s: State, t: State, proxy: Key -> nat)
    requires IsRun(states, steps, proxy) && states[|steps|] == s && IsPath(xs, ps, s, t, proxy)
    ensures |xs| == |ps| + 1 && IsRun(states + xs[1..], steps + ps, proxy) && (states + xs[1..])[|steps + ps|] == t
    ensures forall i :: 0 <= i < |ps| ==> !ps[i].IssueStep?
  {
    hide Does;
    var zs: seq<State>, rs: seq<Step> := states + xs[1..], steps + ps;
    forall i | 0 <= i < |rs| ensures Does(zs[i], zs[i + 1], rs[i], proxy) {
      if i >= |steps| {
        assert zs[i] == xs[i - |steps|] && zs[i + 1] == xs[i - |steps| + 1];
      }
    }
  }

  lemma StillInTurn(states: seq<State>, steps: seq<Step>, plan: map<Key, Entry>, longer: seq<State>, more: seq<Step>)
    requires InTurn(states, steps) && OwnDone(states[|steps|], plan) && GoesOn(states, steps, plan, longer, more)
    ensures InTurn(longer, more)
  {
    hide OwnDone;
    forall i | 0 <= i < |more| && more[i].IssueStep? ensures OwnDone(longer[i], more[i].plan) {
      assert i <= |steps| && longer[i] == states[i] && more[i] == (steps + [IssueStep(plan)])[i];
    }
  }

  /** An append issued to a proxy that is not clear can end with a default-constructed entry. */
  lemma CarelessFails(states: seq<State>, steps: seq<Step>, plan: map<Key, Entry>, proxy: Key -> nat)
    returns (longer: seq<State>, more: seq<Step>)
    requires IsRun(states, steps, proxy) && Careful(states, steps, proxy) && ValidPlan(plan, proxy)
    requires OwnDone(states[|steps|], plan) && !Clear(states[|steps|], plan, proxy)
    ensures IsRun(longer, more, proxy) && GoesOn(states, steps, plan, longer, more) && InTurn(longer, more)
    ensures !AllRight(longer, more)
  {
    hide *;
    InTurnOf(states, steps, proxy);
    var s := states[|steps|];
    RunKeeps(states, steps, proxy, |steps|);
    var a, b := IssueRaces(s, plan, proxy);
    var u, t := RaceFails(AfterIssue(s, plan), a, b, proxy);
    longer, more := Lengthened(states, steps, s, plan, u, t, a, proxy);
    StillInTurn(states, steps, plan, longer, more);
    LastWrong(longer, more, u, a);
  }

  lemma InTurnOf(states: seq<State>, steps: seq<Step>, proxy: Key -> nat)
    requires Careful(states, steps, proxy)
    ensures InTurn(states, steps) && |states| == |steps| + 1
  {
  }

  lemma LastWrong(longer: seq<State>, more: seq<Step>, u: State, a: Id)
    requires |longer| == |more| + 1 && |more| > 0 && more[|more| - 1] == WaitEndsStep(a) && longer[|more| - 1] == u
    requires !WaitRight(u, a)
    ensures !AllRight(longer, more)
  {
    hide WaitRight, ReportRight;
    assert !StepRight(longer[|more| - 1], more[|more| - 1]);
  }

  lemma StillCareful(states: seq<State>, steps: seq<Step>, plan: map<Key, Entry>, longer: seq<State>, more: seq<Step>,
      proxy: Key -> nat)
    requires Careful(states, steps, proxy) && GoesOn(states, steps, plan, longer, more)
    requires OwnDone(states[|steps|], plan) && Clear(states[|steps|], plan, proxy)
    ensures Careful(longer, more, proxy)
  {
    hide OwnDone, Clear;
    forall i | 0 <= i < |more| && more[i].IssueStep?
      ensures OwnDone(longer[i], more[i].plan) && Clear(longer[i], more[i].plan, proxy)
    {
      assert i <= |steps| && longer[i] == states[i] && more[i] == (steps + [IssueStep(plan)])[i];
    }
  }

  /** After a careful run, a client whose turn it is may issue an append exactly if its proxies are clear. */
  lemma SafeToIssue(states: seq<State>, steps: seq<Step>, plan: map<Key, Entry>, proxy: Key -> nat)
    requires IsRun(states, steps, proxy) && Careful(states, steps, proxy) && ValidPlan(plan, proxy)
    requires OwnDone(states[|steps|], plan)
    ensures Clear(states[|steps|], plan, proxy) <==>
      forall longer, more :: IsRun(longer, more, proxy) && GoesOn(states, steps, plan, longer, more) ==> AllRight(longer, more)
  {
    hide ValidPlan, OwnDone, Clear, IsRun, Careful, GoesOn, AllRight;
    RunLengths(states, steps, proxy);
    if Clear(states[|steps|], plan, proxy) {
      forall longer, more | IsRun(longer, more, proxy) && GoesOn(states, steps, plan, longer, more)
        ensures |longer| == |more| + 1 && AllRight(longer, more)
      {
        StillCareful(states, steps, plan, longer, more, proxy);
        InTurnOf(longer, more, proxy);
        CarefulIsRight(longer, more, proxy);
      }
    } else {
      var longer, more := CarelessFails(states, steps, plan, proxy);
    }
  }

  // ----- which stripes can be written at the same time

  /** One proxy for each cluster; groups go round robin over the clusters, starting with the stripe's own. */
  function RoundRobin(clusterNum: nat): Key -> nat
    requires clusterNum > 0
  {
    (k: Key) => ClusterOf(k.stripe, k.group, clusterNum)
  }

  /** Stripes of z groups each with a group in the same cluster. */
  ghost predicate Meet(s: nat, t: nat, z: nat, clusterNum: nat)
    requires clusterNum > 0
  {
    exists g: nat, h: nat | g < z && h < z :: ClusterOf(s, g, clusterNum) == ClusterOf(t, h, clusterNum)
  }

  /** An append plans every group of its stripe. */
  ghost predicate WholePlan(plan: map<Key, Entry>, stripe: nat, z: nat) {
    forall k :: k in plan <==> k.stripe == stripe && k.group < z
  }

  ghost predicate WritesTo(steps: seq<Step>, stripes: set<nat>, z: nat) {
    forall i :: 0 <= i < |steps| && steps[i].IssueStep? ==>
      exists stripe :: stripe in stripes && WholePlan(steps[i].plan, stripe, z)
  }

  ghost predicate PairwiseApart(stripes: set<nat>, z: nat, clusterNum: nat)
    requires clusterNum > 0
  {
    forall s, t :: s in stripes && t in stripes && s != t ==> !Meet(s, t, z, clusterNum)
  }

  lemma {:induction false} JobsOf(states: seq<State>, steps: seq<Step>, stripes: set<nat>, z: nat, proxy: Key -> nat, i: nat)
    requires IsRun(states, steps, proxy) && WritesTo(steps, stripes, z) && i <= |steps|
    ensures forall id :: id in states[i].jobs ==> id.key.stripe in stripes && id.key.group < z
  {
    if i > 0 {
      JobsOf(states, steps, stripes, z, proxy, i - 1);
      assert Does(states[i - 1], states[i], steps[i - 1], proxy);
      JobsNext(states[i - 1], states[i], steps[i - 1], proxy);
    }
  }

  lemma JobsNext(s: State, next: State, step: Step, proxy: Key -> nat)
    requires Does(s, next, step, proxy)
    ensures forall id :: id in next.jobs ==> id in s.jobs || (step.IssueStep? && id.key in step.plan)
  {
  }

  lemma ApartIsCareful(states: seq<State>, steps: seq<Step>, stripes: set<nat>, z: nat, clusterNum: nat)
    requires 0 < z < clusterNum && PairwiseApart(stripes, z, clusterNum)
    requires IsRun(states, steps, RoundRobin(clusterNum)) && InTurn(states, steps) && WritesTo(steps, stripes, z)
    ensures Careful(states, steps, RoundRobin(clusterNum))
  {
    hide IsRun, OwnDone, Accepted;
    var proxy := RoundRobin(clusterNum);
    forall i | 0 <= i < |steps| && steps[i].IssueStep? ensures Clear(states[i], steps[i].plan, proxy) {
      JobsOf(states, steps, stripes, z, proxy, i);
      var stripe :| stripe in stripes && WholePlan(steps[i].plan, stripe, z);
      forall id, k | id in states[i].jobs && k in steps[i].plan && id.key.stripe != k.stripe ensures proxy(id.key) != proxy(k) {
        assert !Meet(id.key.stripe, k.stripe, z, clusterNum);
      }
    }
  }

  /** What the append of a bytes at offset o of a stripe registers: the size of each group's plan. */
  function AppendEntries(mode: Mode, g: Group, u: nat, o: nat, a: nat, stripe: nat): (plan: map<Key, Entry>)
    requires g.Valid() && u > 0 && a > 0
    ensures WholePlan(plan, stripe, g.z)
    ensures forall k :: k in plan ==> plan[k] == Entry(ClusterSizes(mode, g, u, o, a)[k.group], stripe)
  {
    map i: nat | i < g.z :: Key(stripe, i) := Entry(ClusterSizes(mode, g, u, o, a)[i], stripe)
  }

  lemma AppendEntriesValid(mode: Mode, g: Group, u: nat, o: nat, a: nat, stripe: nat, clusterNum: nat)
    requires g.Valid() && u > 0 && a > 0 && 0 < clusterNum && g.z <= clusterNum
    ensures ValidPlan(AppendEntries(mode, g, u, o, a, stripe), RoundRobin(clusterNum))
  {
    hide ClusterSizes, RoundRobin, Group.Valid, AppendEntries, ParitySlice;
    var plan, proxy := AppendEntries(mode, g, u, o, a, stripe), RoundRobin(clusterNum);
    forall k1, k2 | k1 in plan && k2 in plan && k1 != k2 ensures k1.stripe == k2.stripe && proxy(k1) != proxy(k2) {
      OwnProxies(k1, k2, clusterNum);
    }
    forall k | k in plan ensures plan[k].size > 0 {
      EachGetsSome(mode, g, u, o, a, k.group);
    }
  }

  lemma OwnProxies(k1: Key, k2: Key, clusterNum: nat)
    requires k1.stripe == k2.stripe && k1 != k2 && k1.group < clusterNum && k2.group < clusterNum
    ensures RoundRobin(clusterNum)(k1) != RoundRobin(clusterNum)(k2)
  {
    AtCluster(k1, clusterNum);
    AtCluster(k2, clusterNum);
    hide ClusterOf, RoundRobin;
    if ClusterOf(k1.stripe, k1.group, clusterNum) == ClusterOf(k2.stripe, k2.group, clusterNum) {
      ModInjective(k1.stripe, k1.group, k2.group, clusterNum);
    }
  }

  /** The plan of some append that the stripe has room for. */
  ghost predicate IsAppend(plan: map<Key, Entry>, stripe: nat, mode: Mode, g: Group, u: nat, blockSize: nat)
    requires g.Valid() && u > 0
  {
    exists o: nat, a: nat | a > 0 && o + a <= g.k * blockSize :: plan == AppendEntries(mode, g, u, o, a, stripe)
  }

  ghost predicate AppendsTo(steps: seq<Step>, stripes: set<nat>, mode: Mode, g: Group, u: nat, blockSize: nat)
    requires g.Valid() && u > 0
  {
    forall i :: 0 <= i < |steps| && steps[i].IssueStep? ==>
      exists stripe :: stripe in stripes && IsAppend(steps[i].plan, stripe, mode, g, u, blockSize)
  }

  lemma AppendsAreWrites(steps: seq<Step>, stripes: set<nat>, mode: Mode, g: Group, u: nat, blockSize: nat)
    requires g.Valid() && u > 0 && AppendsTo(steps, stripes, mode, g, u, blockSize)
    ensures WritesTo(steps, stripes, g.z)
  {
    hide ClusterSizes, WholePlan;
    forall i | 0 <= i < |steps| && steps[i].IssueStep?
      ensures exists stripe :: stripe in stripes && WholePlan(steps[i].plan, stripe, g.z)
    {
      var stripe :| stripe in stripes && IsAppend(steps[i].plan, stripe, mode, g, u, blockSize);
      var o: nat, a: nat :| a > 0 && o + a <= g.k * blockSize && steps[i].plan == AppendEntries(mode, g, u, o, a, stripe);
    }
  }

  /** Nothing is issued but the first append to s, of a bytes, and the first one to t, of b bytes. */
  ghost predicate FirstAppends(steps: seq<Step>, s: nat, t: nat, mode: Mode, g: Group, u: nat, a: nat, b: nat)
    requires g.Valid() && u > 0 && a > 0 && b > 0
  {
    forall i :: 0 <= i < |steps| && steps[i].IssueStep? ==>
      steps[i].plan == AppendEntries(mode, g, u, 0, a, s) || steps[i].plan == AppendEntries(mode, g, u, 0, b, t)
  }

  /** Two stripes that meet: the second is issued right after the first, and goes wrong, whatever the sizes. */
  lemma MeetingFails(s: nat, t: nat, mode: Mode, g: Group, u: nat, a: nat, b: nat, clusterNum: nat)
    returns (states: seq<State>, steps: seq<Step>)
    requires g.Valid() && u > 0 && a > 0 && b > 0
    requires g.z < clusterNum && s != t && Meet(s, t, g.z, clusterNum)
    ensures IsRun(states, steps, RoundRobin(clusterNum)) && InTurn(states, steps)
    ensures FirstAppends(steps, s, t, mode, g, u, a, b)
    ensures !AllRight(states, steps)
  {
    var proxy, p, q := RoundRobin(clusterNum), AppendEntries(mode, g, u, 0, a, s), AppendEntries(mode, g, u, 0, b, t);
    AppendEntriesValid(mode, g, u, 0, a, s, clusterNum);
    AppendEntriesValid(mode, g, u, 0, b, t, clusterNum);
    hide *;
    FirstIssue(s, t, g.z, clusterNum, p, q);
    states, steps := CarelessFails([START, AfterIssue(START, p)], [IssueStep(p)], q, proxy);
    OnlyTwoIssues(p, q, states, steps);
    AreFirstAppends(steps, s, t, mode, g, u, a, b, p, q);
  }

  lemma OnlyTwoIssues(p: map<Key, Entry>, q: map<Key, Entry>, states: seq<State>, steps: seq<Step>)
    requires GoesOn([START, AfterIssue(START, p)], [IssueStep(p)], q, states, steps)
    ensures forall i :: 0 <= i < |steps| && steps[i].IssueStep? ==> steps[i].plan == p || steps[i].plan == q
  {
    hide AfterIssue;
    forall i | 0 <= i < |steps| && steps[i].IssueStep? ensures steps[i].plan == p || steps[i].plan == q {
      assert i <= 1 && steps[i] == ([IssueStep(p)] + [IssueStep(q)])[i];
    }
  }

  lemma AreFirstAppends(steps: seq<Step>, s: nat, t: nat, mode: Mode, g: Group, u: nat, a: nat, b: nat, p: map<Key, Entry>,
      q: map<Key, Entry>)
    requires g.Valid() && u > 0 && a > 0 && b > 0
    requires p == AppendEntries(mode, g, u, 0, a, s) && q == AppendEntries(mode, g, u, 0, b, t)
    requires forall i :: 0 <= i < |steps| && steps[i].IssueStep? ==> steps[i].plan == p || steps[i].plan == q
    ensures FirstAppends(steps, s, t, mode, g, u, a, b)
  {
    hide AppendEntries;
  }

  lemma FirstAppendsTo(steps: seq<Step>, stripes: set<nat>, s: nat, t: nat, mode: Mode, g: Group, u: nat, a: nat, b: nat,
      blockSize: nat)
    requires g.Valid() && u > 0 && 0 < a <= g.k * blockSize && 0 < b <= g.k * blockSize
    requires s in stripes && t in stripes && FirstAppends(steps, s, t, mode, g, u, a, b)
    ensures AppendsTo(steps, stripes, mode, g, u, blockSize)
  {
    hide AppendEntries;
    assert IsAppend(AppendEntries(mode, g, u, 0, a, s), s, mode, g, u, blockSize);
    assert IsAppend(AppendEntries(mode, g, u, 0, b, t), t, mode, g, u, blockSize);
    hide IsAppend;
  }

  lemma FirstIssue(s: nat, t: nat, z: nat, clusterNum: nat, p: map<Key, Entry>, q: map<Key, Entry>)
    requires 0 < clusterNum && s != t && Meet(s, t, z, clusterNum)
    requires WholePlan(p, s, z) && WholePlan(q, t, z) && ValidPlan(p, RoundRobin(clusterNum))
    ensures var proxy, first := RoundRobin(clusterNum), AfterIssue(START, p);
      && IsRun([START, first], [IssueStep(p)], proxy) && Careful([START, first], [IssueStep(p)], proxy)
      && OwnDone(first, q) && !Clear(first, q, proxy)
  {
    hide ValidPlan, WholePlan, AfterIssue, IsRun, Careful;
    FirstRun(p, RoundRobin(clusterNum));
    MeetAtOnce(s, t, z, clusterNum, p, q);
  }

  lemma FirstRun(plan: map<Key, Entry>, proxy: Key -> nat)
    requires ValidPlan(plan, proxy)
    ensures var states, steps := [START, AfterIssue(START, plan)], [IssueStep(plan)];
      IsRun(states, steps, proxy) && Careful(states, steps, proxy)
  {
    hide ValidPlan, Issue, AfterIssue;
    IsIssue(START, plan, proxy);
    StartClear(plan, proxy);
    hide OwnDone, Clear;
  }

  lemma StartClear(plan: map<Key, Entry>, proxy: Key -> nat)
    ensures OwnDone(START, plan) && Clear(START, plan, proxy)
  {
  }

  lemma MeetAtOnce(s: nat, t: nat, z: nat, clusterNum: nat, p: map<Key, Entry>, q: map<Key, Entry>)
    requires clusterNum > 0 && s != t && Meet(s, t, z, clusterNum) && WholePlan(p, s, z) && WholePlan(q, t, z)
    ensures OwnDone(AfterIssue(START, p), q) && !Clear(AfterIssue(START, p), q, RoundRobin(clusterNum))
  {
    hide ClusterOf, RoundRobin, AfterIssue, OwnDone, Clear;
    var g: nat, h: nat :| g < z && h < z && ClusterOf(s, g, clusterNum) == ClusterOf(t, h, clusterNum);
    AtCluster(Key(s, g), clusterNum);
    AtCluster(Key(t, h), clusterNum);
    assert Key(s, g) in p && Key(t, h) in q;
    NotClear(p, q, Key(s, g), Key(t, h), RoundRobin(clusterNum));
    hide Meet;
    OthersDone(p, q, s, t, z);
  }

  lemma AtCluster(k: Key, clusterNum: nat)
    requires clusterNum > 0
    ensures RoundRobin(clusterNum)(k) == ClusterOf(k.stripe, k.group, clusterNum)
  {
    hide ClusterOf;
  }

  lemma NotClear(p: map<Key, Entry>, q: map<Key, Entry>, j: Key, k: Key, proxy: Key -> nat)
    requires j in p && k in q && j.stripe != k.stripe && proxy(j) == proxy(k)
    ensures !Clear(AfterIssue(START, p), q, proxy)
  {
    var first := AfterIssue(START, p);
    assert first.jobs == NewJobs(0, p);
    assert Id(0, j) in first.jobs && !Accepted(first.jobs[Id(0, j)]);
  }

  lemma OthersDone(p: map<Key, Entry>, q: map<Key, Entry>, s: nat, t: nat, z: nat)
    requires s != t && WholePlan(p, s, z) && WholePlan(q, t, z)
    ensures OwnDone(AfterIssue(START, p), q)
  {
    assert AfterIssue(START, p).jobs == NewJobs(0, p);
  }

  /** All runs that write whole stripes or append to them in the given way are right. */
  ghost predicate WritesRight(stripes: set<nat>, z: nat, clusterNum: nat)
    requires clusterNum > 0
  {
    forall states, steps ::
      IsRun(states, steps, RoundRobin(clusterNum)) && InTurn(states, steps) && WritesTo(steps, stripes, z) ==> AllRight(states, steps)
  }

  ghost predicate AppendsRight(stripes: set<nat>, mode: Mode, g: Group, u: nat, blockSize: nat, clusterNum: nat)
    requires g.Valid() && u > 0 && clusterNum > 0
  {
    forall states, steps ::
      IsRun(states, steps, RoundRobin(clusterNum)) && InTurn(states, steps) && AppendsTo(steps, stripes, mode, g, u, blockSize) ==>
        AllRight(states, steps)
  }

  /** Stripes may be written concurrently, each by its client in turn, exactly if no two of them have groups in the same
      cluster. This is so for plans of any sizes, and also if only the plans of appends are issued. */
  lemma ConcurrentStripes(stripes: set<nat>, mode: Mode, g: Group, u: nat, blockSize: nat, clusterNum: nat)
    requires g.Valid() && u > 0 && blockSize > 0 && g.z < clusterNum
    ensures PairwiseApart(stripes, g.z, clusterNum) <==> WritesRight(stripes, g.z, clusterNum)
    ensures PairwiseApart(stripes, g.z, clusterNum) <==> AppendsRight(stripes, mode, g, u, blockSize, clusterNum)
  {
    hide IsRun, InTurn, WritesTo, AppendsTo, AllRight, RoundRobin, Meet, FirstAppends;
    if PairwiseApart(stripes, g.z, clusterNum) {
      ApartIsRight(stripes, g.z, clusterNum);
      forall states, steps | IsRun(states, steps, RoundRobin(clusterNum)) && InTurn(states, steps)
        && AppendsTo(steps, stripes, mode, g, u, blockSize)
        ensures WritesTo(steps, stripes, g.z)
      {
        AppendsAreWrites(steps, stripes, mode, g, u, blockSize);
      }
    } else {
      var s, t :| s in stripes && t in stripes && s != t && Meet(s, t, g.z, clusterNum);
      var states, steps := MeetingFails(s, t, mode, g, u, 1, 1, clusterNum);
      MulMono(1, g.k, blockSize);
      FirstAppendsTo(steps, stripes, s, t, mode, g, u, 1, 1, blockSize);
      AppendsAreWrites(steps, stripes, mode, g, u, blockSize);
      RunLengths(states, steps, RoundRobin(clusterNum));
    }
  }

  lemma ApartIsRight(stripes: set<nat>, z: nat, clusterNum: nat)
    requires 0 < z < clusterNum && PairwiseApart(stripes, z, clusterNum)
    ensures WritesRight(stripes, z, clusterNum)
  {
    hide IsRun, InTurn, WritesTo, AllRight, RoundRobin, Meet;
    forall states, steps | IsRun(states, steps, RoundRobin(clusterNum)) && InTurn(states, steps) && WritesTo(steps, stripes, z)
      ensures |states| == |steps| + 1 && AllRight(states, steps)
    {
      ApartIsCareful(states, steps, stripes, z, clusterNum);
      InTurnOf(states, steps, RoundRobin(clusterNum));
      CarefulIsRight(states, steps, RoundRobin(clusterNum));
    }
  }

  /** Stripes 0 and 1 on the 3 clusters of a validated UniLRC configuration with 2 groups: group 1 of the one and group 0
      of the other share a proxy, and the first appends of two clients at once, of whatever sizes, can end with a
      default-constructed entry. */
  lemma TwoAtOnce(mode: Mode, u: nat, a: nat, b: nat) returns (states: seq<State>, steps: seq<Step>)
    requires u > 0 && a > 0 && b > 0
    ensures Validated(UniLRC, 4, 4, 2, 6, 3) && Group(4, 4, 2).Valid()
    ensures IsRun(states, steps, RoundRobin(3)) && InTurn(states, steps)
    ensures FirstAppends(steps, 0, 1, mode, Group(4, 4, 2), u, a, b)
    ensures !AllRight(states, steps) && !OneAtATime(states, steps)
  {
    assert ClusterOf(0, 1, 3) == ClusterOf(1, 0, 3);
    states, steps := MeetingFails(0, 1, mode, Group(4, 4, 2), u, a, b, 3);
    hide AllRight, OneAtATime, Careful, IsRun, InTurn, FirstAppends;
    if OneAtATime(states, steps) {
      OneAtATimeIsCareful(states, steps, RoundRobin(3));
      CarefulIsRight(states, steps, RoundRobin(3));
    }
  }
}
