/** How an append is committed: the coordinator forgets the old commit of every key, tells the proxies to expect data,
    registers the append, and only then answers the client, who sends and waits; a proxy that has stored what it was
    sent reports back. The steps of all parties interleave freely. */
module CommitProtocol {

  /** The key of an append to one group of a stripe. Later appends to the stripe use the same key again. */
  datatype Key = Key(stripe: nat, group: nat)

  /** A table entry: the size of the append and its stripe. */
  datatype Entry = Entry(size: nat, stripe: nat)

  /** What operator[] makes of a missing key. */
  const DEFAULT_ENTRY := Entry(0, 0)

  /** One key of one append. */
  datatype Id = Id(append: nat, key: Key)

  datatype Notify = Planned | Erased | Scheduled | Registered
  datatype Client = Unsent | Sent | Done
  datatype Thread = NoThread | Listening | Got(conn: Id)

  /** How far the coordinator, the client and the proxy are with one key of an append: the entry to register,
      whether the client's connection still waits to be accepted, and whether the proxy has reported. */
  datatype Job = Job(entry: Entry, notify: Notify, client: Client, thread: Thread, pending: bool, reported: bool)

  /** The jobs of the appends asked for so far, and the coordinator's two tables. */
  datatype State = State(count: nat, jobs: map<Id, Job>, updating: map<Key, Entry>, committed: map<Key, Entry>)

  const START := State(0, map[], map[], map[])

  predicate AllReach(s: State, append: nat, ok: set<Notify>) {
    forall id :: id in s.jobs && id.append == append ==> s.jobs[id].notify in ok
  }

  /** The keys of an append go to different proxies, belong to one stripe, and come with what is to be registered. */
  predicate ValidPlan(plan: map<Key, Entry>, proxy: Key -> nat) {
    && (forall k1, k2 :: k1 in plan && k2 in plan && k1 != k2 ==> k1.stripe == k2.stripe && proxy(k1) != proxy(k2))
    && forall k :: k in plan ==> plan[k].size > 0 && plan[k].stripe == k.stripe
  }

  function NewJobs(append: nat, plan: map<Key, Entry>): (jobs: map<Id, Job>)
    ensures forall id :: id in jobs <==> id.append == append && id.key in plan
    ensures forall id :: id in jobs ==> jobs[id] == Job(plan[id.key], Planned, Unsent, NoThread, false, false)
  {
    map k | k in plan :: Id(append, k) := Job(plan[k], Planned, Unsent, NoThread, false, false)
  }

  // ----- the steps

  predicate Issue(s: State, next: State, plan: map<Key, Entry>, proxy: Key -> nat) {
    ValidPlan(plan, proxy) && next == s.(count := s.count + 1, jobs := s.jobs + NewJobs(s.count, plan))
  }

  predicate Erase(s: State, next: State, id: Id) {
    && id in s.jobs && s.jobs[id].notify == Planned
    && next == s.(jobs := s.jobs[id := s.jobs[id].(notify := Erased)], committed := s.committed - {id.key})
  }

  /** scheduleAppend2Datanode: the proxy starts a thread that waits for a connection. */
  predicate Schedule(s: State, next: State, id: Id) {
    && id in s.jobs && s.jobs[id].notify == Erased && AllReach(s, id.append, {Erased, Scheduled, Registered})
    && next == s.(jobs := s.jobs[id := s.jobs[id].(notify := Scheduled, thread := Listening)])
  }

  predicate Register(s: State, next: State, id: Id) {
    && id in s.jobs && s.jobs[id].notify == Scheduled
    && next == s.(jobs := s.jobs[id := s.jobs[id].(notify := Registered)], updating := s.updating[id.key := s.jobs[id].entry])
  }

  /** The client connects once the coordinator has answered, which it does when every key is registered. */
  predicate Send(s: State, next: State, id: Id) {
    && id in s.jobs && s.jobs[id].client == Unsent && AllReach(s, id.append, {Registered})
    && next == s.(jobs := s.jobs[id := s.jobs[id].(client := Sent, pending := true)])
  }

  /** A thread takes whatever connection comes to its proxy. */
  predicate Accept(s: State, next: State, id: Id, conn: Id, proxy: Key -> nat) {
    && id in s.jobs && s.jobs[id].thread == Listening
    && conn in s.jobs && s.jobs[conn].pending && proxy(conn.key) == proxy(id.key)
    && var taken := s.jobs[conn := s.jobs[conn].(pending := false)];
       next == s.(jobs := taken[id := taken[id].(thread := Got(conn))])
  }

  predicate Report(s: State, next: State, id: Id) {
    && id in s.jobs && s.jobs[id].thread.Got?
    && next == s.(jobs := s.jobs[id := s.jobs[id].(thread := NoThread, reported := true)],
                committed := s.committed[id.key := if id.key in s.updating then s.updating[id.key] else DEFAULT_ENTRY],
                updating := s.updating - {id.key})
  }

  /** checkCommitAbort returns. */
  predicate WaitEnds(s: State, next: State, id: Id) {
    && id in s.jobs && s.jobs[id].client == Sent && id.key in s.committed
    && next == s.(jobs := s.jobs[id := s.jobs[id].(client := Done)])
  }

  datatype Step =
    | IssueStep(plan: map<Key, Entry>)
    | EraseStep(id: Id)
    | ScheduleStep(id: Id)
    | RegisterStep(id: Id)
    | SendStep(id: Id)
    | AcceptStep(id: Id, conn: Id)
    | ReportStep(id: Id)
    | WaitEndsStep(id: Id)

  predicate Does(s: State, next: State, step: Step, proxy: Key -> nat) {
    match step
    case IssueStep(plan) => Issue(s, next, plan, proxy)
    case EraseStep(id) => Erase(s, next, id)
    case ScheduleStep(id) => Schedule(s, next, id)
    case RegisterStep(id) => Register(s, next, id)
    case SendStep(id) => Send(s, next, id)
    case AcceptStep(id, conn) => Accept(s, next, id, conn, proxy)
    case ReportStep(id) => Report(s, next, id)
    case WaitEndsStep(id) => WaitEnds(s, next, id)
  }

  predicate IsRun(states: seq<State>, steps: seq<Step>, proxy: Key -> nat) {
    && |states| == |steps| + 1 && states[0] == START
    && forall i :: 0 <= i < |steps| ==> Does(states[i], states[i + 1], steps[i], proxy)
  }

  /** All waits for earlier appends to the plan's stripe have ended. A stripe belongs to one client, and a client waits
      for all keys of its append before it goes on. */
  predicate OwnDone(s: State, plan: map<Key, Entry>) {
    forall id, k :: id in s.jobs && k in plan && id.key.stripe == k.stripe ==> s.jobs[id].client == Done
  }

  /** Every client issues its appends in turn. */
  predicate InTurn(states: seq<State>, steps: seq<Step>) {
    |states| == |steps| + 1 && forall i :: 0 <= i < |steps| && steps[i].IssueStep? ==> OwnDone(states[i], steps[i].plan)
  }

  /** The proxy has taken the job's connection. */
  predicate Accepted(j: Job) {
    j.thread.Got? || j.reported
  }

  /** No proxy of the plan still expects the connection of another stripe's append. */
  predicate Clear(s: State, plan: map<Key, Entry>, proxy: Key -> nat) {
    forall id, k :: id in s.jobs && k in plan && id.key.stripe != k.stripe && proxy(id.key) == proxy(k) ==>
      Accepted(s.jobs[id])
  }

  /** Every append is issued in turn, to proxies that are clear. */
  predicate Careful(states: seq<State>, steps: seq<Step>, proxy: Key -> nat) {
    && InTurn(states, steps)
    && forall i :: 0 <= i < |steps| && steps[i].IssueStep? ==> Clear(states[i], steps[i].plan, proxy)
  }

  /** Appends are issued one at a time: each only when all the waits of the ones before have ended. */
  predicate OneAtATime(states: seq<State>, steps: seq<Step>) {
    |states| == |steps| + 1 && forall i :: 0 <= i < |steps| && steps[i].IssueStep? ==> AllDone(states[i])
  }

  predicate AllDone(s: State) {
    forall id :: id in s.jobs ==> s.jobs[id].client == Done
  }

  // ----- the invariant of careful runs

  /** No later append uses the key. */
  ghost predicate Latest(s: State, id: Id) {
    forall b :: b in s.jobs && b.key == id.key ==> b.append <= id.append
  }

  /** What holds of one job. */
  ghost predicate Local(s: State, id: Id)
    requires id in s.jobs
  {
    var j := s.jobs[id];
    && id.append < s.count && j.entry.size > 0
    && (j.client != Unsent ==> AllReach(s, id.append, {Registered}) && j.notify == Registered)
    && (j.thread != NoThread <==> j.notify in {Scheduled, Registered} && !j.reported)
    && (j.thread.Got? ==> j.thread.conn == id && j.client != Unsent)
    && (j.pending <==> j.client == Sent && j.thread == Listening)
    && (j.reported ==> j.client != Unsent)
    && (j.client == Done ==> j.reported)
    && (j.notify == Registered && !j.reported ==> id.key in s.updating && s.updating[id.key] == j.entry)
    && (Latest(s, id) && j.notify != Planned ==> (id.key in s.committed <==> j.reported))
    && (Latest(s, id) && j.reported ==> id.key in s.committed && s.committed[id.key] == j.entry)
  }

  ghost predicate Spread(s: State, proxy: Key -> nat) {
    forall a, b :: a in s.jobs && b in s.jobs && a.append == b.append && a.key != b.key ==>
      a.key.stripe == b.key.stripe && proxy(a.key) != proxy(b.key)
  }

  /** The earlier of two appends is over if they are to the same stripe, and past its connection at a common proxy. */
  ghost predicate Ordered(s: State, proxy: Key -> nat) {
    forall a, b :: a in s.jobs && b in s.jobs && a.append < b.append ==>
      && (a.key.stripe == b.key.stripe ==> s.jobs[a].client == Done)
      && (a.key.stripe != b.key.stripe && proxy(a.key) == proxy(b.key) ==> Accepted(s.jobs[a]))
  }

  /** Only keys whose report is outstanding are in the table of updates. */
  ghost predicate Tracked(s: State) {
    forall k :: k in s.updating ==> exists id :: id in s.jobs && id.key == k && Outstanding(s.jobs[id])
  }

  ghost predicate Outstanding(j: Job) {
    j.notify == Registered && !j.reported
  }

  ghost predicate Inv(s: State, proxy: Key -> nat) {
    && Spread(s, proxy) && Ordered(s, proxy) && Tracked(s)
    && forall id :: id in s.jobs ==> Local(s, id)
  }

  // ----- every step keeps it

  lemma IssueKeeps(s: State, next: State, plan: map<Key, Entry>, proxy: Key -> nat)
    requires Inv(s, proxy) && Issue(s, next, plan, proxy) && OwnDone(s, plan) && Clear(s, plan, proxy)
    ensures Inv(next, proxy)
  {
    hide *;
    Below(s, proxy);
    Issued(s, next, plan, proxy);
    IssuedOrder(s, next, plan, proxy);
    IssueTracked(s, next, plan, proxy);
    forall id | id in next.jobs ensures Local(next, id) {
      if id in s.jobs {
        OldJobs(s, next, plan, proxy, id);
      } else {
        NewJob(s, next, plan, proxy, id);
      }
    }
    Together(next, proxy);
  }

  lemma Below(s: State, proxy: Key -> nat)
    requires Inv(s, proxy)
    ensures Spread(s, proxy) && Ordered(s, proxy) && Tracked(s)
    ensures forall id :: id in s.jobs ==> id.append < s.count && Local(s, id)
  {
    hide Spread, Ordered, Tracked;
    forall id | id in s.jobs ensures id.append < s.count {
      assert Local(s, id);
    }
  }

  lemma Together(s: State, proxy: Key -> nat)
    requires Spread(s, proxy) && Ordered(s, proxy) && Tracked(s) && forall id :: id in s.jobs ==> Local(s, id)
    ensures Inv(s, proxy)
  {
    hide Spread, Ordered, Tracked, Local;
  }

  lemma Issued(s: State, next: State, plan: map<Key, Entry>, proxy: Key -> nat)
    requires Issue(s, next, plan, proxy) && forall id :: id in s.jobs ==> id.append < s.count
    ensures ValidPlan(plan, proxy) && next.updating == s.updating
    ensures forall id :: id in s.jobs ==> id in next.jobs && next.jobs[id] == s.jobs[id]
    ensures forall id :: id in next.jobs && id !in s.jobs ==> id.append == s.count && id.key in plan
  {
    hide ValidPlan;
  }

  lemma IssuedOrder(s: State, next: State, plan: map<Key, Entry>, proxy: Key -> nat)
    requires Spread(s, proxy) && Ordered(s, proxy) && OwnDone(s, plan) && Clear(s, plan, proxy) && ValidPlan(plan, proxy)
    requires forall id :: id in s.jobs ==> id.append < s.count && id in next.jobs && next.jobs[id] == s.jobs[id]
    requires forall id :: id in next.jobs && id !in s.jobs ==> id.append == s.count && id.key in plan
    ensures Spread(next, proxy) && Ordered(next, proxy)
  {
    hide Accepted;
    forall a, b | a in next.jobs && b in next.jobs && a.append < b.append
      ensures a.key.stripe == b.key.stripe ==> next.jobs[a].client == Done
      ensures a.key.stripe != b.key.stripe && proxy(a.key) == proxy(b.key) ==> Accepted(next.jobs[a])
    {
      assert a in s.jobs && next.jobs[a] == s.jobs[a];
    }
  }

  lemma IssueTracked(s: State, next: State, plan: map<Key, Entry>, proxy: Key -> nat)
    requires Tracked(s) && next.updating == s.updating
    requires forall id :: id in s.jobs ==> id in next.jobs && next.jobs[id] == s.jobs[id]
    ensures Tracked(next)
  {
    forall k | k in next.updating ensures exists id :: id in next.jobs && id.key == k && Outstanding(next.jobs[id]) {
      var id :| id in s.jobs && id.key == k && Outstanding(s.jobs[id]);
      assert id in next.jobs && next.jobs[id] == s.jobs[id];
    }
  }

  lemma OldJobs(s: State, next: State, plan: map<Key, Entry>, proxy: Key -> nat, id: Id)
    requires Issue(s, next, plan, proxy) && id in s.jobs && Local(s, id)
    requires forall b :: b in s.jobs ==> b in next.jobs && next.jobs[b] == s.jobs[b]
    requires forall b :: b in next.jobs && b !in s.jobs ==> b.append == s.count
    ensures id in next.jobs && Local(next, id)
  {
    if Latest(next, id) {
      forall b | b in s.jobs && b.key == id.key ensures b.append <= id.append {
        assert b in next.jobs;
      }
    }
  }

  lemma NewJob(s: State, next: State, plan: map<Key, Entry>, proxy: Key -> nat, id: Id)
    requires Issue(s, next, plan, proxy) && id in next.jobs && id !in s.jobs
    ensures Local(next, id)
  {
    hide AllReach, Latest;
  }

  /** A step on one job that leaves its place in the order alone. */
  ghost predicate Touches(s: State, next: State, id: Id) {
    && id in s.jobs && next.count == s.count && next.jobs.Keys == s.jobs.Keys
    && (forall b :: b in s.jobs && b != id ==> next.jobs[b] == s.jobs[b])
    && (s.jobs[id].client == Done ==> next.jobs[id].client == Done)
    && (Accepted(s.jobs[id]) ==> Accepted(next.jobs[id]))
  }

  lemma TouchKeeps(s: State, next: State, id: Id, proxy: Key -> nat)
    requires Spread(s, proxy) && Ordered(s, proxy) && Touches(s, next, id)
    ensures Spread(next, proxy) && Ordered(next, proxy)
    ensures forall b :: Latest(s, b) <==> Latest(next, b)
  {
    hide Accepted;
  }

  /** Two jobs with the same key: the earlier one is over. */
  lemma SameKey(s: State, a: Id, b: Id, proxy: Key -> nat)
    requires Inv(s, proxy) && a in s.jobs && b in s.jobs && a.key == b.key && a != b
    ensures a.append < b.append || b.append < a.append
    ensures a.append < b.append ==> s.jobs[a].client == Done && !Latest(s, a)
    ensures Local(s, a)
  {
    hide Local, Tracked, Spread;
  }

  lemma EraseTouches(s: State, next: State, id: Id)
    requires Erase(s, next, id) && id in s.jobs && Local(s, id) && Tracked(s)
    ensures Touches(s, next, id) && Tracked(next)
  {
    hide Tracked, AllReach, Latest;
    TrackedStill(s, next, id);
  }

  lemma EraseKeeps(s: State, next: State, id: Id, proxy: Key -> nat)
    requires Inv(s, proxy) && Erase(s, next, id)
    ensures Inv(next, proxy)
  {
    hide Inv, Local, Latest, Tracked, Spread, Ordered, AllReach, Outstanding;
    Below(s, proxy);
    EraseTouches(s, next, id);
    TouchKeeps(s, next, id, proxy);
    forall b | b in next.jobs ensures Local(next, b) {
      if b.key == id.key && b != id {
        SameKey(s, b, id, proxy);
        SameKey(s, id, b, proxy);
      }
      EraseLocal(s, next, id, b);
    }
    Together(next, proxy);
  }

  lemma EraseLocal(s: State, next: State, id: Id, b: Id)
    requires Erase(s, next, id) && id in s.jobs && b in s.jobs && Local(s, id) && Local(s, b) && (Latest(s, b) <==> Latest(next, b))
    requires b.key == id.key && b != id ==> s.jobs[id].client == Done || (s.jobs[b].client == Done && !Latest(s, b))
    ensures b in next.jobs && Local(next, b)
  {
    hide Latest;
  }

  /** The table of updates is unchanged, and so is whether the job's report is outstanding. */
  lemma TrackedStill(s: State, next: State, id: Id)
    requires Tracked(s) && next.updating == s.updating && next.jobs.Keys == s.jobs.Keys && id in s.jobs
    requires forall b :: b in s.jobs && b != id ==> Outstanding(s.jobs[b]) ==> Outstanding(next.jobs[b])
    requires Outstanding(s.jobs[id]) ==> Outstanding(next.jobs[id])
    ensures Tracked(next)
  {
    forall k | k in next.updating ensures exists b :: b in next.jobs && b.key == k && Outstanding(next.jobs[b]) {
      var b :| b in s.jobs && b.key == k && Outstanding(s.jobs[b]);
      assert b in next.jobs && Outstanding(next.jobs[b]);
    }
  }

  lemma ScheduleTouches(s: State, next: State, id: Id)
    requires Schedule(s, next, id) && id in s.jobs && Local(s, id) && Tracked(s)
    ensures Touches(s, next, id) && Tracked(next)
  {
    hide Tracked, AllReach, Latest;
    TrackedStill(s, next, id);
  }

  lemma ScheduleKeeps(s: State, next: State, id: Id, proxy: Key -> nat)
    requires Inv(s, proxy) && Schedule(s, next, id)
    ensures Inv(next, proxy)
  {
    hide Inv, Local, Latest, Tracked, Spread, Ordered, AllReach, Outstanding;
    Below(s, proxy);
    ScheduleTouches(s, next, id);
    TouchKeeps(s, next, id, proxy);
    forall b | b in next.jobs ensures Local(next, b) {
      ScheduleLocal(s, next, id, b);
    }
    Together(next, proxy);
  }

  lemma ScheduleLocal(s: State, next: State, id: Id, b: Id)
    requires Schedule(s, next, id) && id in s.jobs && b in s.jobs && Local(s, id) && Local(s, b) && (Latest(s, b) <==> Latest(next, b))
    ensures b in next.jobs && Local(next, b)
  {
    hide Latest;
  }

  lemma RegisterTouches(s: State, next: State, id: Id)
    requires Register(s, next, id) && id in s.jobs && Local(s, id) && Tracked(s)
    ensures Touches(s, next, id) && Tracked(next)
  {
    hide Tracked, AllReach, Latest;
    RegisterTracked(s, next, id);
  }

  lemma RegisterKeeps(s: State, next: State, id: Id, proxy: Key -> nat)
    requires Inv(s, proxy) && Register(s, next, id)
    ensures Inv(next, proxy)
  {
    hide Inv, Local, Latest, Tracked, Spread, Ordered, AllReach, Outstanding;
    Below(s, proxy);
    RegisterTouches(s, next, id);
    TouchKeeps(s, next, id, proxy);
    forall b | b in next.jobs ensures Local(next, b) {
      if b.key == id.key && b != id {
        SameKey(s, b, id, proxy);
        SameKey(s, id, b, proxy);
      }
      RegisterLocal(s, next, id, b);
    }
    Together(next, proxy);
  }

  lemma RegisterLocal(s: State, next: State, id: Id, b: Id)
    requires Register(s, next, id) && id in s.jobs && b in s.jobs && Local(s, id) && Local(s, b) && (Latest(s, b) <==> Latest(next, b))
    requires b.key == id.key && b != id ==> s.jobs[id].client == Done || (s.jobs[b].client == Done && !Latest(s, b))
    ensures b in next.jobs && Local(next, b)
  {
    hide Latest;
  }

  lemma RegisterTracked(s: State, next: State, id: Id)
    requires Tracked(s) && Register(s, next, id) && !s.jobs[id].reported
    ensures Tracked(next)
  {
    forall k | k in next.updating ensures exists b :: b in next.jobs && b.key == k && Outstanding(next.jobs[b]) {
      if k == id.key {
        assert Outstanding(next.jobs[id]);
      } else {
        var b :| b in s.jobs && b.key == k && Outstanding(s.jobs[b]);
        assert b in next.jobs && Outstanding(next.jobs[b]);
      }
    }
  }

  lemma SendTouches(s: State, next: State, id: Id)
    requires Send(s, next, id) && id in s.jobs && Local(s, id) && Tracked(s)
    ensures Touches(s, next, id) && Tracked(next)
  {
    hide Tracked, AllReach, Latest;
    TrackedStill(s, next, id);
  }

  lemma SendKeeps(s: State, next: State, id: Id, proxy: Key -> nat)
    requires Inv(s, proxy) && Send(s, next, id)
    ensures Inv(next, proxy)
  {
    hide Inv, Local, Latest, Tracked, Spread, Ordered, AllReach, Outstanding;
    Below(s, proxy);
    SendTouches(s, next, id);
    TouchKeeps(s, next, id, proxy);
    forall b | b in next.jobs ensures Local(next, b) {
      SendLocal(s, next, id, b);
    }
    Together(next, proxy);
  }

  lemma SendLocal(s: State, next: State, id: Id, b: Id)
    requires Send(s, next, id) && id in s.jobs && b in s.jobs && Local(s, id) && Local(s, b) && (Latest(s, b) <==> Latest(next, b))
    ensures b in next.jobs && Local(next, b)
  {
    hide Latest;
  }

  /** Of two jobs at a proxy that are not past their connections, there is only one. */
  lemma OneWaiting(s: State, a: Id, b: Id, proxy: Key -> nat)
    requires Inv(s, proxy) && a in s.jobs && b in s.jobs && proxy(a.key) == proxy(b.key)
    requires !Accepted(s.jobs[a]) && !Accepted(s.jobs[b])
    ensures a == b
  {
    assert Local(s, a) && Local(s, b);
    hide Local, Tracked;
  }

  lemma AcceptsOwn(s: State, next: State, id: Id, conn: Id, proxy: Key -> nat)
    requires Inv(s, proxy) && Accept(s, next, id, conn, proxy)
    ensures id == conn && id in s.jobs
  {
    assert Local(s, id) && Local(s, conn);
    hide Inv;
    OneWaiting(s, id, conn, proxy);
  }

  lemma AcceptTouches(s: State, next: State, id: Id, conn: Id, proxy: Key -> nat)
    requires Accept(s, next, id, conn, proxy) && id in s.jobs && Local(s, id) && Tracked(s)
    requires id == conn
    ensures Touches(s, next, id) && Tracked(next)
  {
    hide Tracked, AllReach, Latest;
    TrackedStill(s, next, id);
  }

  lemma AcceptKeeps(s: State, next: State, id: Id, conn: Id, proxy: Key -> nat)
    requires Inv(s, proxy) && Accept(s, next, id, conn, proxy)
    ensures Inv(next, proxy)
  {
    hide Inv, Local, Latest, Tracked, Spread, Ordered, AllReach, Outstanding;
    Below(s, proxy);
    AcceptsOwn(s, next, id, conn, proxy);
    AcceptTouches(s, next, id, conn, proxy);
    TouchKeeps(s, next, id, proxy);
    forall b | b in next.jobs ensures Local(next, b) {
      AcceptLocal(s, next, id, conn, proxy, b);
    }
    Together(next, proxy);
  }

  lemma AcceptLocal(s: State, next: State, id: Id, conn: Id, proxy: Key -> nat, b: Id)
    requires Accept(s, next, id, conn, proxy) && id in s.jobs && b in s.jobs && Local(s, id) && Local(s, b) && (Latest(s, b) <==> Latest(next, b))
    requires id == conn
    ensures b in next.jobs && Local(next, b)
  {
    hide Latest;
  }

  lemma ReportTouches(s: State, next: State, id: Id)
    requires Report(s, next, id) && id in s.jobs && Local(s, id) && Tracked(s)
    ensures Touches(s, next, id) && Tracked(next)
  {
    hide Tracked, AllReach, Latest;
    ReportTracked(s, next, id);
  }

  lemma ReportKeeps(s: State, next: State, id: Id, proxy: Key -> nat)
    requires Inv(s, proxy) && Report(s, next, id)
    ensures Inv(next, proxy)
  {
    hide Inv, Local, Latest, Tracked, Spread, Ordered, AllReach, Outstanding;
    Below(s, proxy);
    ReportTouches(s, next, id);
    TouchKeeps(s, next, id, proxy);
    forall b | b in next.jobs ensures Local(next, b) {
      if b.key == id.key && b != id {
        SameKey(s, b, id, proxy);
        SameKey(s, id, b, proxy);
      }
      ReportLocal(s, next, id, b);
    }
    Together(next, proxy);
  }

  lemma ReportLocal(s: State, next: State, id: Id, b: Id)
    requires Report(s, next, id) && id in s.jobs && b in s.jobs && Local(s, id) && Local(s, b) && (Latest(s, b) <==> Latest(next, b))
    requires b.key == id.key && b != id ==> s.jobs[id].client == Done || (s.jobs[b].client == Done && !Latest(s, b))
    ensures b in next.jobs && Local(next, b)
  {
    hide Latest;
  }

  lemma ReportTracked(s: State, next: State, id: Id)
    requires Tracked(s) && Report(s, next, id)
    ensures Tracked(next)
  {
    forall k | k in next.updating ensures exists b :: b in next.jobs && b.key == k && Outstanding(next.jobs[b]) {
      var b :| b in s.jobs && b.key == k && Outstanding(s.jobs[b]);
      assert b in next.jobs && Outstanding(next.jobs[b]);
    }
  }

  lemma WaitEnded(s: State, next: State, id: Id)
    requires WaitEnds(s, next, id)
    ensures id in s.jobs && s.jobs[id].client == Sent && id.key in s.committed
  {
  }

  lemma WaitEndsTouches(s: State, next: State, id: Id)
    requires WaitEnds(s, next, id) && id in s.jobs && Local(s, id) && Tracked(s)
    requires s.jobs[id].reported
    ensures Touches(s, next, id) && Tracked(next)
  {
    hide Tracked, AllReach, Latest;
    TrackedStill(s, next, id);
  }

  lemma WaitEndsKeeps(s: State, next: State, id: Id, proxy: Key -> nat)
    requires Inv(s, proxy) && WaitEnds(s, next, id)
    ensures Inv(next, proxy)
  {
    hide Inv, Local, Latest, Tracked, Spread, Ordered, AllReach, Outstanding;
    Below(s, proxy);
    WaitEnded(s, next, id);
    WaitIsRight(s, id, proxy);
    WaitEndsTouches(s, next, id);
    TouchKeeps(s, next, id, proxy);
    forall b | b in next.jobs ensures Local(next, b) {
      WaitEndsLocal(s, next, id, b);
    }
    Together(next, proxy);
  }

  lemma WaitEndsLocal(s: State, next: State, id: Id, b: Id)
    requires WaitEnds(s, next, id) && id in s.jobs && b in s.jobs && Local(s, id) && Local(s, b) && (Latest(s, b) <==> Latest(next, b))
    requires s.jobs[id].reported
    ensures b in next.jobs && Local(next, b)
  {
    hide Latest;
  }

  /** A wait that has not ended is for the latest append of its key. */
  lemma WaitIsRight(s: State, id: Id, proxy: Key -> nat)
    requires Inv(s, proxy) && id in s.jobs && s.jobs[id].client == Sent && id.key in s.committed
    ensures s.jobs[id].reported && s.committed[id.key] == s.jobs[id].entry
  {
    assert Local(s, id);
    hide Local, Tracked, Spread;
    assert Latest(s, id);
  }

  lemma StepKeeps(s: State, next: State, step: Step, proxy: Key -> nat)
    requires Inv(s, proxy) && Does(s, next, step, proxy)
    requires step.IssueStep? ==> OwnDone(s, step.plan) && Clear(s, step.plan, proxy)
    ensures Inv(next, proxy)
  {
    hide Inv, Issue, Erase, Schedule, Register, Send, Accept, Report, WaitEnds, OwnDone, Clear;
    match step {
      case IssueStep(plan) => IssueKeeps(s, next, plan, proxy);
      case EraseStep(id) => EraseKeeps(s, next, id, proxy);
      case ScheduleStep(id) => ScheduleKeeps(s, next, id, proxy);
      case RegisterStep(id) => RegisterKeeps(s, next, id, proxy);
      case SendStep(id) => SendKeeps(s, next, id, proxy);
      case AcceptStep(id, conn) => AcceptKeeps(s, next, id, conn, proxy);
      case ReportStep(id) => ReportKeeps(s, next, id, proxy);
      case WaitEndsStep(id) => WaitEndsKeeps(s, next, id, proxy);
    }
  }

  lemma StartOk(proxy: Key -> nat)
    ensures Inv(START, proxy)
  {
  }

  lemma {:induction false} RunKeeps(states: seq<State>, steps: seq<Step>, proxy: Key -> nat, i: nat)
    requires IsRun(states, steps, proxy) && Careful(states, steps, proxy) && i <= |steps|
    ensures Inv(states[i], proxy)
  {
    hide Inv, Does, OwnDone, Clear;
    if i == 0 {
      StartOk(proxy);
    } else {
      RunKeeps(states, steps, proxy, i - 1);
      StepKeeps(states[i - 1], states[i], steps[i - 1], proxy);
    }
  }

  /** Issuing one append at a time is careful. */
  lemma OneAtATimeIsCareful(states: seq<State>, steps: seq<Step>, proxy: Key -> nat)
    requires IsRun(states, steps, proxy) && OneAtATime(states, steps)
    ensures Careful(states, steps, proxy)
  {
    hide Does;
    forall i | 0 <= i < |steps| && steps[i].IssueStep?
      ensures OwnDone(states[i], steps[i].plan) && Clear(states[i], steps[i].plan, proxy)
    {
      DoneIsReported(states, steps, proxy, i);
    }
  }

  lemma {:induction false} DoneIsReported(states: seq<State>, steps: seq<Step>, proxy: Key -> nat, i: nat)
    requires IsRun(states, steps, proxy) && OneAtATime(states, steps) && i <= |steps|
    ensures Inv(states[i], proxy)
    ensures forall id :: id in states[i].jobs && states[i].jobs[id].client == Done ==> Accepted(states[i].jobs[id])
  {
    hide Does;
    if i == 0 {
      StartOk(proxy);
    } else {
      DoneIsReported(states, steps, proxy, i - 1);
      hide Inv;
      StepKeeps(states[i - 1], states[i], steps[i - 1], proxy);
      DoneAccepted(states[i], proxy);
    }
  }

  lemma DoneAccepted(s: State, proxy: Key -> nat)
    requires Inv(s, proxy)
    ensures forall id :: id in s.jobs && s.jobs[id].client == Done ==> Accepted(s.jobs[id])
  {
    forall id | id in s.jobs && s.jobs[id].client == Done ensures Accepted(s.jobs[id]) {
      assert Local(s, id);
    }
  }

  // ----- what clients and proxies can rely on

  /** The wait ends after the report for the same append, and what is committed is the entry registered for it. */
  ghost predicate WaitRight(s: State, id: Id) {
    && id in s.jobs && s.jobs[id].reported
    && id.key in s.committed && s.committed[id.key] == s.jobs[id].entry
  }

  /** The thread reports on its own append's data, and what it commits was registered. */
  ghost predicate ReportRight(s: State, id: Id) {
    && id in s.jobs && s.jobs[id].thread == Got(id)
    && id.key in s.updating && s.updating[id.key] == s.jobs[id].entry
  }

  ghost predicate StepRight(s: State, step: Step) {
    && (step.WaitEndsStep? ==> WaitRight(s, step.id))
    && (step.ReportStep? ==> ReportRight(s, step.id))
  }

  /** In every careful run, a wait ends only after the proxy's report for the same append, and what is committed then is
      the entry registered for it. */
  lemma WaitsAreRight(states: seq<State>, steps: seq<Step>, proxy: Key -> nat, i: nat)
    requires IsRun(states, steps, proxy) && Careful(states, steps, proxy) && i < |steps|
    requires steps[i].WaitEndsStep?
    ensures WaitRight(states[i], steps[i].id)
    ensures exists n :: 0 <= n < i && steps[n] == ReportStep(steps[i].id)
  {
    var id := steps[i].id;
    RunKeeps(states, steps, proxy, i);
    assert Does(states[i], states[i + 1], steps[i], proxy);
    WaitIsRight(states[i], id, proxy);
    ReportedBefore(states, steps, proxy, i, id);
  }

  /** Once the latest append to a key is reported, its registered entry is what is committed. */
  lemma NewestReported(states: seq<State>, steps: seq<Step>, proxy: Key -> nat, i: nat, id: Id)
    requires IsRun(states, steps, proxy) && Careful(states, steps, proxy) && i <= |steps|
    requires id in states[i].jobs && Latest(states[i], id) && states[i].jobs[id].reported
    ensures id.key in states[i].committed && states[i].committed[id.key] == states[i].jobs[id].entry
  {
    RunKeeps(states, steps, proxy, i);
    assert Local(states[i], id);
  }

  /** A thread never reports on another append's data, and what it commits was registered. */
  lemma ReportsAreRight(states: seq<State>, steps: seq<Step>, proxy: Key -> nat, i: nat)
    requires IsRun(states, steps, proxy) && Careful(states, steps, proxy) && i < |steps|
    requires steps[i].ReportStep?
    ensures ReportRight(states[i], steps[i].id)
  {
    RunKeeps(states, steps, proxy, i);
    assert Does(states[i], states[i + 1], steps[i], proxy);
    assert Local(states[i], steps[i].id);
  }

  lemma {:induction false} ReportedBefore(states: seq<State>, steps: seq<Step>, proxy: Key -> nat, i: nat, id: Id)
    requires IsRun(states, steps, proxy) && i <= |steps| && id in states[i].jobs && states[i].jobs[id].reported
    ensures exists n :: 0 <= n < i && steps[n] == ReportStep(id)
  {
    if i == 0 {
    } else {
      assert Does(states[i - 1], states[i], steps[i - 1], proxy);
      if steps[i - 1] != ReportStep(id) {
        ReportedBefore(states, steps, proxy, i - 1, id);
      }
    }
  }
}
