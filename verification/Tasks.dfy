/** The agent task queue: tasks are created pending, delivered by polls in batches of the oldest
    ten, marked running one by one, and closed by results. */
module Tasks {
  import opened Options
  import Sets

  type TaskId = string
  type AgentId = string

  datatype Status = Pending | Running | Completed | Failed

  /** `created` is the instant of `created_at`, whose string order is its order. */
  datatype Task = Task(agent: AgentId, status: Status, created: int)

  /** The `LIMIT` of the polling query. */
  const BATCH := 10

  function Rank(s: Status): nat {
    match s
    case Pending => 0
    case Running => 1
    case Completed => 2
    case Failed => 2
  }

  function PendingOf(tasks: map<TaskId, Task>, agent: AgentId): set<TaskId> {
    set t | t in tasks && tasks[t].agent == agent && tasks[t].status == Pending
  }

  function Ids(ids: seq<TaskId>): set<TaskId> {
    set t | t in ids
  }

  /** The answers the polling query may give: at most ten pending tasks of the agent, oldest
      first, and all of them or ten that no other pending task is older than. */
  ghost predicate IsSelection(tasks: map<TaskId, Task>, agent: AgentId, ids: seq<TaskId>) {
    var pending := PendingOf(tasks, agent);
    && |ids| <= BATCH && Ids(ids) <= pending
    && (forall i, j :: 0 <= i < j < |ids| ==> ids[i] != ids[j] && ids[i] in tasks && ids[j] in tasks
                                              && tasks[ids[i]].created <= tasks[ids[j]].created)
    && (|ids| < BATCH ==> Ids(ids) == pending)
    && (forall t, u :: t in ids && u in pending && u !in ids ==> t in tasks && tasks[t].created <= tasks[u].created)
  }

  /** `UPDATE agent_tasks SET status='running' ... WHERE id=? AND status='pending'`. */
  function MarkRunning(tasks: map<TaskId, Task>, id: TaskId): map<TaskId, Task> {
    if id in tasks && tasks[id].status == Pending then tasks[id := tasks[id].(status := Running)] else tasks
  }

  /** `UPDATE agent_tasks SET status=? ... WHERE id=? AND agent_id=?`. */
  function PostResult(tasks: map<TaskId, Task>, agent: AgentId, id: TaskId, success: bool): map<TaskId, Task> {
    if id in tasks && tasks[id].agent == agent
    then tasks[id := tasks[id].(status := if success then Completed else Failed)]
    else tasks
  }

  // ----- interleaved polls and results -----

  /** A poll: the tasks its query returned, how many of them it has updated, and whether its request
      was cancelled before the last of these updates. */
  datatype Poll = Poll(agent: AgentId, ids: seq<TaskId>, done: nat, cut: bool)

  /** A poll has gone through all its tasks, or will update no more of them. */
  predicate Finished(p: Poll) {
    p.cut || p.done == |p.ids|
  }

  datatype Queue = Queue(tasks: map<TaskId, Task>, polls: seq<Poll>)

  datatype Action =
    | Create(id: TaskId, owner: AgentId, created: int)
    | Select(agent: AgentId, ids: seq<TaskId>)
    | Mark(poll: nat)
    | Cancel(poll: nat)
    | Result(agent: AgentId, id: TaskId, success: bool)

  ghost predicate Enabled(q: Queue, act: Action) {
    match act
    case Create(id, _, _) => id !in q.tasks
    case Select(agent, ids) => IsSelection(q.tasks, agent, ids)
    case Mark(p) => p < |q.polls| && !Finished(q.polls[p]) && q.polls[p].done < |q.polls[p].ids|
    case Cancel(p) => p < |q.polls| && !Finished(q.polls[p])
    case Result(_, _, _) => true
  }

  ghost function Apply(q: Queue, act: Action): Queue
    requires Enabled(q, act)
  {
    match act
    case Create(id, owner, created) => q.(tasks := q.tasks[id := Task(owner, Pending, created)])
    case Select(agent, ids) => q.(polls := q.polls + [Poll(agent, ids, 0, false)])
    case Mark(p) =>
      var poll := q.polls[p];
      Queue(MarkRunning(q.tasks, poll.ids[poll.done]), q.polls[p := poll.(done := poll.done + 1)])
    case Cancel(p) =>
      // the remaining updates fail, and their errors are discarded
      var poll := q.polls[p];
      q.(polls := q.polls[p := poll.(cut := true)])
    case Result(agent, id, success) => q.(tasks := PostResult(q.tasks, agent, id, success))
  }

  /** Whose request an action belongs to. */
  ghost function Requester(q: Queue, act: Action): AgentId
    requires Enabled(q, act)
  {
    match act
    case Create(_, owner, _) => owner
    case Select(agent, _) => agent
    case Mark(p) => q.polls[p].agent
    case Cancel(p) => q.polls[p].agent
    case Result(agent, _, _) => agent
  }

  /** A poll under way updates only tasks of its own agent. */
  ghost predicate QueueInv(q: Queue) {
    forall p, t :: 0 <= p < |q.polls| && t in q.polls[p].ids ==> t in q.tasks && q.tasks[t].agent == q.polls[p].agent
  }

  lemma QueueInvPreserved(q: Queue, act: Action)
    requires QueueInv(q) && Enabled(q, act)
    ensures QueueInv(Apply(q, act))
  {
    match act
    case Select(agent, ids) =>
      forall t | t in ids ensures t in q.tasks && q.tasks[t].agent == agent {
        assert t in Ids(ids);
      }
    case _ =>
  }

  /** The task stays with its agent and its rank does not fall. */
  ghost predicate Forward(q: Queue, q': Queue, t: TaskId) {
    t in q.tasks ==>
      && t in q'.tasks && q'.tasks[t].agent == q.tasks[t].agent && q'.tasks[t].created == q.tasks[t].created
      && Rank(q.tasks[t].status) <= Rank(q'.tasks[t].status)
  }

  /** No action moves a task back, and only its own agent's requests move it at all. */
  lemma StepForward(q: Queue, act: Action, t: TaskId)
    requires QueueInv(q) && Enabled(q, act)
    ensures Forward(q, Apply(q, act), t)
    ensures t in q.tasks && Apply(q, act).tasks[t] != q.tasks[t] ==> Requester(q, act) == q.tasks[t].agent
  {
    match act
    case Mark(p) => assert q.polls[p].ids[q.polls[p].done] in q.polls[p].ids;
    case _ =>
  }

  ghost predicate IsRun(queues: seq<Queue>, acts: seq<Action>) {
    && |queues| == |acts| + 1
    && queues[0] == Queue(map[], [])
    && forall k :: 0 <= k < |acts| ==> StepAt(queues, acts, k)
  }

  ghost predicate StepAt(queues: seq<Queue>, acts: seq<Action>, k: nat)
    requires k < |acts| < |queues|
  {
    Enabled(queues[k], acts[k]) && queues[k + 1] == Apply(queues[k], acts[k])
  }

  lemma {:induction false} RunInv(queues: seq<Queue>, acts: seq<Action>, k: nat)
    requires IsRun(queues, acts) && k <= |acts|
    ensures QueueInv(queues[k])
  {
    if k > 0 {
      RunInv(queues, acts, k - 1);
      assert StepAt(queues, acts, k - 1);
      QueueInvPreserved(queues[k - 1], acts[k - 1]);
    }
  }

  /** Over every run of interleaved polls and results, a task's rank never decreases. */
  lemma {:induction false} RankNeverDecreases(queues: seq<Queue>, acts: seq<Action>, n: nat, k: nat, t: TaskId)
    requires IsRun(queues, acts) && n <= k <= |acts|
    ensures Forward(queues[n], queues[k], t)
  {
    if n < k {
      RankNeverDecreases(queues, acts, n, k - 1, t);
      RunInv(queues, acts, k - 1);
      assert StepAt(queues, acts, k - 1);
      StepForward(queues[k - 1], acts[k - 1], t);
    }
  }

  /** A closed task stays closed: a poll that selected it before may deliver it again, but its
      update no longer applies, and no later query returns it. */
  lemma NeverReopened(queues: seq<Queue>, acts: seq<Action>, n: nat, k: nat, t: TaskId, agent: AgentId, ids: seq<TaskId>)
    requires IsRun(queues, acts) && n <= k <= |acts|
    requires t in queues[n].tasks && queues[n].tasks[t].status != Pending
    requires IsSelection(queues[k].tasks, agent, ids)
    ensures t in queues[k].tasks && queues[k].tasks[t].status != Pending && t !in ids
    ensures MarkRunning(queues[k].tasks, t) == queues[k].tasks
  {
    RankNeverDecreases(queues, acts, n, k, t);
    assert t in ids ==> t in Ids(ids);
  }

  /** The last result its own agent has posted for an existing task within the first `n` actions. */
  ghost function LastResult(queues: seq<Queue>, acts: seq<Action>, n: nat, t: TaskId): Option<bool>
    requires n <= |acts| < |queues|
  {
    if n == 0 then None
    else if acts[n - 1].Result? && acts[n - 1].id == t && t in queues[n - 1].tasks
            && queues[n - 1].tasks[t].agent == acts[n - 1].agent
    then Some(acts[n - 1].success)
    else LastResult(queues, acts, n - 1, t)
  }

  /** A poll has updated the task within the first `n` actions. */
  ghost predicate WasMarked(queues: seq<Queue>, acts: seq<Action>, n: nat, t: TaskId)
    requires n <= |acts| < |queues|
  {
    n > 0 && (WasMarked(queues, acts, n - 1, t) || MarksAt(queues[n - 1], acts[n - 1], t))
  }

  ghost predicate MarksAt(q: Queue, act: Action, t: TaskId) {
    act.Mark? && t in q.tasks && act.poll < |q.polls| && q.polls[act.poll].done < |q.polls[act.poll].ids|
    && q.polls[act.poll].ids[q.polls[act.poll].done] == t
  }

  /** On every run a task's status says what its agent last reported; while it has not reported, the
      task is running if a poll has updated it and pending otherwise. */
  lemma {:induction false} StatusIsLastResult(queues: seq<Queue>, acts: seq<Action>, n: nat, t: TaskId)
    requires IsRun(queues, acts) && n <= |acts| && t in queues[n].tasks
    ensures match LastResult(queues, acts, n, t)
            case Some(success) => queues[n].tasks[t].status == if success then Completed else Failed
            case None => queues[n].tasks[t].status == if WasMarked(queues, acts, n, t) then Running else Pending
  {
    if n > 0 {
      assert StepAt(queues, acts, n - 1);
      if t in queues[n - 1].tasks {
        StatusIsLastResult(queues, acts, n - 1, t);
      } else {
        NoResultYet(queues, acts, n - 1, t);
      }
    }
  }

  /** A task that does not exist has no result and no update. */
  lemma {:induction false} NoResultYet(queues: seq<Queue>, acts: seq<Action>, n: nat, t: TaskId)
    requires IsRun(queues, acts) && n <= |acts| && t !in queues[n].tasks
    ensures LastResult(queues, acts, n, t) == None && !WasMarked(queues, acts, n, t)
  {
    if n > 0 {
      RankNeverDecreases(queues, acts, n - 1, n, t);
      NoResultYet(queues, acts, n - 1, t);
    }
  }

  function Least(a: nat, b: nat): nat {
    if a < b then a else b
  }

  class TaskTable {
    var tasks: map<TaskId, Task>

    /** The polling query: ten times the oldest pending task not taken yet. */
    method SelectPending(agent: AgentId) returns (ids: seq<TaskId>)
      ensures IsSelection(tasks, agent, ids)
      ensures |ids| <= 10 && forall t :: t in ids ==> t in tasks && tasks[t].agent == agent && tasks[t].status == Pending
      ensures forall u :: u in tasks && tasks[u].agent == agent && tasks[u].status == Pending && u !in ids ==>
                |ids| == 10 && forall t :: t in ids ==> tasks[t].created <= tasks[u].created
      ensures forall i, j :: 0 <= i < j < |ids| ==> ids[i] != ids[j] && tasks[ids[i]].created <= tasks[ids[j]].created
    {
      ids := [];
      var rest := PendingOf(tasks, agent);
      while |ids| < BATCH && rest != {}
        invariant |ids| <= BATCH && Ids(ids) + rest == PendingOf(tasks, agent) && Ids(ids) !! rest
        invariant forall i, j :: 0 <= i < j < |ids| ==> ids[i] != ids[j] && ids[i] in tasks && ids[j] in tasks
                                                        && tasks[ids[i]].created <= tasks[ids[j]].created
        invariant forall t, u :: t in ids && u in rest ==> t in tasks && tasks[t].created <= tasks[u].created
        decreases rest
      {
        var oldest := Oldest(rest);
        assert Ids(ids + [oldest]) == Ids(ids) + {oldest};
        assert forall t :: t in ids ==> t in Ids(ids);
        ids := ids + [oldest];
        rest := rest - {oldest};
      }
      assert forall t :: t in ids <==> t in Ids(ids);
    }

    /** A member of the set with the least creation instant. */
    method Oldest(candidates: set<TaskId>) returns (t: TaskId)
      requires candidates != {} && forall u :: u in candidates ==> u in tasks
      ensures t in candidates && forall u :: u in candidates ==> tasks[t].created <= tasks[u].created
    {
      t :| t in candidates;
      var rest := candidates - {t};
      while rest != {}
        invariant t in candidates && rest <= candidates
        invariant forall u :: u in candidates - rest ==> tasks[t].created <= tasks[u].created
        decreases rest
      {
        var u :| u in rest;
        if tasks[u].created < tasks[t].created {
          t := u;
        }
        rest := rest - {u};
      }
    }

    /** `agentTasks` without interference, for a request that lives for `lifetime` statements. The
        query returns a selection, of which a request cancelled right after it may read only the
        beginning; the returned tasks are marked running as long as the request lives. */
    method PollOnce(agent: AgentId, lifetime: nat) returns (ids: Option<seq<TaskId>>, ghost selection: seq<TaskId>)
      modifies this
      ensures ids.None? <==> lifetime == 0
      ensures ids.None? ==> tasks == old(tasks)
      ensures ids.Some? ==>
                && IsSelection(old(tasks), agent, selection)
                && ids.value <= selection && (lifetime >= 2 ==> ids.value == selection)
      ensures tasks.Keys == old(tasks).Keys
      ensures ids.Some? ==>
                var marked := ids.value[..Least(|ids.value|, lifetime - 1)];
                && (forall t :: t in tasks ==>
                      tasks[t] == if t in marked then old(tasks)[t].(status := Running) else old(tasks)[t])
                && PendingOf(tasks, agent) == PendingOf(old(tasks), agent) - Ids(marked)
    {
      if lifetime == 0 {
        return None, [];
      }
      var chosen := SelectPending(agent);
      selection := chosen;
      var n := |chosen|;
      if lifetime == 1 {
        n :| 0 <= n <= |chosen|;
      }
      var read := chosen[..n];
      assert forall t :: t in chosen ==> t in Ids(chosen);
      MarkAll(agent, chosen, read, Least(n, lifetime - 1));
      assert chosen[..|chosen|] == chosen;
      ids := Some(read);
    }

    /** The first `n` updates of a poll. */
    method MarkAll(agent: AgentId, ghost chosen: seq<TaskId>, read: seq<TaskId>, n: nat)
      requires IsSelection(tasks, agent, chosen) && read <= chosen && n <= |read|
      modifies this
      ensures tasks.Keys == old(tasks).Keys
      ensures forall t :: t in tasks ==>
                tasks[t] == if t in read[..n] then old(tasks)[t].(status := Running) else old(tasks)[t]
      ensures PendingOf(tasks, agent) == PendingOf(old(tasks), agent) - Ids(read[..n])
    {
      for k := 0 to n
        invariant tasks.Keys == old(tasks).Keys
        invariant forall t :: t in tasks ==>
                    tasks[t] == if t in read[..k] then old(tasks)[t].(status := Running) else old(tasks)[t]
      {
        assert read[k] == chosen[k] && chosen[k] in Ids(chosen);
        if tasks[read[k]].status == Pending {
          tasks := tasks[read[k] := tasks[read[k]].(status := Running)];
        }
      }
      assert forall t :: t in read[..n] <==> t in Ids(read[..n]);
    }

    /** `agentTaskResult`: only a task of the posting agent is closed, by whatever it reports. */
    method CloseTask(agent: AgentId, id: TaskId, success: bool) returns (found: bool)
      modifies this
      ensures found <==> id in old(tasks) && old(tasks)[id].agent == agent
      ensures tasks == PostResult(old(tasks), agent, id, success)
      ensures tasks == if found then old(tasks)[id := old(tasks)[id].(status := if success then Completed else Failed)]
                       else old(tasks)
    {
      found := id in tasks && tasks[id].agent == agent;
      if found {
        var status := Failed;
        if success {
          status := Completed;
        }
        tasks := tasks[id := tasks[id].(status := status)];
      }
    }
  }

  // ----- one poller for an agent -----

  ghost predicate Idle(q: Queue, agent: AgentId) {
    forall p :: 0 <= p < |q.polls| && q.polls[p].agent == agent ==> Finished(q.polls[p])
  }

  /** Poll `p` of the agent has still to mark the task. */
  ghost predicate Holds(q: Queue, p: int, agent: AgentId, t: TaskId) {
    0 <= p < |q.polls| && q.polls[p].agent == agent && !q.polls[p].cut && q.polls[p].done <= |q.polls[p].ids|
    && t in q.polls[p].ids[q.polls[p].done..]
  }

  ghost predicate Held(q: Queue, agent: AgentId, t: TaskId) {
    exists p :: Holds(q, p, agent, t)
  }

  /** The agent's pending tasks that no poll under way has taken. */
  ghost function Waiting(q: Queue, agent: AgentId): set<TaskId> {
    set t | t in PendingOf(q.tasks, agent) && !Held(q, agent, t)
  }

  /** Those created no later than an instant, without `t`. */
  ghost function Ahead(q: Queue, agent: AgentId, t: TaskId, created: int): set<TaskId> {
    set u | u in Waiting(q, agent) && u != t && u in q.tasks && q.tasks[u].created <= created
  }

  /** One poller: the agent polls when its earlier polls are finished, and these are not cancelled.
      Its later tasks carry later timestamps, and it posts no result for the task it waits for. */
  ghost predicate Orderly(q: Queue, act: Action, agent: AgentId, t: TaskId, created: int)
    requires Enabled(q, act)
  {
    match act
    case Create(_, owner, at) => owner == agent ==> at > created
    case Select(a, _) => a == agent ==> Idle(q, agent)
    case Mark(_) => true
    case Cancel(p) => q.polls[p].agent != agent
    case Result(a, id, _) => a == agent ==> id != t
  }

  ghost predicate Delivers(act: Action, agent: AgentId, t: TaskId) {
    act.Select? && act.agent == agent && t in act.ids
  }

  lemma {:induction false} SizeOfIds(ids: seq<TaskId>)
    requires forall i, j :: 0 <= i < j < |ids| ==> ids[i] != ids[j]
    ensures |Ids(ids)| == |ids|
  {
    if ids != [] {
      var init := ids[..|ids| - 1];
      SizeOfIds(init);
      assert Ids(ids) == Ids(init) + {ids[|ids| - 1]};
    }
  }

  /** Marking takes a task out of the poll's hands and of the pending ones together. */
  lemma WaitingMark(q: Queue, p: nat, agent: AgentId)
    requires QueueInv(q) && Enabled(q, Mark(p))
    ensures Waiting(Apply(q, Mark(p)), agent) == Waiting(q, agent)
  {
    var q', poll := Apply(q, Mark(p)), q.polls[p];
    var m := poll.ids[poll.done];
    assert m in poll.ids;
    forall t ensures t in Waiting(q', agent) <==> t in Waiting(q, agent) {
      assert poll.ids[poll.done..] == [m] + poll.ids[poll.done + 1..];
      if t in Waiting(q', agent) {
        forall r | Holds(q, r, agent, t) ensures false {
          assert t != m;
          assert Holds(q', r, agent, t);
        }
      }
      if t in Waiting(q, agent) {
        assert t == m && poll.agent == agent ==> Holds(q, p, agent, t);
        forall r | Holds(q', r, agent, t) ensures false {
          assert Holds(q, r, agent, t);
        }
      }
    }
  }

  /** Queries, cancellations and results of others, and their tasks' arrival, change nothing. */
  lemma WaitingOthers(q: Queue, act: Action, agent: AgentId)
    requires QueueInv(q) && Enabled(q, act) && !act.Mark? && Requester(q, act) != agent
    ensures Waiting(Apply(q, act), agent) == Waiting(q, agent)
  {
    var q' := Apply(q, act);
    assert PendingOf(q'.tasks, agent) == PendingOf(q.tasks, agent);
    forall t, p ensures Holds(q', p, agent, t) <==> Holds(q, p, agent, t) {
    }
  }

  /** An idle agent's polls hold nothing. */
  lemma IdleHolds(q: Queue, agent: AgentId, t: TaskId)
    requires Idle(q, agent)
    ensures !Held(q, agent, t)
  {
    forall p | 0 <= p < |q.polls| && q.polls[p].agent == agent && !q.polls[p].cut && q.polls[p].done <= |q.polls[p].ids|
      ensures !Holds(q, p, agent, t)
    {
      assert q.polls[p].ids[q.polls[p].done..] == [];
    }
  }

  lemma WaitingSelect(q: Queue, agent: AgentId, ids: seq<TaskId>)
    requires Enabled(q, Select(agent, ids)) && Idle(q, agent)
    ensures Waiting(q, agent) == PendingOf(q.tasks, agent)
    ensures Waiting(Apply(q, Select(agent, ids)), agent) == PendingOf(q.tasks, agent) - Ids(ids)
  {
    var q' := Apply(q, Select(agent, ids));
    forall t ensures Held(q', agent, t) <==> t in ids {
      if t in ids {
        assert ids[0..] == ids && Holds(q', |q.polls|, agent, t);
      }
      forall p | Holds(q', p, agent, t) ensures t in ids {
      }
    }
    forall t ensures !Held(q, agent, t) {
      IdleHolds(q, agent, t);
    }
  }

  lemma WaitingOwn(q: Queue, act: Action, agent: AgentId)
    requires QueueInv(q) && Enabled(q, act) && (act.Create? || act.Result?) && Requester(q, act) == agent
    ensures var q' := Apply(q, act);
            if act.Create? then Waiting(q', agent) <= Waiting(q, agent) + {act.id} else Waiting(q', agent) == Waiting(q, agent) - {act.id}
    ensures act.Create? ==> Waiting(q, agent) <= Waiting(Apply(q, act), agent)
  {
    var q' := Apply(q, act);
    forall t, p ensures Holds(q', p, agent, t) <==> Holds(q, p, agent, t) {
    }
  }

  /** One action of an orderly run: nothing gets ahead of the waiting task, and it goes on waiting
      unless it is delivered. */
  lemma AheadStep(q: Queue, act: Action, agent: AgentId, t: TaskId)
    requires QueueInv(q) && Enabled(q, act) && t in Waiting(q, agent)
    requires Orderly(q, act, agent, t, q.tasks[t].created) && !Delivers(act, agent, t)
    ensures var q' := Apply(q, act);
            && t in Waiting(q', agent) && t in q'.tasks && q'.tasks[t].created == q.tasks[t].created
            && Ahead(q', agent, t, q.tasks[t].created) <= Ahead(q, agent, t, q.tasks[t].created)
  {
    if act.Mark? {
      WaitingMark(q, act.poll, agent);
      assert q.polls[act.poll].ids[q.polls[act.poll].done] in q.polls[act.poll].ids;
    } else if Requester(q, act) != agent {
      WaitingOthers(q, act, agent);
    } else if act.Select? {
      WaitingSelect(q, agent, act.ids);
    } else {
      WaitingOwn(q, act, agent);
    }
  }

  /** A poll that passes `t` over is full, and takes only tasks ahead of it. */
  lemma TakenAreAhead(q: Queue, agent: AgentId, ids: seq<TaskId>, t: TaskId)
    requires Enabled(q, Select(agent, ids)) && Waiting(q, agent) == PendingOf(q.tasks, agent)
    requires t in PendingOf(q.tasks, agent) && t !in ids
    ensures |ids| == BATCH && Ids(ids) <= Ahead(q, agent, t, q.tasks[t].created)
  {
    assert t !in Ids(ids);
    forall u | u in Ids(ids) ensures u in Ahead(q, agent, t, q.tasks[t].created) {
      assert u in ids;
    }
  }

  /** A poll that passes `t` over takes ten tasks ahead of it. */
  lemma PassedOver(q: Queue, agent: AgentId, ids: seq<TaskId>, t: TaskId)
    requires Enabled(q, Select(agent, ids)) && Idle(q, agent) && t in Waiting(q, agent) && t !in ids
    ensures |Ahead(Apply(q, Select(agent, ids)), agent, t, q.tasks[t].created)| + 10 <= |Ahead(q, agent, t, q.tasks[t].created)|
  {
    var created := q.tasks[t].created;
    var after, before := Ahead(Apply(q, Select(agent, ids)), agent, t, created), Ahead(q, agent, t, created);
    WaitingSelect(q, agent, ids);
    TakenAreAhead(q, agent, ids, t);
    SizeOfIds(ids);
    assert after !! Ids(ids) && after <= before;
    Sets.SubsetSize(after + Ids(ids), before);
  }

  /** The polls of the agent among the actions from the `n`-th up to the `m`-th. */
  ghost function PollsOf(acts: seq<Action>, n: nat, m: nat, agent: AgentId): nat
    requires n <= m <= |acts|
  {
    if n == m then 0
    else PollsOf(acts, n, m - 1, agent) + (if acts[m - 1].Select? && acts[m - 1].agent == agent then 1 else 0)
  }

  /** The actions from the `n`-th up to the `m`-th are orderly. */
  ghost predicate OrderlyRun(queues: seq<Queue>, acts: seq<Action>, n: nat, m: nat, agent: AgentId, t: TaskId, created: int)
    requires n <= m <= |acts| < |queues|
  {
    forall j :: n <= j < m ==> Enabled(queues[j], acts[j]) && Orderly(queues[j], acts[j], agent, t, created)
  }

  /** As long as `t` has been passed over, ten tasks that were ahead of it have gone with each poll. */
  lemma {:induction false} PassedOverRepeatedly(queues: seq<Queue>, acts: seq<Action>, n: nat, m: nat, agent: AgentId, t: TaskId)
    requires IsRun(queues, acts) && n <= m <= |acts| && t in Waiting(queues[n], agent)
    requires OrderlyRun(queues, acts, n, m, agent, t, queues[n].tasks[t].created)
    requires forall j :: n <= j < m ==> !Delivers(acts[j], agent, t)
    ensures t in Waiting(queues[m], agent) && queues[m].tasks[t].created == queues[n].tasks[t].created
    ensures var created := queues[n].tasks[t].created;
            |Ahead(queues[m], agent, t, created)| + 10 * PollsOf(acts, n, m, agent) <= |Ahead(queues[n], agent, t, created)|
  {
    if n < m {
      PassedOverRepeatedly(queues, acts, n, m - 1, agent, t);
      var q, act, created := queues[m - 1], acts[m - 1], queues[n].tasks[t].created;
      RunInv(queues, acts, m - 1);
      assert StepAt(queues, acts, m - 1);
      AheadStep(q, act, agent, t);
      if act.Select? && act.agent == agent {
        PassedOver(q, agent, act.ids, t);
      } else {
        Sets.SubsetSize(Ahead(queues[m], agent, t, created), Ahead(q, agent, t, created));
      }
    }
  }

  /** No starvation: on every run with one poller, a waiting task with `k` waiting tasks created no
      later is delivered within `k / 10 + 1` polls of its agent. */
  lemma NoStarvation(queues: seq<Queue>, acts: seq<Action>, n: nat, m: nat, agent: AgentId, t: TaskId)
    requires IsRun(queues, acts) && n <= m <= |acts| && t in Waiting(queues[n], agent)
    requires OrderlyRun(queues, acts, n, m, agent, t, queues[n].tasks[t].created)
    requires PollsOf(acts, n, m, agent) >= |Ahead(queues[n], agent, t, queues[n].tasks[t].created)| / 10 + 1
    ensures exists j :: n <= j < m && Delivers(acts[j], agent, t)
  {
    if forall j :: n <= j < m ==> !Delivers(acts[j], agent, t) {
      PassedOverRepeatedly(queues, acts, n, m, agent, t);
    }
  }

  // ----- what a poll leaves pending -----

  /** The tasks a poll has updated are no longer pending. */
  ghost predicate Marked(q: Queue, p: nat) {
    p < |q.polls| ==>
      && q.polls[p].done <= |q.polls[p].ids|
      && forall d :: 0 <= d < q.polls[p].done ==>
           q.polls[p].ids[d] in q.tasks && q.tasks[q.polls[p].ids[d]].status != Pending
  }

  lemma MarkedStep(q: Queue, act: Action, p: nat)
    requires QueueInv(q) && Enabled(q, act) && Marked(q, p)
    ensures Marked(Apply(q, act), p)
  {
    match act
    case Mark(r) => assert q.polls[r].ids[q.polls[r].done] in q.polls[r].ids;
    case _ =>
  }

  lemma {:induction false} RunMarked(queues: seq<Queue>, acts: seq<Action>, k: nat, p: nat)
    requires IsRun(queues, acts) && k <= |acts|
    ensures Marked(queues[k], p)
  {
    if k > 0 {
      RunMarked(queues, acts, k - 1, p);
      RunInv(queues, acts, k - 1);
      assert StepAt(queues, acts, k - 1);
      MarkedStep(queues[k - 1], acts[k - 1], p);
    }
  }

  /** A poll keeps its agent and its tasks. */
  lemma {:induction false} PollStays(queues: seq<Queue>, acts: seq<Action>, n: nat, k: nat, p: nat)
    requires IsRun(queues, acts) && n <= k <= |acts| && p < |queues[n].polls|
    ensures p < |queues[k].polls|
    ensures queues[k].polls[p].agent == queues[n].polls[p].agent && queues[k].polls[p].ids == queues[n].polls[p].ids
  {
    if n < k {
      PollStays(queues, acts, n, k - 1, p);
      assert StepAt(queues, acts, k - 1);
    }
  }

  /** Poll `p` is the agent's only one under way; `t` is the `d`-th task it returned. */
  ghost predicate OnlyPoll(q: Queue, p: nat, agent: AgentId, t: TaskId, d: nat) {
    && p < |q.polls| && q.polls[p].agent == agent && d < |q.polls[p].ids| && q.polls[p].ids[d] == t
    && (forall e :: 0 <= e < |q.polls[p].ids| && q.polls[p].ids[e] == t ==> e == d)
    && (forall r :: 0 <= r < |q.polls| && r != p && q.polls[r].agent == agent ==> Finished(q.polls[r]))
  }

  /** Not updated and not reported, the task is still pending. */
  ghost predicate StillPending(q: Queue, p: nat, agent: AgentId, t: TaskId, d: nat) {
    OnlyPoll(q, p, agent, t, d) && t in q.tasks && q.tasks[t].agent == agent
    && (q.polls[p].done <= d ==> q.tasks[t].status == Pending)
  }

  lemma StillPendingStep(q: Queue, act: Action, p: nat, agent: AgentId, t: TaskId, d: nat)
    requires QueueInv(q) && Enabled(q, act) && StillPending(q, p, agent, t, d)
    requires act.Select? ==> act.agent != agent
    requires act.Result? && act.agent == agent ==> act.id != t
    ensures StillPending(Apply(q, act), p, agent, t, d)
  {
    match act
    case Mark(r) => assert q.polls[r].ids[q.polls[r].done] in q.polls[r].ids;
    case _ =>
  }

  /** A selection returns each task once. */
  lemma SelectedOnce(tasks: map<TaskId, Task>, agent: AgentId, ids: seq<TaskId>, d: nat)
    requires IsSelection(tasks, agent, ids) && d < |ids|
    ensures ids[d] in tasks && tasks[ids[d]].agent == agent && tasks[ids[d]].status == Pending
    ensures forall e :: 0 <= e < |ids| && ids[e] == ids[d] ==> e == d
  {
    assert ids[d] in Ids(ids);
  }

  /** No further poll of the agent among these actions. */
  ghost predicate NoPoll(acts: seq<Action>, n: nat, m: nat, agent: AgentId)
    requires n <= m <= |acts|
  {
    forall j :: n <= j < m ==> !(acts[j].Select? && acts[j].agent == agent)
  }

  lemma {:induction false} StillPendingRun(queues: seq<Queue>, acts: seq<Action>, n: nat, k: nat, p: nat,
                                           agent: AgentId, t: TaskId, d: nat)
    requires IsRun(queues, acts) && n <= k <= |acts| && NoPoll(acts, n, k, agent)
    requires StillPending(queues[n], p, agent, t, d) && LastResult(queues, acts, k, t).None?
    ensures StillPending(queues[k], p, agent, t, d)
  {
    if n < k {
      StillPendingRun(queues, acts, n, k - 1, p, agent, t, d);
      RunInv(queues, acts, k - 1);
      assert StepAt(queues, acts, k - 1);
      StillPendingStep(queues[k - 1], acts[k - 1], p, agent, t, d);
    }
  }

  lemma AfterSelect(q: Queue, agent: AgentId, ids: seq<TaskId>, d: nat)
    requires Enabled(q, Select(agent, ids)) && Idle(q, agent) && d < |ids|
    ensures StillPending(Apply(q, Select(agent, ids)), |q.polls|, agent, ids[d], d)
  {
    SelectedOnce(q.tasks, agent, ids, d);
  }

  /** Until the agent polls again, a task its poll has returned is pending exactly if the poll has
      not updated it and its agent has not reported it. For a finished poll, the former means that
      the poll was cut before that task's own update. */
  lemma PendingAfterPollIff(queues: seq<Queue>, acts: seq<Action>, i: nat, k: nat, agent: AgentId, d: nat)
    requires IsRun(queues, acts) && i < k <= |acts| && acts[i].Select? && acts[i].agent == agent && d < |acts[i].ids|
    requires Idle(queues[i], agent) && NoPoll(acts, i + 1, k, agent)
    ensures |queues[i].polls| < |queues[k].polls| && acts[i].ids[d] in queues[k].tasks
    ensures var t, poll := acts[i].ids[d], queues[k].polls[|queues[i].polls|];
            && (queues[k].tasks[t].status == Pending <==> poll.done <= d && LastResult(queues, acts, k, t).None?)
            && (Finished(poll) && poll.done <= d ==> poll.cut)
  {
    var t, p := acts[i].ids[d], |queues[i].polls|;
    assert StepAt(queues, acts, i);
    AfterSelect(queues[i], agent, acts[i].ids, d);
    PollStays(queues, acts, i + 1, k, p);
    RankNeverDecreases(queues, acts, i + 1, k, t);
    StatusIsLastResult(queues, acts, k, t);
    RunMarked(queues, acts, k, p);
    if LastResult(queues, acts, k, t).None? {
      StillPendingRun(queues, acts, i + 1, k, p, agent, t, d);
    }
  }

  /** A task that a finished poll has left pending waits for the agent's next polls, and by
      `NoStarvation` one of these returns it. */
  lemma LeftPendingWaits(queues: seq<Queue>, acts: seq<Action>, i: nat, k: nat, agent: AgentId, d: nat)
    requires IsRun(queues, acts) && i < k <= |acts| && acts[i].Select? && acts[i].agent == agent && d < |acts[i].ids|
    requires Idle(queues[i], agent) && NoPoll(acts, i + 1, k, agent) && Idle(queues[k], agent)
    requires LastResult(queues, acts, k, acts[i].ids[d]).None?
    ensures |queues[i].polls| < |queues[k].polls|
    ensures acts[i].ids[d] in Waiting(queues[k], agent) <==> queues[k].polls[|queues[i].polls|].done <= d
  {
    var t := acts[i].ids[d];
    PendingAfterPollIff(queues, acts, i, k, agent, d);
    assert StepAt(queues, acts, i);
    SelectedOnce(queues[i].tasks, agent, acts[i].ids, d);
    RankNeverDecreases(queues, acts, i, k, t);
    IdleHolds(queues[k], agent, t);
  }

  lemma NotSelected(tasks: map<TaskId, Task>, agent: AgentId, ids: seq<TaskId>, t: TaskId)
    requires IsSelection(tasks, agent, ids) && t in tasks && tasks[t].status != Pending
    ensures t !in ids
  {
    assert t in ids ==> t in Ids(ids);
  }

  /** Two polls of one poller never deliver the same task, unless the first was cut before that task's
      own update. */
  lemma DeliveredOnce(queues: seq<Queue>, acts: seq<Action>, i: nat, j: nat, agent: AgentId, d: nat)
    requires IsRun(queues, acts) && i < j < |acts| && acts[i].Select? && acts[i].agent == agent && d < |acts[i].ids|
    requires acts[j].Select? && acts[j].agent == agent && Idle(queues[j], agent)
    ensures |queues[i].polls| < |queues[j].polls|
    ensures var poll := queues[j].polls[|queues[i].polls|];
            acts[i].ids[d] in acts[j].ids ==> poll.cut && poll.done <= d
  {
    var p, t := |queues[i].polls|, acts[i].ids[d];
    assert StepAt(queues, acts, i) && StepAt(queues, acts, j);
    PollStays(queues, acts, i + 1, j, p);
    RunMarked(queues, acts, j, p);
    if d < queues[j].polls[p].done {
      NotSelected(queues[j].tasks, agent, acts[j].ids, t);
    }
  }

  /** A cancelled poll's tasks are delivered again. */
  lemma CancelledPollRedelivers()
    ensures exists queues: seq<Queue>, acts: seq<Action> ::
              IsRun(queues, acts) && |acts| == 4 && Delivers(acts[1], "a", "t") && Delivers(acts[3], "a", "t")
              && Idle(queues[3], "a")
  {
    var pending: map<TaskId, Task> := map["t" := Task("a", Pending, 0)];
    var live, cut := Poll("a", ["t"], 0, false), Poll("a", ["t"], 0, true);
    var q0, q1, q2, q3, q4 := Queue(map[], []), Queue(pending, []), Queue(pending, [live]), Queue(pending, [cut]),
                              Queue(pending, [cut, live]);
    var queues, acts := [q0, q1, q2, q3, q4], [Create("t", "a", 0), Select("a", ["t"]), Cancel(0), Select("a", ["t"])];
    OnlyTask(pending);
    assert StepAt(queues, acts, 0) && StepAt(queues, acts, 1) && StepAt(queues, acts, 2) && StepAt(queues, acts, 3);
    assert IsRun(queues, acts);
  }

  lemma OnlyTask(pending: map<TaskId, Task>)
    requires pending == map["t" := Task("a", Pending, 0)]
    ensures IsSelection(pending, "a", ["t"])
  {
    assert PendingOf(pending, "a") == {"t"} == Ids(["t"]);
  }
}
