/** Document write locks: tasks that lock the documents they touch in sorted
    order, run their operation, and unlock. Every step is one stretch of code
    between two awaits. */
module DocumentWriteLock {
  import opened StringOrder
  import opened WriteLockQueues

  /** The steps a task still has to take. */
  function Steps(task: Task): nat
    requires |task.previous| <= |task.keys|
  {
    match task.stage
    case Acquiring => 2 * (|task.keys| - |task.previous|) + 1 + |task.keys|
    case Waiting => 2 * (|task.keys| - |task.previous|) + 2 + |task.keys|
    case Releasing => |task.previous|
  }

  ghost function Remaining(tasks: map<TaskId, Task>): nat
    requires forall id | id in tasks :: |tasks[id].previous| <= |tasks[id].keys|
    decreases |tasks|
  {
    if tasks == map[] then 0
    else
      var id :| id in tasks;
      assert |tasks - {id}| < |tasks| by {
        assert (tasks - {id}).Keys == tasks.Keys - {id};
      }
      Steps(tasks[id]) + Remaining(tasks - {id})
  }

  lemma {:induction false} RemainingIsSum(tasks: map<TaskId, Task>, id: TaskId)
    requires forall i | i in tasks :: |tasks[i].previous| <= |tasks[i].keys|
    requires id in tasks
    ensures Remaining(tasks) == Steps(tasks[id]) + Remaining(tasks - {id})
    decreases |tasks|
  {
    var first :| first in tasks && Remaining(tasks) == Steps(tasks[first]) + Remaining(tasks - {first});
    if first != id {
      var rest := tasks - {first};
      assert rest.Keys == tasks.Keys - {first};
      RemainingIsSum(rest, id);
      var other := tasks - {id};
      assert other.Keys == tasks.Keys - {id};
      assert rest - {id} == other - {first};
      RemainingIsSum(other, first);
    }
  }

  lemma FewerRemain(tasks: map<TaskId, Task>, id: TaskId, task: Task)
    requires forall i | i in tasks :: |tasks[i].previous| <= |tasks[i].keys|
    requires id in tasks && |task.previous| <= |task.keys| && Steps(task) < Steps(tasks[id])
    ensures Remaining(tasks[id := task]) < Remaining(tasks)
  {
    RemainingIsSum(tasks, id);
    RemainingIsSum(tasks[id := task], id);
    assert tasks[id := task] - {id} == tasks - {id};
  }

  lemma StepsFall(task: Task, found: Promise)
    ensures task.stage == Acquiring && |task.previous| < |task.keys| ==>
              |Asking(task, found).previous| <= |Asking(task, found).keys| && Asking(task, found).stage == Waiting
              && Steps(Asking(task, found)) < Steps(task)
    ensures task.stage == Releasing && 0 < |task.previous| <= |task.keys| ==>
              |Inner(task).previous| <= |task.keys| == |Inner(task).keys| && Inner(task).stage == Releasing
              && Steps(Inner(task)) < Steps(task)
  {
  }

  lemma Sized(tails: map<string, Promise>, released: set<Ticket>, tasks: map<TaskId, Task>, queues: map<string, Queue>)
    requires Inv(tails, released, tasks, queues)
    ensures forall id | id in tasks :: |tasks[id].previous| <= |tasks[id].keys|
  {
  }

  class WriteLocks {
    var tails: map<string, Promise>
    var released: set<Ticket>
    var tasks: map<TaskId, Task>
    ghost var queues: map<string, Queue>

    ghost predicate Valid()
      reads this
    {
      && Inv(tails, released, tasks, queues)
      && forall t | t in released :: t.task in tasks && tasks[t.task].stage == Releasing
    }

    constructor ()
      ensures Valid() && tasks == map[] && tails == map[]
    {
      tails, released, tasks := map[], {}, map[];
      queues := map[];
    }

    /** A task asks for the locks of all its paths. */
    method WithDocumentWriteLocks(id: TaskId, paths: seq<string>)
      requires Valid() && id !in tasks
      modifies this
      ensures Valid() && queues == old(queues) && tails == old(tails)
      ensures id in tasks && tasks == old(tasks)[id := Task(tasks[id].keys, [], Acquiring)]
      ensures forall p :: p in tasks[id].keys <==> p in paths
    {
      var keys := SortDistinct(set p | p in paths);
      tasks := tasks[id := Task(keys, [], Acquiring)];
      forall k, n: nat | k in queues && n < |queues[k].tickets|
        ensures Owned(tasks, k, queues[k], n)
      {
        assert Owned(old(tasks), k, queues[k], n);
      }
      forall i, j: nat | i in tasks && j < |tasks[i].previous|
        ensures Queued(tasks[i], i, j, queues)
      {
        assert Queued(old(tasks)[i], i, j, queues);
      }
    }

    /** Up to the await: the request joins the end of its key's queue. */
    method Enter(id: TaskId)
      requires Valid() && id in tasks && tasks[id].stage == Acquiring && |tasks[id].previous| < |tasks[id].keys|
      modifies this
      ensures Valid()
      ensures var task := old(tasks)[id];
              && queues == Arrive(old(queues), task.keys[|task.previous|], Ticket(id, |task.previous|))
              && tasks.Keys == old(tasks).Keys && Remaining(tasks) < Remaining(old(tasks))
    {
      Sized(tails, released, tasks, queues);
      hide Inv, Arrive, Found, Asking, Remaining, Steps;
      var task := tasks[id];
      var j := |task.previous|;
      var key, next := task.keys[j], Asking(task, Found(tails, task.keys[j]));
      ArriveKeeps(tails, released, tasks, queues, id);
      StepsFall(task, Found(tails, key));
      FewerRemain(tasks, id, next);
      queues := Arrive(queues, key, Ticket(id, j));
      tails := tails[key := Tail(Found(tails, key), Ticket(id, j))];
      tasks := tasks[id := next];
    }

    /** After the await: only the request at the front gets here. */
    method Grant(id: TaskId)
      requires Valid() && id in tasks && tasks[id].stage == Waiting && tasks[id].Ready(released)
      modifies this`tasks
      ensures Valid() && tasks == old(tasks)[id := old(tasks)[id].(stage := Acquiring)]
      ensures var task := tasks[id];
              var key := task.keys[|task.previous| - 1];
              AtFront(queues, key, Ticket(id, |task.previous| - 1))
      ensures Remaining(tasks) < Remaining(old(tasks))
    {
      GrantKeeps(tails, released, tasks, queues, id);
      FewerRemain(tasks, id, tasks[id].(stage := Acquiring));
      tasks := tasks[id := tasks[id].(stage := Acquiring)];
    }

    /** The operation itself, with every lock held. */
    method Operate(id: TaskId)
      requires Valid() && id in tasks && tasks[id].stage == Acquiring && |tasks[id].previous| == |tasks[id].keys|
      modifies this`tasks
      ensures Valid() && tasks == old(tasks)[id := old(tasks)[id].(stage := Releasing)]
      ensures forall j: nat | j < |tasks[id].keys| :: tasks[id].Holds(j)
      ensures Remaining(tasks) < Remaining(old(tasks))
    {
      forall j: nat | j < |tasks[id].previous|
        ensures Queued(tasks[id], id, j, queues) && AtFront(queues, tasks[id].keys[j], Ticket(id, j))
      {
        assert Queued(tasks[id], id, j, queues) && tasks[id].Holds(j);
      }
      RestageKeeps(tasks, queues, id, Releasing);
      FewerRemain(tasks, id, tasks[id].(stage := Releasing));
      tasks := tasks[id := tasks[id].(stage := Releasing)];
    }

    /** The finally block of the innermost lock: release it, and forget the key
        if nobody queued behind. */
    method Leave(id: TaskId)
      requires Valid() && id in tasks && tasks[id].stage == Releasing && tasks[id].previous != []
      modifies this
      ensures Valid()
      ensures var task := old(tasks)[id];
              var key := task.keys[|task.previous| - 1];
              key in old(queues) && AtFront(old(queues), key, Ticket(id, |task.previous| - 1))
              && queues == Depart(old(queues), key)
      ensures tasks.Keys == old(tasks).Keys && Remaining(tasks) < Remaining(old(tasks))
    {
      Sized(tails, released, tasks, queues);
      hide Inv, AtFront, Depart, Forget, Inner, Remaining, Steps;
      var task := tasks[id];
      var j := |task.previous| - 1;
      var key, next := task.keys[j], Inner(task);
      DepartKeeps(tails, released, tasks, queues, id);
      StepsFall(task, Settled);
      FewerRemain(tasks, id, next);
      queues := Depart(queues, key);
      released := released + {Ticket(id, j)};
      tails := Forget(tails, key, Tail(task.previous[j], Ticket(id, j)));
      tasks := tasks[id := next];
    }
  }

  /** The next stretch of a task that can go on. */
  method Advance(locks: WriteLocks, id: TaskId)
    requires locks.Valid() && id in locks.tasks && locks.tasks[id].Ready(locks.released)
    modifies locks
    ensures locks.Valid() && locks.tasks.Keys == old(locks.tasks).Keys
    ensures Remaining(locks.tasks) < Remaining(old(locks.tasks))
  {
    Sized(locks.tails, locks.released, locks.tasks, locks.queues);
    hide Inv, Remaining, Steps;
    var task := locks.tasks[id];
    match task.stage {
      case Waiting => locks.Grant(id);
      case Releasing => locks.Leave(id);
      case Acquiring =>
        if |task.previous| < |task.keys| {
          locks.Enter(id);
        } else {
          locks.Operate(id);
        }
    }
  }

  /** Any schedule: calls arrive at any time, and any task that can step does.
      There is always one until every task has finished, which every schedule
      reaches, and then the tail map is empty. */
  method RunToCompletion(calls: seq<seq<string>>) returns (locks: WriteLocks)
    ensures locks.Valid() && locks.tails == map[]
    ensures forall id | 0 <= id < |calls| :: id in locks.tasks && locks.tasks[id].Finished()
  {
    locks := new WriteLocks();
    var arrived := 0;
    while arrived < |calls| || exists id | id in locks.tasks :: !locks.tasks[id].Finished()
      invariant locks.Valid() && fresh(locks) && arrived <= |calls|
      invariant forall id :: id in locks.tasks <==> 0 <= id < arrived
      decreases |calls| - arrived, Remaining(locks.tasks)
    {
      var wait := *;
      if arrived < |calls| && (wait || forall id | id in locks.tasks :: locks.tasks[id].Finished()) {
        locks.WithDocumentWriteLocks(arrived, calls[arrived]);
        arrived := arrived + 1;
      } else {
        SomeTaskIsReady(locks.tails, locks.released, locks.tasks, locks.queues);
        var id :| id in locks.tasks && locks.tasks[id].Ready(locks.released);
        Advance(locks, id);
      }
    }
    NothingQueued(locks.tails, locks.released, locks.tasks, locks.queues);
  }

  lemma NothingQueued(tails: map<string, Promise>, released: set<Ticket>, tasks: map<TaskId, Task>,
                      queues: map<string, Queue>)
    requires Inv(tails, released, tasks, queues) && forall id | id in tasks :: tasks[id].Finished()
    ensures tails == map[]
  {
    if k :| k in tails {
      SomebodyQueued(tails, released, tasks, queues, k);
    }
  }

  lemma SomebodyQueued(tails: map<string, Promise>, released: set<Ticket>, tasks: map<TaskId, Task>,
                       queues: map<string, Queue>, k: string)
    requires Inv(tails, released, tasks, queues) && k in tails
    ensures exists id | id in tasks :: !tasks[id].Finished()
  {
    assert Owned(tasks, k, queues[k], 0);
  }
}
