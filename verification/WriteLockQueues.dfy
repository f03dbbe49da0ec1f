/** The promise-chain lock table: what its tail promises mean as queues, and
    why tasks that lock their paths in sorted order never deadlock. */
module WriteLockQueues {
  import opened StringOrder

  type TaskId = nat

  /** The `index`-th lock request of a task. */
  datatype Ticket = Ticket(task: TaskId, index: nat)

  /** What a request waits for: nothing, or that an earlier request has waited
      and been released. */
  datatype Promise = Settled | Tail(previous: Promise, current: Ticket)

  predicate Resolved(p: Promise, released: set<Ticket>) {
    match p
    case Settled => true
    case Tail(previous, current) => Resolved(previous, released) && current in released
  }

  datatype Stage = Acquiring | Waiting | Releasing

  /** A task that locks `keys` one inside the other around its operation.
      `previous` are the promises its requests found, one for each lock it
      holds or waits for. */
  datatype Task = Task(keys: seq<string>, previous: seq<Promise>, stage: Stage)
  {
    ghost predicate Wf() {
      && Ascending(keys) && |previous| <= |keys|
      && (stage == Waiting ==> previous != [])
    }

    predicate Finished() {
      stage == Releasing && previous == []
    }

    /** It holds the lock of `keys[j]`. */
    predicate Holds(j: nat) {
      j < |previous| && (stage == Waiting ==> j < |previous| - 1)
    }

    /** It can take its next step now. */
    predicate Ready(released: set<Ticket>) {
      && !Finished()
      && (stage == Waiting && previous != [] ==> Resolved(previous[|previous| - 1], released))
    }
  }

  /** The requests for one key in order of arrival, after everything in `base`
      was released. */
  datatype Queue = Queue(base: Promise, tickets: seq<Ticket>)

  function Chain(base: Promise, tickets: seq<Ticket>): Promise {
    if tickets == [] then base else Tail(Chain(base, tickets[..|tickets| - 1]), tickets[|tickets| - 1])
  }

  /** The tail map has exactly the keys somebody holds or waits for, and the
      tail of each is the chain of its queue. */
  ghost predicate Chained(tails: map<string, Promise>, released: set<Ticket>, queues: map<string, Queue>) {
    tails.Keys == queues.Keys && forall k | k in queues :: Linked(tails[k], released, queues[k])
  }

  ghost predicate Linked(tail: Promise, released: set<Ticket>, q: Queue) {
    && q.tickets != []
    && tail == Chain(q.base, q.tickets)
    && Resolved(q.base, released)
    && forall n | 0 <= n < |q.tickets| :: q.tickets[n] !in released
  }

  /** The request `t` is the first in the queue for `k`. */
  predicate AtFront(queues: map<string, Queue>, k: string, t: Ticket) {
    k in queues && queues[k].tickets != [] && queues[k].tickets[0] == t
  }

  /** The request stands in the queue of its key, at the front if granted. */
  ghost predicate Queued(task: Task, id: TaskId, j: nat, queues: map<string, Queue>)
    requires j < |task.previous| <= |task.keys|
  {
    && task.keys[j] in queues
    && Ticket(id, j) in queues[task.keys[j]].tickets
    && (task.Holds(j) ==> AtFront(queues, task.keys[j], Ticket(id, j)))
  }

  /** The `n`-th ticket of the queue for `k` belongs to a request that found
      the chain of the tickets before it. */
  ghost predicate Owned(tasks: map<TaskId, Task>, k: string, q: Queue, n: nat)
    requires n < |q.tickets|
  {
    var t := q.tickets[n];
    && t.task in tasks && t.index < |tasks[t.task].previous| <= |tasks[t.task].keys|
    && tasks[t.task].keys[t.index] == k
    && tasks[t.task].previous[t.index] == Chain(q.base, q.tickets[..n])
  }

  ghost predicate Placed(tasks: map<TaskId, Task>, queues: map<string, Queue>) {
    && (forall id | id in tasks :: tasks[id].Wf())
    && (forall id, j: nat | id in tasks && j < |tasks[id].previous| :: Queued(tasks[id], id, j, queues))
    && (forall k, n: nat | k in queues && n < |queues[k].tickets| :: Owned(tasks, k, queues[k], n))
    && (forall k, m, n | k in queues && 0 <= m < n < |queues[k].tickets| ::
          queues[k].tickets[m] != queues[k].tickets[n])
  }

  ghost predicate Inv(tails: map<string, Promise>, released: set<Ticket>, tasks: map<TaskId, Task>,
                      queues: map<string, Queue>) {
    Chained(tails, released, queues) && Placed(tasks, queues)
  }

  /** The front of the queue may go ahead, nobody else may. */
  lemma ReadyIffFront(tails: map<string, Promise>, released: set<Ticket>, tasks: map<TaskId, Task>,
                      queues: map<string, Queue>, k: string, n: nat)
    requires Inv(tails, released, tasks, queues) && k in queues && n < |queues[k].tickets|
    ensures Resolved(Chain(queues[k].base, queues[k].tickets[..n]), released) <==> n == 0
  {
    if n > 0 {
      assert queues[k].tickets[..n][n - 1] == queues[k].tickets[n - 1];
    }
  }

  /** Each key has at most one holder. */
  lemma OneHolder(tails: map<string, Promise>, released: set<Ticket>, tasks: map<TaskId, Task>,
                  queues: map<string, Queue>,
                  a: TaskId, i: nat, b: TaskId, j: nat)
    requires Inv(tails, released, tasks, queues) && a in tasks && b in tasks
    requires tasks[a].Holds(i) && tasks[b].Holds(j) && tasks[a].keys[i] == tasks[b].keys[j]
    ensures a == b && i == j
  {
    assert Queued(tasks[a], a, i, queues) && Queued(tasks[b], b, j, queues);
  }

  /** Nothing wanted comes after the last. */
  lemma NoneAfter(last: string, next: string, wanted: set<string>)
    requires Before(last, next) && forall key | key in wanted && key != last :: Before(key, last)
    ensures next !in wanted
  {
    if next in wanted {
      if next != last {
        Transitive(last, next, last);
      }
      Irreflexive(last);
    }
  }

  /** While a task is unfinished, some task can take its next step. */
  lemma SomeTaskIsReady(tails: map<string, Promise>, released: set<Ticket>, tasks: map<TaskId, Task>,
                        queues: map<string, Queue>)
    requires Inv(tails, released, tasks, queues)
    requires exists id | id in tasks :: !tasks[id].Finished()
    ensures exists id | id in tasks :: tasks[id].Ready(released)
  {
    hide Chained, Chain;
    if forall id | id in tasks && !tasks[id].Finished() :: tasks[id].stage == Waiting {
      var waiting := set id | id in tasks && tasks[id].stage == Waiting;
      var wanted := set id | id in waiting :: tasks[id].keys[|tasks[id].previous| - 1];
      var some :| some in tasks && !tasks[some].Finished();
      assert tasks[some].keys[|tasks[some].previous| - 1] in wanted;
      var last := LastExists(wanted);
      var id :| id in waiting && tasks[id].keys[|tasks[id].previous| - 1] == last;
      assert Queued(tasks[id], id, |tasks[id].previous| - 1, queues);
      assert Owned(tasks, last, queues[last], 0);
      var front := queues[last].tickets[0];
      var holder := tasks[front.task];
      assert holder.Wf() && !holder.Finished();
      if front.index < |holder.previous| - 1 {
        NoneAfter(last, holder.keys[|holder.previous| - 1], wanted);
      }
      ReadyIffFront(tails, released, tasks, queues, last, 0);
      assert holder.Ready(released);
    }
  }

  // What each step does to the queues.

  function Arrive(queues: map<string, Queue>, key: string, t: Ticket): map<string, Queue> {
    if key in queues then queues[key := queues[key].(tickets := queues[key].tickets + [t])]
    else queues[key := Queue(Settled, [t])]
  }

  /** The front of the queue leaves. */
  function Depart(queues: map<string, Queue>, key: string): map<string, Queue>
    requires key in queues
  {
    var q := queues[key];
    if |q.tickets| <= 1 then queues - {key} else queues[key := Queue(Tail(q.base, q.tickets[0]), q.tickets[1..])]
  }

  /** The key is forgotten when the tail is still the departing request's own. */
  function Forget(tails: map<string, Promise>, key: string, tail: Promise): map<string, Promise> {
    if key in tails && tails[key] == tail then tails - {key} else tails
  }

  /** The promise a new request finds. */
  function Found(tails: map<string, Promise>, key: string): Promise {
    if key in tails then tails[key] else Settled
  }

  /** A task that waits for its next lock. */
  function Asking(task: Task, found: Promise): Task {
    task.(previous := task.previous + [found], stage := Waiting)
  }

  /** A task that has released the innermost lock it held. */
  function Inner(task: Task): Task
    requires task.previous != []
  {
    task.(previous := task.previous[..|task.previous| - 1])
  }

  lemma ArriveKeeps(tails: map<string, Promise>, released: set<Ticket>, tasks: map<TaskId, Task>,
                    queues: map<string, Queue>, id: TaskId)
    requires Inv(tails, released, tasks, queues) && id in tasks
    requires tasks[id].stage == Acquiring && |tasks[id].previous| < |tasks[id].keys|
    requires Ticket(id, |tasks[id].previous|) !in released
    ensures var task := tasks[id];
            var key, t := task.keys[|task.previous|], Ticket(id, |task.previous|);
            Inv(tails[key := Tail(Found(tails, key), t)], released, tasks[id := Asking(task, Found(tails, key))],
                Arrive(queues, key, t))
  {
    var task := tasks[id];
    var j := |task.previous|;
    ArriveChained(tails, released, queues, task.keys[j], Ticket(id, j));
    ArrivePlaced(tasks, queues, id, Found(tails, task.keys[j]));
  }

  lemma ArriveChained(tails: map<string, Promise>, released: set<Ticket>, queues: map<string, Queue>, key: string,
                      t: Ticket)
    requires Chained(tails, released, queues) && t !in released
    ensures Chained(tails[key := Tail(Found(tails, key), t)], released, Arrive(queues, key, t))
  {
    var q := Arrive(queues, key, t)[key];
    var earlier := if key in queues then queues[key].tickets else [];
    assert q.tickets == earlier + [t] && q.tickets[..|earlier|] == earlier;
    assert Chain(q.base, q.tickets) == Tail(Chain(q.base, earlier), t);
  }

  lemma ArrivePlaced(tasks: map<TaskId, Task>, queues: map<string, Queue>, id: TaskId, found: Promise)
    requires Placed(tasks, queues) && id in tasks
    requires tasks[id].stage == Acquiring && |tasks[id].previous| < |tasks[id].keys|
    requires var key := tasks[id].keys[|tasks[id].previous|];
             found == if key in queues then Chain(queues[key].base, queues[key].tickets) else Settled
    ensures var task := tasks[id];
            var j := |task.previous|;
            Placed(tasks[id := Asking(task, found)], Arrive(queues, task.keys[j], Ticket(id, j)))
  {
    var task := tasks[id];
    var j := |task.previous|;
    var key, t := task.keys[j], Ticket(id, j);
    var queues', tasks' := Arrive(queues, key, t), tasks[id := Asking(task, found)];
    forall k, n: nat | k in queues && n < |queues[k].tickets|
      ensures Owned(tasks, k, queues[k], n) && queues[k].tickets[n] != t
    {
      assert Owned(tasks, k, queues[k], n);
    }
    ArriveOwned(tasks, queues, id, found);
    hide Chain, Owned;
    forall i, m: nat | i in tasks' && m < |tasks'[i].previous|
      ensures Queued(tasks'[i], i, m, queues')
    {
      if i != id || m < j {
        assert Queued(tasks[i], i, m, queues);
        assert tasks'[i].keys[m] in queues;
      } else {
        assert queues'[key].tickets[|queues'[key].tickets| - 1] == t;
      }
    }
  }

  lemma ArriveOwned(tasks: map<TaskId, Task>, queues: map<string, Queue>, id: TaskId, found: Promise)
    requires Placed(tasks, queues) && id in tasks
    requires tasks[id].stage == Acquiring && |tasks[id].previous| < |tasks[id].keys|
    requires var key := tasks[id].keys[|tasks[id].previous|];
             found == if key in queues then Chain(queues[key].base, queues[key].tickets) else Settled
    ensures var task := tasks[id];
            var j := |task.previous|;
            var queues', tasks' := Arrive(queues, task.keys[j], Ticket(id, j)), tasks[id := Asking(task, found)];
            forall k, n: nat | k in queues' && n < |queues'[k].tickets| :: Owned(tasks', k, queues'[k], n)
  {
    var task := tasks[id];
    var j := |task.previous|;
    var queues', tasks' := Arrive(queues, task.keys[j], Ticket(id, j)), tasks[id := Asking(task, found)];
    assert Chain(Settled, []) == Settled;
    hide Chain, Queued;
    forall k, n: nat | k in queues' && n < |queues'[k].tickets|
      ensures Owned(tasks', k, queues'[k], n)
    {
      if k in queues && n < |queues[k].tickets| {
        assert Owned(tasks, k, queues[k], n);
        assert queues'[k].tickets[..n] == queues[k].tickets[..n];
      } else if k in queues {
        assert queues'[k].tickets[..n] == queues[k].tickets;
      } else {
        assert queues'[k].tickets[..n] == [];
      }
    }
  }

  lemma GrantKeeps(tails: map<string, Promise>, released: set<Ticket>, tasks: map<TaskId, Task>,
                   queues: map<string, Queue>, id: TaskId)
    requires Inv(tails, released, tasks, queues) && id in tasks
    requires tasks[id].stage == Waiting && tasks[id].Ready(released)
    ensures Inv(tails, released, tasks[id := tasks[id].(stage := Acquiring)], queues)
    ensures var key := tasks[id].keys[|tasks[id].previous| - 1];
            AtFront(queues, key, Ticket(id, |tasks[id].previous| - 1))
  {
    var j := |tasks[id].previous| - 1;
    var key := tasks[id].keys[j];
    assert Queued(tasks[id], id, j, queues);
    var n :| 0 <= n < |queues[key].tickets| && queues[key].tickets[n] == Ticket(id, j);
    assert Owned(tasks, key, queues[key], n);
    ReadyIffFront(tails, released, tasks, queues, key, n);
    forall m: nat | m < j
      ensures Queued(tasks[id], id, m, queues) && AtFront(queues, tasks[id].keys[m], Ticket(id, m))
    {
      assert Queued(tasks[id], id, m, queues) && tasks[id].Holds(m);
    }
    RestageKeeps(tasks, queues, id, Acquiring);
  }

  /** A task whose requests are all granted may change its stage. */
  lemma RestageKeeps(tasks: map<TaskId, Task>, queues: map<string, Queue>, id: TaskId, stage: Stage)
    requires Placed(tasks, queues) && id in tasks && stage != Waiting
    requires forall j: nat | j < |tasks[id].previous| ::
               Queued(tasks[id], id, j, queues) && AtFront(queues, tasks[id].keys[j], Ticket(id, j))
    ensures Placed(tasks[id := tasks[id].(stage := stage)], queues)
  {
    var tasks' := tasks[id := tasks[id].(stage := stage)];
    forall k, n: nat | k in queues && n < |queues[k].tickets|
      ensures Owned(tasks', k, queues[k], n)
    {
      assert Owned(tasks, k, queues[k], n);
    }
    forall i, m: nat | i in tasks' && m < |tasks'[i].previous|
      ensures Queued(tasks'[i], i, m, queues)
    {
      assert Queued(tasks[i], i, m, queues);
    }
  }

  lemma {:induction false} ChainShifts(base: Promise, tickets: seq<Ticket>)
    requires tickets != []
    ensures Chain(Tail(base, tickets[0]), tickets[1..]) == Chain(base, tickets)
  {
    if |tickets| > 1 {
      var front := tickets[..|tickets| - 1];
      ChainShifts(base, front);
      assert front[1..] == tickets[1..][..|tickets| - 2];
    }
  }

  lemma DepartKeeps(tails: map<string, Promise>, released: set<Ticket>, tasks: map<TaskId, Task>,
                    queues: map<string, Queue>, id: TaskId)
    requires Inv(tails, released, tasks, queues) && id in tasks
    requires tasks[id].stage == Releasing && tasks[id].previous != []
    ensures var task := tasks[id];
            var j := |task.previous| - 1;
            var key, t := task.keys[j], Ticket(id, j);
            && key in tails && key in queues && AtFront(queues, key, t)
            && Inv(Forget(tails, key, Tail(task.previous[j], t)), released + {t}, tasks[id := Inner(task)],
                   Depart(queues, key))
  {
    var task := tasks[id];
    var j := |task.previous| - 1;
    var key, t := task.keys[j], Ticket(id, j);
    assert Queued(task, id, j, queues);
    var q := queues[key];
    assert Owned(tasks, key, q, 0);
    assert q.tickets[..0] == [];
    assert forall m | 0 < m < |q.tickets| :: q.tickets[m] != q.tickets[0];
    forall k, n: nat | k in queues && k != key && n < |queues[k].tickets|
      ensures queues[k].tickets[n] != t
    {
      assert Owned(tasks, k, queues[k], n);
    }
    DepartChained(tails, released, queues, key);
    DepartPlaced(tasks, queues, id);
  }

  lemma DepartChained(tails: map<string, Promise>, released: set<Ticket>, queues: map<string, Queue>, key: string)
    requires Chained(tails, released, queues) && key in queues
    requires forall m | 0 < m < |queues[key].tickets| :: queues[key].tickets[m] != queues[key].tickets[0]
    requires forall k, n: nat | k in queues && k != key && n < |queues[k].tickets| ::
               queues[k].tickets[n] != queues[key].tickets[0]
    ensures var q := queues[key];
            && (tails[key] == Tail(q.base, q.tickets[0]) <==> |q.tickets| == 1)
            && Chained(if |q.tickets| == 1 then tails - {key} else tails, released + {q.tickets[0]},
                       Depart(queues, key))
  {
    var q := queues[key];
    var t := q.tickets[0];
    FrontLeaves(tails[key], released, q);
    forall k | k in queues && k != key
      ensures Linked(tails[k], released + {t}, queues[k])
    {
      StaysResolved(queues[k].base, released, t);
    }
    hide Linked, Chain;
  }

  /** The chain of a queue, seen from behind its front. */
  lemma FrontLeaves(tail: Promise, released: set<Ticket>, q: Queue)
    requires Linked(tail, released, q) && forall m | 0 < m < |q.tickets| :: q.tickets[m] != q.tickets[0]
    ensures q.tickets != []
    ensures tail == Tail(q.base, q.tickets[0]) <==> |q.tickets| == 1
    ensures |q.tickets| > 1 ==>
              Linked(tail, released + {q.tickets[0]}, Queue(Tail(q.base, q.tickets[0]), q.tickets[1..]))
  {
    var last := |q.tickets| - 1;
    ChainShifts(q.base, q.tickets);
    assert Chain(q.base, q.tickets) == Tail(Chain(q.base, q.tickets[..last]), q.tickets[last]);
    assert Chain(q.base, []) == q.base && (last == 0 ==> q.tickets[..last] == []);
    StaysResolved(q.base, released, q.tickets[0]);
  }

  lemma {:induction false} StaysResolved(p: Promise, released: set<Ticket>, t: Ticket)
    requires Resolved(p, released)
    ensures Resolved(p, released + {t})
  {
    if p.Tail? {
      StaysResolved(p.previous, released, t);
    }
  }

  lemma DepartPlaced(tasks: map<TaskId, Task>, queues: map<string, Queue>, id: TaskId)
    requires Placed(tasks, queues) && id in tasks
    requires tasks[id].stage == Releasing && tasks[id].previous != []
    requires var j := |tasks[id].previous| - 1;
             AtFront(queues, tasks[id].keys[j], Ticket(id, j))
    ensures var task := tasks[id];
            var j := |task.previous| - 1;
            Placed(tasks[id := Inner(task)], Depart(queues, task.keys[j]))
  {
    var task := tasks[id];
    var j := |task.previous| - 1;
    var key, t := task.keys[j], Ticket(id, j);
    var q := queues[key];
    var tasks', queues' := tasks[id := Inner(task)], Depart(queues, key);
    hide Chain;
    forall k, n: nat | k in queues' && n < |queues'[k].tickets|
      ensures Owned(tasks', k, queues'[k], n)
    {
      if k != key {
        assert Owned(tasks, k, queues[k], n);
      } else {
        assert Owned(tasks, k, q, n + 1);
        assert q.tickets[..n + 1][0] == t && q.tickets[..n + 1][1..] == queues'[k].tickets[..n];
        ChainShifts(q.base, q.tickets[..n + 1]);
      }
    }
    forall i, m: nat | i in tasks' && m < |tasks'[i].previous|
      ensures Queued(tasks'[i], i, m, queues')
    {
      assert Queued(tasks[i], i, m, queues);
    }
  }
}
