/**
 One lock per resource, in a table whose entries are counted so that it holds
 no more than the resources now in use. Tasks interleave between any two of
 the operations below and may be cancelled while they wait.
 */
module Locks {
  datatype Key = Key(kind: string, namespace: string, name: string)
  type Task = nat
  type Lock = nat  // the identity of a lock object

  datatype Entry = Entry(lock: Lock, holders: nat)

  /** Where a task stands within `hold`, and the lock object it refers to. */
  datatype Stage = Waiting(key: Key, lock: Lock) | Inside(key: Key, lock: Lock)

  datatype State = State(
    table: map<Key, Entry>,
    owners: map<Lock, Task>,   // which task has each lock that is taken
    tasks: map<Task, Stage>,
    made: nat                  // lock objects made so far
  )

  const EMPTY := State(map[], map[], map[], 0)

  // ---------------------------------------------------------- what steps do

  datatype Op =
    | Enter(task: Task, key: Key)  // up to the point of waiting for the lock
    | Acquire(task: Task)
    | Leave(task: Task)            // the body ended or raised
    | Cancel(task: Task)           // cancelled while waiting

  /** Whether the operation can happen: a task waits for a lock only while another has it. */
  predicate Enabled(s: State, op: Op) {
    match op
    case Enter(t, _) => t !in s.tasks
    case Acquire(t) => t in s.tasks && s.tasks[t].Waiting? && s.tasks[t].lock !in s.owners
    case Leave(t) => t in s.tasks && s.tasks[t].Inside?
    case Cancel(t) => t in s.tasks && s.tasks[t].Waiting?
  }

  /** Counts one holder off an entry, which goes with its last one. */
  function CountOff(table: map<Key, Entry>, key: Key): map<Key, Entry> {
    if key !in table || table[key].holders <= 1 then table - {key}
    else table[key := table[key].(holders := table[key].holders - 1)]
  }

  function Step(s: State, op: Op): State
    requires Enabled(s, op)
  {
    match op
    case Enter(t, key) =>
      var entry := if key in s.table then s.table[key] else Entry(s.made, 0);
      State(s.table[key := entry.(holders := entry.holders + 1)], s.owners,
            s.tasks[t := Waiting(key, entry.lock)], if key in s.table then s.made else s.made + 1)
    case Acquire(t) =>
      var stage := s.tasks[t];
      s.(owners := s.owners[stage.lock := t], tasks := s.tasks[t := Inside(stage.key, stage.lock)])
    case Leave(t) =>
      State(CountOff(s.table, s.tasks[t].key), s.owners - {s.tasks[t].lock}, s.tasks - {t}, s.made)
    case Cancel(t) =>
      s.(table := CountOff(s.table, s.tasks[t].key), tasks := s.tasks - {t})
  }

  // --------------------------------------------------------------- invariant

  function TasksOn(s: State, key: Key): set<Task> {
    Among(s.tasks, key)
  }

  function Among(tasks: map<Task, Stage>, key: Key): set<Task> {
    set t | t in tasks && tasks[t].key == key
  }

  lemma AmongRest(tasks: map<Task, Stage>, t: Task, key: Key)
    requires t in tasks
    ensures Among(tasks - {t}, key) == Among(tasks, key) - {t}
    ensures |Among(tasks - {t}, key)| == |Among(tasks, key)| - if tasks[t].key == key then 1 else 0
  {
    var before, after := Among(tasks, key), Among(tasks - {t}, key);
    assert after == before - {t};
    assert t in before <==> tasks[t].key == key;
  }

  lemma AmongMore(tasks: map<Task, Stage>, t: Task, stage: Stage, key: Key)
    requires t !in tasks
    ensures |Among(tasks[t := stage], key)| == |Among(tasks, key)| + if stage.key == key then 1 else 0
  {
    var before, after := Among(tasks, key), Among(tasks[t := stage], key);
    assert after == before + if stage.key == key then {t} else {};
    assert t !in before;
  }

  /** Each entry counts its tasks, and there is none without a task. */
  predicate CountsRight(s: State) {
    forall key :: key in s.table ==> s.table[key].holders == |TasksOn(s, key)| > 0
  }

  /** Each task is under an entry, whose lock it refers to. */
  predicate TasksFiled(s: State) {
    forall t :: t in s.tasks ==> s.tasks[t].key in s.table && s.tasks[t].lock == s.table[s.tasks[t].key].lock
  }

  predicate LocksDistinct(s: State) {
    && (forall key :: key in s.table ==> s.table[key].lock < s.made)
    && (forall k, k' :: k in s.table && k' in s.table && k != k' ==> s.table[k].lock != s.table[k'].lock)
  }

  /** A lock is taken exactly by the task inside. */
  predicate OwnersInside(s: State) {
    && (forall lock :: lock in s.owners ==>
          s.owners[lock] in s.tasks && s.tasks[s.owners[lock]] == Inside(s.tasks[s.owners[lock]].key, lock))
    && (forall t :: t in s.tasks && s.tasks[t].Inside? ==>
          s.tasks[t].lock in s.owners && s.owners[s.tasks[t].lock] == t)
  }

  predicate Inv(s: State) {
    CountsRight(s) && TasksFiled(s) && LocksDistinct(s) && OwnersInside(s)
  }

  lemma EnterCounts(s: State, t: Task, key: Key)
    requires CountsRight(s) && TasksFiled(s) && Enabled(s, Enter(t, key))
    ensures CountsRight(Step(s, Enter(t, key)))
  {
    var s' := Step(s, Enter(t, key));
    forall k | k in s'.table ensures s'.table[k].holders == |TasksOn(s', k)| > 0 {
      AmongMore(s.tasks, t, s'.tasks[t], k);
      if k !in s.table {
        assert Among(s.tasks, k) == {};
      }
    }
  }

  lemma EnterFiles(s: State, t: Task, key: Key)
    requires Inv(s) && Enabled(s, Enter(t, key))
    ensures TasksFiled(Step(s, Enter(t, key))) && LocksDistinct(Step(s, Enter(t, key)))
  {
  }

  lemma EnterOwners(s: State, t: Task, key: Key)
    requires OwnersInside(s) && Enabled(s, Enter(t, key))
    ensures OwnersInside(Step(s, Enter(t, key)))
  {
  }

  lemma AcquireKeepsInv(s: State, t: Task)
    requires Inv(s) && Enabled(s, Acquire(t))
    ensures Inv(Step(s, Acquire(t)))
  {
    var s' := Step(s, Acquire(t));
    assert CountsRight(s') && TasksFiled(s') && LocksDistinct(s') by {
      forall k ensures TasksOn(s', k) == TasksOn(s, k) {
      }
    }
    AcquireOwners(s, t);
  }

  lemma AcquireOwners(s: State, t: Task)
    requires OwnersInside(s) && Enabled(s, Acquire(t))
    ensures OwnersInside(Step(s, Acquire(t)))
  {
  }

  /** Who is on a resource once a task has gone. */
  lemma TasksAfterGoing(s: State, op: Op, key: Key)
    requires Enabled(s, op) && (op.Leave? || op.Cancel?)
    ensures var mine := s.tasks[op.task].key == key;
      && TasksOn(Step(s, op), key) == TasksOn(s, key) - {op.task}
      && |TasksOn(Step(s, op), key)| == |TasksOn(s, key)| - if mine then 1 else 0
  {
    AmongRest(s.tasks, op.task, key);
    assert Step(s, op).tasks == s.tasks - {op.task};
  }

  /** A task that goes, inside or waiting, takes exactly its own share of the entry with it. */
  lemma GoingCounts(s: State, op: Op)
    requires CountsRight(s) && TasksFiled(s) && Enabled(s, op) && (op.Leave? || op.Cancel?)
    ensures CountsRight(Step(s, op))
  {
    var s' := Step(s, op);
    forall k | k in s'.table ensures s'.table[k].holders == |TasksOn(s', k)| > 0 {
      TasksAfterGoing(s, op, k);
    }
  }

  /** An entry stays as long as a task needs it. */
  lemma GoingFiles(s: State, op: Op)
    requires CountsRight(s) && TasksFiled(s) && LocksDistinct(s) && Enabled(s, op) && (op.Leave? || op.Cancel?)
    ensures TasksFiled(Step(s, op)) && LocksDistinct(Step(s, op))
  {
    var s', t := Step(s, op), op.task;
    var key := s.tasks[t].key;
    forall u | u in s'.tasks ensures s'.tasks[u].key in s'.table {
      if s'.tasks[u].key == key {
        assert {t, u} <= TasksOn(s, key);
        TwoAreTwo(TasksOn(s, key), t, u);
      }
    }
  }

  lemma TwoAreTwo<T>(s: set<T>, x: T, y: T)
    requires {x, y} <= s && x != y
    ensures |s| >= 2
  {
    assert s == {x, y} + (s - {x, y});
  }

  lemma GoingOwners(s: State, op: Op)
    requires OwnersInside(s) && Enabled(s, op) && (op.Leave? || op.Cancel?)
    ensures OwnersInside(Step(s, op))
  {
  }

  lemma StepKeepsInv(s: State, op: Op)
    requires Inv(s) && Enabled(s, op)
    ensures Inv(Step(s, op))
  {
    match op
    case Enter(t, key) =>
      EnterCounts(s, t, key);
      EnterFiles(s, t, key);
      EnterOwners(s, t, key);
    case Acquire(t) => AcquireKeepsInv(s, t);
    case _ =>
      GoingCounts(s, op);
      GoingFiles(s, op);
      GoingOwners(s, op);
  }

  // -------------------------------------------------------------- every run

  /** The state after a run; an operation that is not enabled does not happen. */
  function Run(ops: seq<Op>): State {
    if ops == [] then EMPTY
    else
      var before, op := Run(ops[..|ops| - 1]), ops[|ops| - 1];
      if Enabled(before, op) then Step(before, op) else before
  }

  lemma {:induction false} RunKeepsInv(ops: seq<Op>)
    ensures Inv(Run(ops))
  {
    if ops != [] {
      RunKeepsInv(ops[..|ops| - 1]);
      if Enabled(Run(ops[..|ops| - 1]), ops[|ops| - 1]) {
        StepKeepsInv(Run(ops[..|ops| - 1]), ops[|ops| - 1]);
      }
    }
  }

  /** At most one task is inside per resource. */
  lemma MutualExclusion(ops: seq<Op>, t: Task, u: Task)
    requires var s := Run(ops);
      t in s.tasks && u in s.tasks && s.tasks[t].Inside? && s.tasks[u].Inside? && s.tasks[t].key == s.tasks[u].key
    ensures t == u
  {
    RunKeepsInv(ops);
  }

  /** All tasks on one resource share one lock object, however often its entry came and went. */
  lemma OneLockPerKey(ops: seq<Op>, t: Task, u: Task)
    requires var s := Run(ops); t in s.tasks && u in s.tasks
    ensures var s := Run(ops); s.tasks[t].key == s.tasks[u].key <==> s.tasks[t].lock == s.tasks[u].lock
  {
    RunKeepsInv(ops);
  }

  /** A task waits only for one inside on the same resource: resources never block each other. */
  lemma BlockedOnlyByItsOwn(ops: seq<Op>, t: Task)
    requires var s := Run(ops); t in s.tasks && s.tasks[t].Waiting?
    ensures var s := Run(ops);
      Enabled(s, Acquire(t)) <==> forall u :: u in s.tasks && s.tasks[u].key == s.tasks[t].key ==> s.tasks[u].Waiting?
  {
    RunKeepsInv(ops);
    var s := Run(ops);
    if s.tasks[t].lock in s.owners {
      OneLockPerKey(ops, t, s.owners[s.tasks[t].lock]);
    }
  }

  /** The table holds the resources in use and no others; with no task, nothing. */
  lemma TableIsWhatIsInUse(ops: seq<Op>, key: Key)
    ensures var s := Run(ops);
      && (key in s.table <==> exists t :: t in s.tasks && s.tasks[t].key == key)
      && (key in s.table ==> s.table[key].holders == |TasksOn(s, key)|)
      && (s.tasks == map[] ==> s.table == map[])
  {
    RunKeepsInv(ops);
    var s := Run(ops);
    forall k | k in s.table ensures TasksOn(s, k) != {} {
      assert |TasksOn(s, k)| > 0;
    }
    if key in s.table {
      var t :| t in TasksOn(s, key);
    }
  }

  // --------------------------------------------------------------- the table

  /** The lock table itself, whose fields the operations update. */
  class ResourceLocks {
    var table: map<Key, Entry>
    var owners: map<Lock, Task>
    var tasks: map<Task, Stage>
    var made: nat

    function Now(): State
      reads this
    {
      State(table, owners, tasks, made)
    }

    constructor ()
      ensures Now() == EMPTY
    {
      table, owners, tasks, made := map[], map[], map[], 0;
    }

    method Enter(t: Task, key: Key)
      requires Inv(Now()) && Enabled(Now(), Op.Enter(t, key))
      modifies this
      ensures Inv(Now()) && Now() == Step(old(Now()), Op.Enter(t, key))
    {
      ghost var before := Now();
      var lock, holders := made, 0;
      if key in table {
        lock, holders := table[key].lock, table[key].holders;
      } else {
        made := made + 1;
      }
      table := table[key := Entry(lock, holders + 1)];
      tasks := tasks[t := Waiting(key, lock)];
      assert Now() == Step(before, Op.Enter(t, key));
      StepKeepsInv(before, Op.Enter(t, key));
    }

    method Acquire(t: Task)
      requires Inv(Now()) && Enabled(Now(), Op.Acquire(t))
      modifies this
      ensures Inv(Now()) && Now() == Step(old(Now()), Op.Acquire(t))
    {
      StepKeepsInv(Now(), Op.Acquire(t));
      var stage := tasks[t];
      owners := owners[stage.lock := t];
      tasks := tasks[t := Inside(stage.key, stage.lock)];
    }

    /** Leaving the body: the lock is released, and then the entry counted down. */
    method Leave(t: Task)
      requires Inv(Now()) && Enabled(Now(), Op.Leave(t))
      modifies this
      ensures Inv(Now()) && Now() == Step(old(Now()), Op.Leave(t))
    {
      StepKeepsInv(Now(), Op.Leave(t));
      owners := owners - {tasks[t].lock};
      CountDown(t);
    }

    /** Cancelled while waiting: only the count goes down. */
    method Cancel(t: Task)
      requires Inv(Now()) && Enabled(Now(), Op.Cancel(t))
      modifies this
      ensures Inv(Now()) && Now() == Step(old(Now()), Op.Cancel(t))
    {
      StepKeepsInv(Now(), Op.Cancel(t));
      CountDown(t);
    }

    /** The `finally` of every hold. The entry is always still there. */
    method CountDown(t: Task)
      requires t in tasks && tasks[t].key in table
      modifies this`table, this`tasks
      ensures table == CountOff(old(table), old(tasks)[t].key) && tasks == old(tasks) - {t}
    {
      var key := tasks[t].key;
      var entry := table[key];
      if entry.holders <= 1 {
        table := table - {key};
      } else {
        table := table[key := Entry(entry.lock, entry.holders - 1)];
      }
      tasks := tasks - {t};
    }
  }
}
