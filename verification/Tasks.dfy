/** `data_gateway/provisioning.py`, `ProvisioningTaskManager`: a task registry shared by request handlers
    and one worker thread per task. Every access holds the lock, so a run is an interleaving of atomic steps. */
module Tasks {
  import opened Wrappers
  import opened Sequences

  datatype Status = Pending | Running | Succeeded | Failed

  datatype Task<R> = Task(taskId: string, status: Status, result: Option<R>, error: Option<string>)

  /** Where the thread of a task stands: its record is put but the thread is not started, the thread is
      started, it is inside the job, or it is gone. */
  datatype Worker = Registered | Spawned | Calling | Exited

  /** The atomic steps. A job that ends in something `except Exception` does not catch dies silently. */
  datatype Step<R> =
    | Register(id: string)
    | Spawn(id: string)
    | Begin(id: string)
    | Finish(id: string, result: R)
    | Fail(id: string, error: string)
    | Die(id: string)

  datatype State<R> = State(tasks: map<string, Task<R>>, workers: map<string, Worker>)

  function Initial<R>(): State<R> {
    State(map[], map[])
  }

  /** A new id is fresh; the other steps follow the thread of their task. */
  predicate Enabled<R>(s: State<R>, step: Step<R>) {
    match step
    case Register(id) => id !in s.workers && id !in s.tasks
    case Spawn(id) => id in s.workers && s.workers[id] == Registered
    case Begin(id) => id in s.workers && s.workers[id] == Spawned
    case Finish(id, _) => id in s.workers && s.workers[id] == Calling
    case Fail(id, _) => id in s.workers && s.workers[id] == Calling
    case Die(id) => id in s.workers && s.workers[id] == Calling
  }

  function Next<R>(s: State<R>, step: Step<R>): State<R> {
    match step
    case Register(id) => State(s.tasks[id := Task(id, Pending, None, None)], s.workers[id := Registered])
    case Spawn(id) => State(s.tasks, s.workers[id := Spawned])
    case Begin(id) => State(s.tasks[id := Task(id, Running, None, None)], s.workers[id := Calling])
    case Finish(id, result) => State(s.tasks[id := Task(id, Succeeded, Some(result), None)], s.workers[id := Exited])
    case Fail(id, error) => State(s.tasks[id := Task(id, Failed, None, Some(error))], s.workers[id := Exited])
    case Die(id) => State(s.tasks, s.workers[id := Exited])
  }

  class ProvisioningTaskManager<R> {
    var tasks: map<string, Task<R>>
    ghost var workers: map<string, Worker>

    ghost function Contents(): State<R>
      reads this
    {
      State(tasks, workers)
    }

    ghost predicate Valid()
      reads this
    {
      Coherent(Contents())
    }

    constructor ()
      ensures Valid() && Contents() == Initial()
    {
      tasks, workers := map[], map[];
    }

    /** `start` up to the thread creation; the id is a new uuid. */
    method Start(id: string)
      requires Valid() && id !in tasks && id !in workers
      modifies this
      ensures Valid() && Contents() == Next(old(Contents()), Register(id))
    {
      StepKeepsCoherent(Contents(), Register(id));
      tasks := tasks[id := Task(id, Pending, None, None)];
      workers := workers[id := Registered];
    }

    ghost method Spawn(id: string)
      requires Valid() && Enabled(Contents(), Step<R>.Spawn(id))
      modifies this`workers
      ensures Valid() && Contents() == Next(old(Contents()), Step<R>.Spawn(id))
    {
      StepKeepsCoherent(Contents(), Step<R>.Spawn(id));
      workers := workers[id := Spawned];
    }

    /** `_run`: the first locked section. */
    method RunBegin(id: string)
      requires Valid() && Enabled(Contents(), Step<R>.Begin(id))
      modifies this
      ensures Valid() && Contents() == Next(old(Contents()), Step<R>.Begin(id))
    {
      StepKeepsCoherent(Contents(), Step<R>.Begin(id));
      tasks := tasks[id := Task(id, Running, None, None)];
      workers := workers[id := Calling];
    }

    /** `_run`: the locked section after the job returned or raised. */
    method RunEnd(id: string, outcome: Result<R, string>)
      requires Valid() && id in workers && workers[id] == Calling
      modifies this
      ensures Valid()
      ensures outcome.Ok? ==> Contents() == Next(old(Contents()), Finish(id, outcome.value))
      ensures outcome.Err? ==> Contents() == Next(old(Contents()), Step<R>.Fail(id, outcome.error))
    {
      match outcome
      case Ok(result) =>
        StepKeepsCoherent(Contents(), Finish(id, result));
        tasks := tasks[id := Task(id, Succeeded, Some(result), None)];
        workers := workers[id := Exited];
      case Err(error) =>
        StepKeepsCoherent(Contents(), Step<R>.Fail(id, error));
        tasks := tasks[id := Task(id, Failed, None, Some(error))];
        workers := workers[id := Exited];
    }

    /** A read sees a result iff the task succeeded and an error iff it failed. */
    method Get(id: string) returns (task: Option<Task<R>>)
      requires Valid()
      ensures task == if id in tasks then Some(tasks[id]) else None
      ensures task.Some? ==> task.value.taskId == id
      ensures task.Some? ==> (task.value.result.Some? <==> task.value.status == Succeeded)
      ensures task.Some? ==> (task.value.error.Some? <==> task.value.status == Failed)
    {
      task := if id in tasks then Some(tasks[id]) else None;
    }
  }

  // ---------- what every state keeps ----------

  predicate WellFormed<R>(t: Task<R>) {
    (t.result.Some? <==> t.status == Succeeded) && (t.error.Some? <==> t.status == Failed)
  }

  ghost predicate Coherent<R>(s: State<R>) {
    && s.tasks.Keys == s.workers.Keys
    && (forall id :: id in s.tasks ==> s.tasks[id].taskId == id && WellFormed(s.tasks[id]) && Fits(s.tasks[id].status, s.workers[id]))
  }

  predicate Fits(status: Status, w: Worker) {
    match w
    case Registered => status == Pending
    case Spawned => status == Pending
    case Calling => status == Running
    case Exited => status != Pending
  }

  lemma {:induction false} StepKeepsCoherent<R>(s: State<R>, step: Step<R>)
    requires Coherent(s) && Enabled(s, step)
    ensures Coherent(Next(s, step))
  {
    var n := Next(s, step);
    forall id | id in n.tasks ensures n.tasks[id].taskId == id && WellFormed(n.tasks[id]) && Fits(n.tasks[id].status, n.workers[id]) {
      assert id != step.id ==> n.tasks[id] == s.tasks[id] && n.workers[id] == s.workers[id];
    }
  }

  // ---------- whole runs ----------

  function Run<R>(trace: seq<Step<R>>): State<R> {
    if trace == [] then Initial() else Next(Run(trace[..|trace| - 1]), trace[|trace| - 1])
  }

  predicate Possible<R>(trace: seq<Step<R>>) {
    trace == [] || (Possible(trace[..|trace| - 1]) && Enabled(Run(trace[..|trace| - 1]), trace[|trace| - 1]))
  }

  lemma {:induction false} RunIsCoherent<R>(trace: seq<Step<R>>)
    requires Possible(trace)
    ensures Coherent(Run(trace))
  {
    if trace != [] {
      RunIsCoherent(trace[..|trace| - 1]);
      StepKeepsCoherent(Run(trace[..|trace| - 1]), trace[|trace| - 1]);
    }
  }

  predicate Terminal(s: Status) {
    s == Succeeded || s == Failed
  }

  /** One move of a record: pending to running, running to a terminal status. */
  ghost predicate Advances<R>(a: Task<R>, b: Task<R>) {
    || a == b
    || (a.status == Pending && b.status == Running)
    || (a.status == Running && Terminal(b.status))
  }

  /** A step moves at most one record, one move at a time, and removes none. */
  lemma {:induction false} StepAdvances<R>(s: State<R>, step: Step<R>, id: string)
    requires Coherent(s) && Enabled(s, step) && id in s.tasks
    ensures id in Next(s, step).tasks && Advances(s.tasks[id], Next(s, step).tasks[id])
    ensures step.id != id ==> Next(s, step).tasks[id] == s.tasks[id]
  {
  }

  /** Statuses reachable from one another over any number of steps. */
  ghost predicate Reaches<R>(a: Task<R>, b: Task<R>) {
    || a == b
    || a.status == Pending
    || (a.status == Running && Terminal(b.status))
  }

  /** A record that was read stays: it only advances, and once terminal it never changes again, whatever
      other tasks and threads do. */
  lemma {:induction false} RecordsOnlyAdvance<R>(trace: seq<Step<R>>, n: nat, id: string)
    requires Possible(trace) && n <= |trace| && id in Run(trace[..n]).tasks
    ensures id in Run(trace).tasks && Reaches(Run(trace[..n]).tasks[id], Run(trace).tasks[id])
    ensures Terminal(Run(trace[..n]).tasks[id].status) ==> Run(trace).tasks[id] == Run(trace[..n]).tasks[id]
  {
    if n == |trace| {
      assert trace[..n] == trace;
    } else {
      var front := trace[..|trace| - 1];
      assert front[..n] == trace[..n];
      RecordsOnlyAdvance(front, n, id);
      RunIsCoherent(front);
      StepAdvances(Run(front), trace[|trace| - 1], id);
    }
  }

  /** The statuses a task goes through, each listed when it is entered. */
  function History<R>(trace: seq<Step<R>>, id: string): seq<Status> {
    if trace == [] then []
    else
      var h, s := History(trace[..|trace| - 1], id), Run(trace);
      if id in s.tasks && (h == [] || h[|h| - 1] != s.tasks[id].status) then h + [s.tasks[id].status] else h
  }

  ghost predicate Linear(h: seq<Status>) {
    h <= [Pending, Running, Succeeded] || h <= [Pending, Running, Failed]
  }

  lemma {:induction false} LinearStep<R>(h: seq<Status>, a: Task<R>, b: Task<R>)
    requires Linear(h) && h != [] && h[|h| - 1] == a.status && Advances(a, b)
    ensures a.status != b.status ==> Linear(h + [b.status])
  {
    assert h == [Pending, Running, Succeeded][..|h|] || h == [Pending, Running, Failed][..|h|];
  }

  /** Every task goes through pending, running, and then succeeded or failed, without skipping or going back. */
  lemma {:induction false} HistoryIsLinear<R>(trace: seq<Step<R>>, id: string)
    requires Possible(trace)
    ensures Linear(History(trace, id))
    ensures History(trace, id) == [] <==> id !in Run(trace).tasks
    ensures id in Run(trace).tasks ==> Run(trace).tasks[id].status == History(trace, id)[|History(trace, id)| - 1]
  {
    if trace != [] {
      var front, step := trace[..|trace| - 1], trace[|trace| - 1];
      HistoryIsLinear(front, id);
      RunIsCoherent(front);
      if id in Run(front).tasks {
        StepAdvances(Run(front), step, id);
        LinearStep(History(front, id), Run(front).tasks[id], Run(trace).tasks[id]);
      }
    }
  }

  // ---------- tasks do not interfere ----------

  /** All there is about one task: its record and its thread. */
  datatype View<R> = View(task: Option<Task<R>>, worker: Option<Worker>)

  function Lookup<V>(m: map<string, V>, id: string): Option<V> {
    if id in m then Some(m[id]) else None
  }

  function ViewOf<R>(s: State<R>, id: string): View<R> {
    View(Lookup(s.tasks, id), Lookup(s.workers, id))
  }

  function OwnSteps<R>(trace: seq<Step<R>>, id: string): seq<Step<R>> {
    if trace == [] then []
    else
      var front, step := trace[..|trace| - 1], trace[|trace| - 1];
      if step.id == id then OwnSteps(front, id) + [step] else OwnSteps(front, id)
  }

  lemma {:induction false} StepIsLocal<R>(s: State<R>, t: State<R>, step: Step<R>, id: string)
    requires ViewOf(s, id) == ViewOf(t, id)
    ensures step.id != id ==> ViewOf(Next(s, step), id) == ViewOf(s, id)
    ensures step.id == id ==> ViewOf(Next(s, step), id) == ViewOf(Next(t, step), id) && Enabled(s, step) == Enabled(t, step)
  {
    assert id in s.tasks <==> ViewOf(s, id).task.Some?;
    assert id in t.tasks <==> ViewOf(t, id).task.Some?;
    assert id in s.workers <==> ViewOf(s, id).worker.Some?;
    assert id in t.workers <==> ViewOf(t, id).worker.Some?;
  }

  lemma {:induction false} RunSnoc<R>(trace: seq<Step<R>>, step: Step<R>)
    ensures Run(trace + [step]) == Next(Run(trace), step)
    ensures Possible(trace + [step]) <==> Possible(trace) && Enabled(Run(trace), step)
  {
    assert (trace + [step])[..|trace|] == trace;
  }

  /** Under any interleaving, a task's record and thread are those of its own steps run alone: no task
      overwrites or disturbs another. */
  lemma {:induction false} TasksDoNotInterfere<R>(trace: seq<Step<R>>, id: string)
    requires Possible(trace)
    ensures Possible(OwnSteps(trace, id))
    ensures ViewOf(Run(trace), id) == ViewOf(Run(OwnSteps(trace, id)), id)
  {
    if trace != [] {
      var front, step := trace[..|trace| - 1], trace[|trace| - 1];
      TasksDoNotInterfere(front, id);
      StepIsLocal(Run(front), Run(OwnSteps(front, id)), step, id);
      RunSnoc(OwnSteps(front, id), step);
    }
  }

  // ---------- what a poll can see ----------

  /** A task shows a result iff its own job returned that result, and an error iff its job raised it. */
  lemma {:induction false} OutcomeIsTheJobs<R(!new)>(trace: seq<Step<R>>, id: string)
    requires Possible(trace)
    ensures forall r: R :: Lookup(Run(trace).tasks, id) == Some(Task(id, Succeeded, Some(r), None)) <==> Finish(id, r) in trace
    ensures forall e :: Lookup(Run(trace).tasks, id) == Some(Task(id, Failed, None, Some(e))) <==> Step<R>.Fail(id, e) in trace
  {
    if trace != [] {
      var front, step := trace[..|trace| - 1], trace[|trace| - 1];
      OutcomeIsTheJobs(front, id);
      RunIsCoherent(front);
      SplitLast(trace);
      assert forall x :: x in trace <==> x in front || x == step;
      if id in Run(front).tasks {
        StepAdvances(Run(front), step, id);
      }
    }
  }
}
