/** The background-task registry of the LLM provider server: the
    `TaskManager` map of task records, the tools that start, cancel and
    inspect tasks, the log capture of standard output, and the terminal
    transitions of the background runner.

    Everything is sequential. The ambient current-task variable is an explicit
    `current` parameter, and the asyncio task object is a `live` flag (the
    object exists and is not done) with a `cancelRequested` flag (its
    `cancel()` was called and not yet delivered). */
module TaskRegistry {
  import opened Strings
  import opened Values
  import opened Routing

  datatype Status = Running | Completed | Failed | Cancelled

  function StatusName(s: Status): string
  {
    match s
    case Running => "running"
    case Completed => "completed"
    case Failed => "failed"
    case Cancelled => "cancelled"
  }

  /** A `TaskState` record. */
  datatype TaskRecord = TaskRecord(
    id: string,
    status: Status,
    logs: seq<string>,
    result: Option<string>,
    error: Option<string>,
    live: bool,
    cancelRequested: bool)

  /** What the status field says about the other fields: a running task has
      neither result nor error, a completed one has a result only, a failed or
      cancelled one an error only, and a pending cancellation needs a live
      handle. (The handle outlives the status change by the final log line.) */
  predicate WellFormed(r: TaskRecord)
  {
    && (r.status == Running ==> r.result.None? && r.error.None?)
    && (r.status == Completed ==> r.result.Some? && r.error.None?)
    && (r.status == Failed || r.status == Cancelled ==> r.result.None? && r.error.Some?)
    && (r.cancelRequested ==> r.live)
  }

  /** A JSON object the tools return, as its entries in insertion order. */
  type JsonObject = seq<(string, string)>

  /** The value under key `k`, or None when the object has no such key. */
  function Lookup(o: JsonObject, k: string): (r: Option<string>)
    ensures r.Some? <==> exists i :: 0 <= i < |o| && o[i].0 == k
    ensures r.Some? ==> (k, r.value) in o
    decreases |o|
  {
    if |o| == 0 then None
    else if o[0].0 == k then Some(o[0].1)
    else
      var r := Lookup(o[1..], k);
      assert forall i :: 1 <= i < |o| ==> o[i] == o[1..][i - 1];
      r
  }

  function ErrorReply(message: string): JsonObject
  {
    [("status", "error"), ("message", message)]
  }

  function NotFound(id: string): string
  {
    "Task " + id + " not found."
  }

  function CancelAccepted(id: string): string
  {
    "Task " + id + " has been cancelled."
  }

  function NoTaskObject(id: string): string
  {
    "Task " + id + " has no running task object."
  }

  function NotRunning(id: string, status: Status): string
  {
    "Task " + id + " is not running (current status: " + StatusName(status) + ")."
  }

  const Started: string := "Task started asynchronously in the background."
  const CancelledByUser: string := "Cancelled by user"
  const ReportSuffix: string :=
    "\n\n[Автономний агент рапортує: Бачу базу та інструменти, полет нормальний.]"

  function StartedLine(id: string): string
  {
    "--- [Task " + id + "] Execution Started ---"
  }

  function CompletedLine(id: string): string
  {
    "--- [Task " + id + "] Execution Completed ---"
  }

  function CancelledLine(id: string): string
  {
    "--- [Task " + id + "] Execution Cancelled ---"
  }

  function FailedLine(id: string): string
  {
    "--- [Task " + id + "] Execution Failed ---"
  }

  /** How a background run ends. The provider call and the MCP session are
      not modelled: `Returned` carries the provider's reply (ignored when the
      identifier is unsupported), `Raised` an exception's message and
      formatted traceback. A cancellation requested before the run's first
      step ends it without running any of its code, so the record keeps its
      running status. */
  datatype RunEnd =
    | Returned(providerReply: string)
    | CancelDelivered
    | Raised(message: string, traceback: string)
    | CancelledBeforeStart

  predicate IsCancellation(e: RunEnd)
  {
    e.CancelDelivered? || e.CancelledBeforeStart?
  }

  /** Looking a key up in two objects laid end to end finds it in the first
      one if it is there. */
  lemma {:induction false} LookupAppend(a: JsonObject, b: JsonObject, k: string)
    ensures Lookup(a + b, k) == if Lookup(a, k).Some? then Lookup(a, k) else Lookup(b, k)
    decreases |a|
  {
    if |a| == 0 {
      assert a + b == b;
    } else {
      assert (a + b)[1..] == a[1..] + b;
      LookupAppend(a[1..], b, k);
    }
  }

  /** An optional JSON entry: present only when the value is set. */
  function Entry(k: string, v: Option<string>): JsonObject
  {
    if v.Some? then [(k, v.value)] else []
  }

  /** The status object of a record: id, status and the joined log buffer,
    then `result` and `error` only when they are set. */
  function Snapshot(state: TaskRecord): JsonObject
  {
    [("task_id", state.id), ("status", StatusName(state.status)), ("logs", Concat(state.logs))]
      + Entry("result", state.result) + Entry("error", state.error)
  }

  /** Every field of the record can be read back from its status object, and
    `result`/`error` appear exactly when they are set. */
  lemma SnapshotFields(state: TaskRecord)
    ensures Lookup(Snapshot(state), "task_id") == Some(state.id)
    ensures Lookup(Snapshot(state), "status") == Some(StatusName(state.status))
    ensures Lookup(Snapshot(state), "logs") == Some(Concat(state.logs))
    ensures Lookup(Snapshot(state), "result") == state.result
    ensures Lookup(Snapshot(state), "error") == state.error
  {
    var base := [("task_id", state.id), ("status", StatusName(state.status)), ("logs", Concat(state.logs))];
    var r := Entry("result", state.result);
    var e := Entry("error", state.error);
    assert Lookup(base[2..], "logs") == Some(Concat(state.logs));
    assert Lookup(base[1..], "logs") == Some(Concat(state.logs));
    assert Lookup(base[2..], "result") == None;
    assert Lookup(base[1..], "result") == None;
    assert Lookup(base, "result") == None;
    assert Lookup(base[2..], "error") == None;
    assert Lookup(base[1..], "error") == None;
    assert Lookup(base, "error") == None;
    LookupAppend(base, r, "task_id");
    LookupAppend(base, r, "status");
    LookupAppend(base, r, "logs");
    LookupAppend(base, r, "result");
    LookupAppend(base, r, "error");
    LookupAppend(base + r, e, "task_id");
    LookupAppend(base + r, e, "status");
    LookupAppend(base + r, e, "logs");
    LookupAppend(base + r, e, "result");
    LookupAppend(base + r, e, "error");
  }

  /** `write` appends to a task's buffer only while the ambient task id is
    set, non-empty and registered. */
  predicate Captures(tasks: map<string, TaskRecord>, current: Option<string>)
  {
    current.Some? && current.value != "" && current.value in tasks
  }

  /** The registry with `frags` appended to the buffer of task `id`. */
  function WithLog(tasks: map<string, TaskRecord>, id: string, frags: seq<string>): map<string, TaskRecord>
    requires id in tasks
  {
    tasks[id := tasks[id].(logs := tasks[id].logs + frags)]
  }

  /** A write touches only the buffer of its task: the registry keeps its
    ids, every other record is unchanged, the task's other fields are
    unchanged, and its buffer is the old one followed by the fragments. */
  lemma WithLogTouchesOnlyTask(tasks: map<string, TaskRecord>, id: string, frags: seq<string>)
    requires id in tasks
    ensures WithLog(tasks, id, frags).Keys == tasks.Keys
    ensures forall other :: other in tasks && other != id ==> WithLog(tasks, id, frags)[other] == tasks[other]
    ensures |WithLog(tasks, id, frags)[id].logs| == |tasks[id].logs| + |frags|
    ensures WithLog(tasks, id, frags)[id].logs[..|tasks[id].logs|] == tasks[id].logs
    ensures WithLog(tasks, id, frags)[id].logs[|tasks[id].logs|..] == frags
    ensures WithLog(tasks, id, frags)[id].(logs := tasks[id].logs) == tasks[id]
  {
  }

  /** What `check_task_status` reports as `logs` after a write to a task's
    buffer: the text it reported before, followed by the fragment. */
  lemma WithLogReport(tasks: map<string, TaskRecord>, id: string, s: string)
    requires id in tasks
    ensures Lookup(Snapshot(WithLog(tasks, id, [s])[id]), "logs") == Some(Concat(tasks[id].logs) + s)
  {
    ConcatAppend(tasks[id].logs, s);
    SnapshotFields(WithLog(tasks, id, [s])[id]);
  }

  /** Two appends to one buffer are one append of both. */
  lemma WithLogTwice(tasks: map<string, TaskRecord>, id: string, a: seq<string>, b: seq<string>)
    requires id in tasks
    ensures WithLog(WithLog(tasks, id, a), id, b) == WithLog(tasks, id, a + b)
  {
    assert tasks[id].logs + a + b == tasks[id].logs + (a + b);
  }

  /** `TaskManager`, together with the text written to the real standard
      output and error streams (merged into one console). */
  class Registry {
    var tasks: map<string, TaskRecord>
    var console: seq<string>

    ghost predicate Valid()
      reads this
    {
      forall id :: id in tasks ==> id != "" && tasks[id].id == id && WellFormed(tasks[id])
    }

    constructor()
      ensures tasks == map[] && console == []
      ensures Valid()
    {
      tasks := map[];
      console := [];
    }

    /** `start_async_agent_task`: the uuid it draws is a fresh, non-empty id. */
    method Submit(id: string) returns (reply: JsonObject)
      requires Valid() && id != "" && id !in tasks
      modifies this
      ensures Valid()
      ensures tasks == old(tasks)[id := TaskRecord(id, Running, [], None, None, true, false)]
      ensures console == old(console)
      ensures reply == [("status", "success"), ("task_id", id), ("message", Started)]
    {
      tasks := tasks[id := TaskRecord(id, Running, [], None, None, false, false)];
      tasks := tasks[id := tasks[id].(live := true)];
      reply := [("status", "success"), ("task_id", id), ("message", Started)];
    }

    /** `cancel_agent_task`: only a running task with a live handle is asked
      to stop, and the request alone changes no status. */
    method Cancel(id: string) returns (reply: JsonObject)
      requires Valid()
      modifies this
      ensures Valid()
      ensures console == old(console)
      ensures id !in old(tasks) ==> reply == ErrorReply(NotFound(id)) && tasks == old(tasks)
      ensures id in old(tasks) && old(tasks)[id].status == Running && old(tasks)[id].live ==>
        && reply == [("status", "success"), ("message", CancelAccepted(id))]
        && tasks == old(tasks)[id := old(tasks)[id].(cancelRequested := true)]
      ensures id in old(tasks) && old(tasks)[id].status == Running && !old(tasks)[id].live ==>
        && reply == ErrorReply(NoTaskObject(id))
        && tasks == old(tasks)
      ensures id in old(tasks) && old(tasks)[id].status != Running ==>
        && reply == ErrorReply(NotRunning(id, old(tasks)[id].status))
        && tasks == old(tasks)
    {
      if id !in tasks {
        return ErrorReply(NotFound(id));
      }
      var state := tasks[id];
      if state.status == Running {
        if state.live {
          tasks := tasks[id := state.(cancelRequested := true)];
          return [("status", "success"), ("message", CancelAccepted(id))];
        } else {
          return ErrorReply(NoTaskObject(id));
        }
      } else {
        return ErrorReply(NotRunning(id, state.status));
      }
    }

    /** `check_task_status`, a snapshot. */
    function StatusReport(id: string): (reply: JsonObject)
      reads this
      ensures id !in tasks ==> reply == ErrorReply(NotFound(id))
      ensures id in tasks ==>
        && Lookup(reply, "task_id") == Some(tasks[id].id)
        && Lookup(reply, "status") == Some(StatusName(tasks[id].status))
        && Lookup(reply, "logs") == Some(Concat(tasks[id].logs))
        && Lookup(reply, "result") == tasks[id].result
        && Lookup(reply, "error") == tasks[id].error
    {
      if id !in tasks then ErrorReply(NotFound(id))
      else
        SnapshotFields(tasks[id]);
        Snapshot(tasks[id])
    }

    /** `AsyncIOSafeStdout.write`: the fragment always reaches the console,
      and it is also appended to the buffer of the current task when there is
      one (a non-empty id present in the registry). */
    method Write(current: Option<string>, s: string)
      requires Valid()
      modifies this
      ensures Valid()
      ensures console == old(console) + [s]
      ensures Captures(old(tasks), current) ==> tasks == WithLog(old(tasks), current.value, [s])
      ensures !Captures(old(tasks), current) ==> tasks == old(tasks)
    {
      if current.Some? && current.value != "" && current.value in tasks {
        var id := current.value;
        tasks := tasks[id := tasks[id].(logs := tasks[id].logs + [s])];
      }
      console := console + [s];
    }

    /** `print(s)`: the text, then the newline, as two writes. */
    method Print(current: Option<string>, s: string)
      requires Valid()
      modifies this
      ensures Valid()
      ensures console == old(console) + [s, "\n"]
      ensures Captures(old(tasks), current) ==> tasks == WithLog(old(tasks), current.value, [s, "\n"])
      ensures !Captures(old(tasks), current) ==> tasks == old(tasks)
    {
      ghost var before := tasks;
      Write(current, s);
      Write(current, "\n");
      if Captures(before, current) {
        WithLogTwice(before, current.value, [s], ["\n"]);
        assert [s] + ["\n"] == [s, "\n"];
      }
    }

    /** The first step of `agent_task_wrapper`: with the task made current,
      its start line goes to its own buffer and to the console. */
    method Begin(id: string)
      requires Valid() && id in tasks
      modifies this
      ensures Valid()
      ensures tasks == WithLog(old(tasks), id, [StartedLine(id), "\n"])
      ensures console == old(console) + [StartedLine(id), "\n"]
    {
      Print(Some(id), StartedLine(id));
    }

    /** The end of `agent_task_wrapper` for task `id` running `model`: exactly
      one terminal transition, with its log line written to the task's own
      buffer, and no other record touched. A pending cancellation is what the
      run ends with, and only then does it end by cancellation. */
    method Settle(id: string, model: string, end: RunEnd)
      requires Valid() && id in tasks && tasks[id].status == Running && tasks[id].live
      requires IsCancellation(end) <==> tasks[id].cancelRequested
      modifies this
      ensures Valid()
      ensures end.Returned? ==>
        && tasks == old(tasks)[id := old(tasks)[id].(
             status := Completed,
             result := Some(AgentAnswer(model, end.providerReply) + ReportSuffix),
             logs := old(tasks)[id].logs + [CompletedLine(id), "\n"],
             live := false)]
        && console == old(console) + [CompletedLine(id), "\n"]
      ensures end.CancelDelivered? ==>
        && tasks == old(tasks)[id := old(tasks)[id].(
             status := Cancelled,
             error := Some(CancelledByUser),
             logs := old(tasks)[id].logs + [CancelledLine(id), "\n"],
             live := false,
             cancelRequested := false)]
        && console == old(console) + [CancelledLine(id), "\n"]
      ensures end.Raised? ==>
        && tasks == old(tasks)[id := old(tasks)[id].(
             status := Failed,
             error := Some(end.message),
             logs := old(tasks)[id].logs + [FailedLine(id), "\n", end.traceback, "\n"],
             live := false)]
        && console == old(console) + [FailedLine(id), "\n", end.traceback, "\n"]
      ensures end.CancelledBeforeStart? ==>
        && tasks == old(tasks)[id := old(tasks)[id].(live := false, cancelRequested := false)]
        && console == old(console)
    {
      var current := Some(id);
      ghost var r0 := tasks[id];
      assert Captures(tasks, current);
      match end {
      case Returned(reply) =>
        var answer := AgentAnswer(model, reply);
        tasks := tasks[id := tasks[id].(status := Completed, result := Some(answer + ReportSuffix))];
        Print(current, CompletedLine(id));
        assert tasks == old(tasks)[id := r0.(status := Completed, result := Some(answer + ReportSuffix),
                                                logs := r0.logs + [CompletedLine(id), "\n"])];
      case CancelDelivered =>
        Print(current, CancelledLine(id));
        tasks := tasks[id := tasks[id].(status := Cancelled, error := Some(CancelledByUser),
                                        cancelRequested := false)];
        assert tasks == old(tasks)[id := r0.(status := Cancelled, error := Some(CancelledByUser),
                                                logs := r0.logs + [CancelledLine(id), "\n"],
                                                cancelRequested := false)];
      case Raised(message, traceback) =>
        Print(current, FailedLine(id));
        Print(current, traceback);
        WithLogTwice(old(tasks), id, [FailedLine(id), "\n"], [traceback, "\n"]);
        assert [FailedLine(id), "\n"] + [traceback, "\n"] == [FailedLine(id), "\n", traceback, "\n"];
        tasks := tasks[id := tasks[id].(status := Failed, error := Some(message))];
        assert tasks == old(tasks)[id := r0.(status := Failed, error := Some(message),
                                                logs := r0.logs + [FailedLine(id), "\n", traceback, "\n"])];
      case CancelledBeforeStart =>
        tasks := tasks[id := tasks[id].(cancelRequested := false)];
      }
      tasks := tasks[id := tasks[id].(live := false)];
    }
  }
}
