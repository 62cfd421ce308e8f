/** Whole task lifecycles on a fresh registry: start, cancel, run and
    inspect, in the orders the tools allow. Each scenario starts from an empty
    `TaskManager` and reports what `check_task_status` and `cancel_agent_task`
    answer along the way. Everything the run writes to standard output
    between its start line and its end line is one fragment, `progress`: the
    prints of its MCP session and the prints and tracebacks of the provider
    call, which `asyncio.to_thread` runs in a copy of the current context and
    therefore logs into the same task buffer. */
module TaskLifecycle {
  import opened Strings
  import opened Values
  import opened Routing
  import opened TaskRegistry

  /** A started task whose runner has written its start line and all the
    output before its end line. */
  method StartedRun(id: string, progress: string) returns (registry: Registry)
    requires id != ""
    ensures fresh(registry) && registry.Valid()
    ensures registry.tasks == map[id := TaskRecord(id, Running, [StartedLine(id), "\n", progress],
                                                   None, None, true, false)]
  {
    registry := new Registry();
    var _ := registry.Submit(id);
    assert registry.tasks == map[id := TaskRecord(id, Running, [], None, None, true, false)];
    registry.Begin(id);
    assert [] + [StartedLine(id), "\n"] == [StartedLine(id), "\n"];
    registry.Write(Some(id), progress);
    assert [StartedLine(id), "\n"] + [progress] == [StartedLine(id), "\n", progress];
  }

  /** The log text of a run that ended with the given lines. */
  lemma RunLog(id: string, progress: string, ending: seq<string>)
    ensures Concat([StartedLine(id), "\n", progress] + ending)
      == StartedLine(id) + "\n" + progress + Concat(ending)
  {
    ConcatSplit([StartedLine(id), "\n"] + [progress], ending);
    ConcatSplit([StartedLine(id), "\n"], [progress]);
    ConcatPair(StartedLine(id), "\n");
    ConcatAppend([], progress);
    assert [] + [progress] == [progress];
    assert [StartedLine(id), "\n"] + [progress] == [StartedLine(id), "\n", progress];
  }

  /** A task that was just started is running with an empty log and neither
    result nor error. */
  method StartThenCheck(id: string) returns (reply: JsonObject, report: JsonObject)
    requires id != ""
    ensures Lookup(reply, "task_id") == Some(id)
    ensures Lookup(report, "task_id") == Some(id)
    ensures Lookup(report, "status") == Some("running")
    ensures Lookup(report, "logs") == Some("")
    ensures Lookup(report, "result") == None && Lookup(report, "error") == None
  {
    var registry := new Registry();
    reply := registry.Submit(id);
    report := registry.StatusReport(id);
  }

  /** A run that returns: the task completes with the provider's answer and
    the report suffix, its log ends with the completion line, and it can no
    longer be cancelled. */
  method CompletedRun(id: string, progress: string, model: string, providerReply: string)
    returns (report: JsonObject, cancel: JsonObject)
    requires id != ""
    ensures Lookup(report, "status") == Some("completed")
    ensures Lookup(report, "result") == Some(AgentAnswer(model, providerReply) + ReportSuffix)
    ensures Lookup(report, "error") == None
    ensures Lookup(report, "logs") == Some(StartedLine(id) + "\n" + progress + CompletedLine(id) + "\n")
    ensures cancel == ErrorReply(NotRunning(id, Completed))
  {
    var registry := StartedRun(id, progress);
    registry.Settle(id, model, Returned(providerReply));
    var ending := [CompletedLine(id), "\n"];
    assert registry.tasks[id] == TaskRecord(id, Completed, [StartedLine(id), "\n", progress] + ending,
                                            Some(AgentAnswer(model, providerReply) + ReportSuffix),
                                            None, false, false);
    RunLog(id, progress, ending);
    ConcatPair(CompletedLine(id), "\n");
    var head := StartedLine(id) + "\n" + progress;
    assert head + (CompletedLine(id) + "\n") == head + CompletedLine(id) + "\n";
    report := registry.StatusReport(id);
    cancel := registry.Cancel(id);
  }

  /** A run that raises: the task fails with the exception's message, and its
    log ends with the failure line and the traceback, each followed by a
    newline. */
  method FailedRun(id: string, progress: string, model: string, message: string, traceback: string)
    returns (report: JsonObject)
    requires id != ""
    ensures Lookup(report, "status") == Some("failed")
    ensures Lookup(report, "result") == None
    ensures Lookup(report, "error") == Some(message)
    ensures Lookup(report, "logs")
      == Some(StartedLine(id) + "\n" + progress + FailedLine(id) + "\n" + traceback + "\n")
  {
    var registry := StartedRun(id, progress);
    registry.Settle(id, model, Raised(message, traceback));
    var ending := [FailedLine(id), "\n", traceback, "\n"];
    assert registry.tasks[id] == TaskRecord(id, Failed, [StartedLine(id), "\n", progress] + ending,
                                            None, Some(message), false, false);
    RunLog(id, progress, ending);
    assert Concat(ending) == FailedLine(id) + "\n" + traceback + "\n" by {
      ConcatSplit([FailedLine(id), "\n"], [traceback, "\n"]);
      assert [FailedLine(id), "\n"] + [traceback, "\n"] == ending;
      ConcatPair(FailedLine(id), "\n");
      ConcatPair(traceback, "\n");
    }
    var head := StartedLine(id) + "\n" + progress;
    assert head + (FailedLine(id) + "\n" + traceback + "\n") == head + FailedLine(id) + "\n" + traceback + "\n";
    report := registry.StatusReport(id);
  }

  /** Cancelling a running task twice before the cancellation is delivered
    succeeds both times: the request changes no status, and the handle is
    still not done. */
  method CancelTwice(id: string) returns (first: JsonObject, second: JsonObject)
    requires id != ""
    ensures first == [("status", "success"), ("message", CancelAccepted(id))]
    ensures second == first
  {
    var registry := new Registry();
    var _ := registry.Submit(id);
    first := registry.Cancel(id);
    second := registry.Cancel(id);
  }

  /** A cancellation delivered to a started run: the task ends cancelled by
    the user, its log ends with the cancellation line, and a further cancel is
    refused because it is no longer running. */
  method CancelDuringRun(id: string, progress: string, model: string)
    returns (report: JsonObject, again: JsonObject)
    requires id != ""
    ensures Lookup(report, "status") == Some("cancelled")
    ensures Lookup(report, "error") == Some(CancelledByUser)
    ensures Lookup(report, "result") == None
    ensures Lookup(report, "logs") == Some(StartedLine(id) + "\n" + progress + CancelledLine(id) + "\n")
    ensures again == ErrorReply(NotRunning(id, Cancelled))
  {
    var registry := StartedRun(id, progress);
    var _ := registry.Cancel(id);
    registry.Settle(id, model, CancelDelivered);
    var ending := [CancelledLine(id), "\n"];
    assert registry.tasks[id] == TaskRecord(id, Cancelled, [StartedLine(id), "\n", progress] + ending,
                                            None, Some(CancelledByUser), false, false);
    RunLog(id, progress, ending);
    ConcatPair(CancelledLine(id), "\n");
    var head := StartedLine(id) + "\n" + progress;
    assert head + (CancelledLine(id) + "\n") == head + CancelledLine(id) + "\n";
    report := registry.StatusReport(id);
    again := registry.Cancel(id);
  }

  /** A cancellation delivered before the run's first step: none of the
    runner's code executes, so the record stays `running` with an empty
    log, and a further cancel finds no running task object. */
  method CancelBeforeStart(id: string, model: string) returns (report: JsonObject, again: JsonObject)
    requires id != ""
    ensures Lookup(report, "status") == Some("running")
    ensures Lookup(report, "logs") == Some("")
    ensures Lookup(report, "result") == None && Lookup(report, "error") == None
    ensures again == ErrorReply(NoTaskObject(id))
  {
    var registry := new Registry();
    var _ := registry.Submit(id);
    var _ := registry.Cancel(id);
    registry.Settle(id, model, CancelledBeforeStart);
    report := registry.StatusReport(id);
    again := registry.Cancel(id);
  }

  /** Output written while another task is current, or outside any task,
    reaches the console but not this task's log. */
  method ForeignOutput(id: string, other: string, s: string) returns (report: JsonObject)
    requires id != "" && other != id
    ensures Lookup(report, "logs") == Some("")
  {
    var registry := new Registry();
    var _ := registry.Submit(id);
    registry.Write(Some(other), s);
    registry.Write(None, s);
    report := registry.StatusReport(id);
  }

  /** Output written while the task is current accumulates in its log in
    order. */
  method OwnOutput(id: string, a: string, b: string) returns (report: JsonObject)
    requires id != ""
    ensures Lookup(report, "logs") == Some(a + b)
  {
    var registry := new Registry();
    var _ := registry.Submit(id);
    registry.Write(Some(id), a);
    registry.Write(Some(id), b);
    ConcatPair(a, b);
    report := registry.StatusReport(id);
  }
}
