/** The graph-writing tools of the FalkorDB service: `create_session`,
    `add_node`, `link_nodes` and `update_last_event`. Each tool checks the
    connection, compiles a fixed-order statement list from its arguments and
    runs it with the per-statement executor.

    The connection is `graph: Option<Store>`; None stands for `db_graph`
    being unset because the startup connection failed. */
module FalkorTools {
  import opened Strings
  import opened Values
  import opened Cypher
  import opened Executor

  /** The JSON a tool returns, or the exception it lets escape to the tool
      framework. */
  datatype ToolReply =
    | Executed(results: seq<StatementOutcome>)   // {"status": "success", "results": [...]}
    | Linked(query: string)                      // {"status": "success", "query": q}
    | Refused(message: string)                   // {"status": "error", "message": m}
    | Raised(reason: string)                     // an uncaught exception

  const Disconnected: string := "DB disconnected"
  const MissingNodeId: string := "Missing node id"

  // ----- create_session ------------------------------------------------------

  /** `f"d_{date.replace('-', '_')}"`. */
  function DayId(date: string): (d: string)
    ensures |d| == |date| + 2 && d[..2] == "d_"
    ensures forall i :: 0 <= i < |date| ==> d[i + 2] == (if date[i] == '-' then '_' else date[i])
    ensures '-' !in d
  {
    ReplaceCharPointwise(date, '-', '_');
    var d := "d_" + ReplaceChar(date, '-', "_");
    assert forall i :: 0 <= i < |date| ==> d[i + 2] == ReplaceChar(date, '-', "_")[i];
    assert forall j :: 2 <= j < |d| ==> d[j] == d[(j - 2) + 2];
    d
  }

  /** The statements of `create_session`, or the IndexError that
      `date.split('-')[1]` raises when the date has no `-` (raised after the
      connection check and before any statement is sent). */
  function CreateSessionQueries(sessionId: string, name: string, topic: string, trigger: string,
                                date: string, year: int): (c: Compiled)
    ensures c.Compiled? <==> '-' in date
    ensures c.Crash? ==> c.reason == IndexOutOfRange
    ensures c.Compiled? ==> |c.queries| == 4
  {
    SplitHasSecondField(date, '-');
    var props := SessionProps(name, topic, trigger);
    var fields := Split(date, '-');
    if |fields| < 2 then Crash(IndexOutOfRange)
    else
      var y := IntToString(year);
      Compiled([SessionMerge(sessionId, props),
                YearMerge(y),
                DayMerge(date, DayId(date)),
                MonthLink("year_" + y, DayId(date), fields[1])])
  }

  /** The session's property map: name, topic and trigger as escaped
      literals, and the status fixed to `'active'`. */
  function SessionProps(name: string, topic: string, trigger: string): string
  {
    "name: " + EStr(Text(name)) + ", topic: " + EStr(Text(topic))
      + ", status: 'active', trigger: " + EStr(Text(trigger))
  }

  /** Session merge, Year merge, Day merge (under the derived day id), then the
      Year-MONTH->Day link carrying the month number. */
  lemma CreateSessionOrder(sessionId: string, name: string, topic: string, trigger: string,
                           date: string, year: int)
    requires '-' in date
    ensures var qs := CreateSessionQueries(sessionId, name, topic, trigger, date, year).queries;
      && qs[0] == SessionMerge(sessionId, SessionProps(name, topic, trigger))
      && qs[1] == YearMerge(IntToString(year))
      && qs[2] == DayMerge(date, DayId(date))
      && qs[3] == MonthLink("year_" + IntToString(year), DayId(date), MonthNumber(date))
  {
  }

  method CreateSession(graph: Option<Store>, sessionId: string, name: string, topic: string,
                       trigger: string, date: string, year: int) returns (r: ToolReply)
    ensures graph.None? ==> r == Refused(Disconnected)
    ensures graph.Some? && '-' !in date ==> r == Raised(IndexOutOfRange)
    ensures graph.Some? && '-' in date ==>
      r == Executed(Outcomes(graph.value, [],
                             CreateSessionQueries(sessionId, name, topic, trigger, date, year).queries))
    ensures r.Executed? ==> |r.results| == 4
  {
    if graph.None? {
      return Refused(Disconnected);
    }
    var compiled := CreateSessionQueries(sessionId, name, topic, trigger, date, year);
    if compiled.Crash? {
      return Raised(compiled.reason);
    }
    var results := ExecuteAll(graph.value, compiled.queries);
    r := Executed(results);
  }

  // ----- add_node ------------------------------------------------------------

  /** `if not n_id`: the node id is missing, None or otherwise falsy. */
  predicate HasNodeId(nodeData: Dict)
  {
    Truthy(Get(nodeData, "id"))
  }

  /** `day_id and time and node_type != 'Entity'`. */
  predicate AnchorsToDay(nodeType: string, dayId: Option<string>, time: Option<string>)
  {
    TruthyText(dayId) && TruthyText(time) && nodeType != "Entity"
  }

  /** The statements `add_node` compiles: the node merge (its properties are
      every entry but `id`), the HAPPENED_AT link when anchored, then one
      statement per linkable relation in input order. */
  function AddNodeQueries(nodeType: string, nodeData: Dict, dayId: Option<string>,
                          time: Option<string>, relations: seq<Relation>): seq<string>
  {
    NodeBlock(nodeType, Render(Get(nodeData, "id")), PropList(WithoutKey(nodeData, "id")),
              if AnchorsToDay(nodeType, dayId, time) then Some((dayId.value, time.value)) else None,
              relations)
  }

  /** 1 + [anchored] + #linkable relations statements. */
  lemma AddNodeCount(nodeType: string, nodeData: Dict, dayId: Option<string>,
                     time: Option<string>, relations: seq<Relation>)
    ensures |AddNodeQueries(nodeType, nodeData, dayId, time, relations)|
      == 1 + (if AnchorsToDay(nodeType, dayId, time) then 1 else 0) + LinkableCount(relations)
  {
    NodeBlockCount(nodeType, Render(Get(nodeData, "id")), PropList(WithoutKey(nodeData, "id")),
                   if AnchorsToDay(nodeType, dayId, time) then Some((dayId.value, time.value)) else None,
                   relations);
  }

  /** The first statement merges the node, and its property list is the
      entries of `node_data` other than `id`, in their order (`WithoutKey`,
      whose order is fixed by `WithoutKeyAppend` and `WithoutKeySingle`). */
  lemma AddNodeFirst(nodeType: string, nodeData: Dict, dayId: Option<string>,
                     time: Option<string>, relations: seq<Relation>)
    ensures AddNodeQueries(nodeType, nodeData, dayId, time, relations)[0]
            == NodeMerge(nodeType, Render(Get(nodeData, "id")), PropList(WithoutKey(nodeData, "id")))
  {
  }

  /** A HAPPENED_AT statement is compiled exactly when the node is anchored
      (day id and time both set and the type is not `Entity`), and it is then
      the second statement, carrying that day id and time. */
  lemma AddNodeDayLink(nodeType: string, nodeData: Dict, dayId: Option<string>,
                       time: Option<string>, relations: seq<Relation>)
    ensures var qs := AddNodeQueries(nodeType, nodeData, dayId, time, relations);
      (exists k :: 0 <= k < |qs| && HasDayAnchorShape(qs[k])) <==> AnchorsToDay(nodeType, dayId, time)
    ensures var qs := AddNodeQueries(nodeType, nodeData, dayId, time, relations);
      AnchorsToDay(nodeType, dayId, time) ==>
        |qs| >= 2 && qs[1] == HappenedAt(Render(Get(nodeData, "id")), dayId.value, time.value)
  {
    NodeBlockDayLink(nodeType, Render(Get(nodeData, "id")), PropList(WithoutKey(nodeData, "id")),
                     if AnchorsToDay(nodeType, dayId, time) then Some((dayId.value, time.value)) else None,
                     relations);
  }

  /** Every statement after the node merge and the HAPPENED_AT statement is the merge of
      some linkable relation of the input; invalid relations are skipped. */
  lemma AddNodeRelationAt(nodeType: string, nodeData: Dict, dayId: Option<string>,
                          time: Option<string>, relations: seq<Relation>, k: int)
    requires (if AnchorsToDay(nodeType, dayId, time) then 2 else 1) <= k
    requires k < |AddNodeQueries(nodeType, nodeData, dayId, time, relations)|
    ensures exists j ::
      && 0 <= j < |relations| && Linkable(relations[j])
      && AddNodeQueries(nodeType, nodeData, dayId, time, relations)[k]
         == RelationQuery(Render(Get(nodeData, "id")), relations[j])
  {
    NodeBlockRelationAt(nodeType, Render(Get(nodeData, "id")), PropList(WithoutKey(nodeData, "id")),
                        if AnchorsToDay(nodeType, dayId, time) then Some((dayId.value, time.value)) else None,
                        relations, k);
  }

  method AddNode(graph: Option<Store>, nodeType: string, nodeData: Dict, dayId: Option<string>,
                 time: Option<string>, relations: seq<Relation>) returns (r: ToolReply)
    ensures graph.None? ==> r == Refused(Disconnected)
    ensures graph.Some? && !HasNodeId(nodeData) ==> r == Refused(MissingNodeId)
    ensures graph.Some? && HasNodeId(nodeData) ==>
      r == Executed(Outcomes(graph.value, [], AddNodeQueries(nodeType, nodeData, dayId, time, relations)))
  {
    if graph.None? {
      return Refused(Disconnected);
    }
    var nId := Get(nodeData, "id");
    if !Truthy(nId) {
      return Refused(MissingNodeId);
    }
    var nodeId := Render(nId);
    var props := PropList(WithoutKey(nodeData, "id"));
    var queries := [NodeMerge(nodeType, nodeId, props)];
    ghost var day: Option<(string, string)> := None;
    if TruthyText(dayId) && TruthyText(time) && nodeType != "Entity" {
      queries := queries + [HappenedAt(nodeId, dayId.value, time.value)];
      day := Some((dayId.value, time.value));
    }
    assert day == (if AnchorsToDay(nodeType, dayId, time) then Some((dayId.value, time.value)) else None);
    var relationQueries := CompileRelations(nodeId, relations);
    queries := queries + relationQueries;
    assert queries == NodeBlock(nodeType, nodeId, props, day, relations);
    var results := ExecuteAll(graph.value, queries);
    r := Executed(results);
  }

  // ----- link_nodes ----------------------------------------------------------

  /** `link_nodes` sends exactly one statement: the SET form when `props` is
      a non-empty dict, the plain form otherwise. A failure here is reported
      as a top-level error, unlike the batch tools. */
  function LinkNodes(graph: Option<Store>, sourceId: string, targetId: string, relType: string,
                     props: Dict): (r: ToolReply)
    ensures graph.None? ==> r == Refused(Disconnected)
    ensures graph.Some? ==> r.Linked? || r.Refused?
    ensures r.Linked? ==> r.query == EdgeQuery(sourceId, targetId, relType, props)
                          && graph.value([], r.query).Rows?
    ensures graph.Some? && r.Refused? ==>
      graph.value([], EdgeQuery(sourceId, targetId, relType, props)) == Error(r.message)
  {
    match graph
    case None => Refused(Disconnected)
    case Some(store) =>
      var q := if |props| > 0 then EdgeSet(sourceId, targetId, relType, PropList(props))
               else EdgePlain(sourceId, targetId, relType);
      match store([], q)
      case Rows(_) => Linked(q)
      case Error(m) => Refused(m)
  }

  // ----- update_last_event ---------------------------------------------------

  method UpdateLastEvent(graph: Option<Store>, sessionId: string, eventId: string) returns (r: ToolReply)
    ensures graph.None? ==> r == Refused(Disconnected)
    ensures graph.Some? ==> r == Executed(Outcomes(graph.value, [], LastEventPair(sessionId, eventId)))
    ensures r.Executed? ==>
      && |r.results| == 2
      && EndsWith(r.results[0].query, " DELETE rel")
      && !EndsWith(r.results[1].query, " DELETE rel")
  {
    if graph.None? {
      return Refused(Disconnected);
    }
    var queries := [LastEventDelete(sessionId), LastEventMerge(sessionId, eventId)];
    DeleteBeforeMerge(sessionId, eventId);
    var results := ExecuteAll(graph.value, queries);
    r := Executed(results);
  }
}
