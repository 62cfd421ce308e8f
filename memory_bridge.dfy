/** The batch bridge: one JSON document read from standard input is checked,
    compiled into five sections of statements (session, chronology, nodes with
    their relations, NEXT chains, LAST_EVENT) and sent one statement at a time.

    Reading standard input, `json.loads` and opening the connection are
    parameters: what was read (or the error), a parser from text to a
    document (or the decoding error), and the connection (or its error). */
module MemoryBridge {
  import opened Strings
  import opened Values
  import opened Cypher
  import opened Executor

  // ----- the document ---------------------------------------------------------

  /** One entry of `chronology.next_links`. */
  datatype NextLink = NextLink(sourceId: Scalar, targetId: Scalar)

  /** The `chronology` object; a missing key reads as Null (`.get`), a missing
      `next_links` as the empty list. */
  datatype Chronology = Chronology(dayId: Scalar, date: Scalar, year: Scalar, time: Scalar,
                                   nextLinks: seq<NextLink>, lastEventId: Scalar)

  /** One entry of `nodes`: its `type`, its `data` dict (empty when missing)
      and its `relations` (empty when missing). */
  datatype NodeEntry = NodeEntry(nodeType: Scalar, data: Dict, relations: seq<Relation>)

  /** The decoded document; None marks a top-level key that is absent, and an
      absent `nodes` is the empty list. */
  datatype Document = Document(session: Option<Dict>, chronology: Option<Chronology>,
                               nodes: seq<NodeEntry>)

  const ByteOrderMark: char := '\U{FEFF}'
  const NoInput: string := "No input data provided"
  /** `str(KeyError('id'))`, raised by `data['session']['id']`. */
  const MissingSessionId: string := "'id'"

  // ----- input checks --------------------------------------------------------

  /** One leading byte-order mark is dropped; nothing else is touched. */
  function StripBom(s: string): (r: string)
    ensures |s| > 0 && s[0] == ByteOrderMark ==> [ByteOrderMark] + r == s
    ensures !(|s| > 0 && s[0] == ByteOrderMark) ==> r == s
  {
    if |s| > 0 && s[0] == ByteOrderMark then s[1..] else s
  }

  /** Only one mark is stripped: a second one stays part of the text. */
  lemma StripBomOnce(s: string)
    ensures StripBom([ByteOrderMark, ByteOrderMark] + s) == [ByteOrderMark] + s
    ensures StripBom(StripBom([ByteOrderMark, ByteOrderMark] + s)) == s
  {
    assert ([ByteOrderMark, ByteOrderMark] + s)[1..] == [ByteOrderMark] + s;
    assert ([ByteOrderMark] + s)[1..] == s;
  }

  /** `not input_data.strip()`. */
  predicate Blank(s: string)
  {
    Strip(s) == ""
  }

  // ----- 1. session ----------------------------------------------------------

  function SessionSection(session: Option<Dict>): (qs: seq<string>)
    ensures |qs| == (if session.Some? then 1 else 0)
  {
    if session.None? then []
    else [SessionMerge(Render(Get(session.value, "id")), PropList(WithoutKey(session.value, "id")))]
  }

  // ----- 2. chronology -------------------------------------------------------

  /** `day_id and date_str and y_val`. */
  predicate Dated(c: Chronology)
  {
    Truthy(c.dayId) && Truthy(c.date) && Truthy(c.year)
  }

  /** Python's type name of a decoded scalar. */
  function TypeName(v: Scalar): string
  {
    match v
    case Null => "NoneType"
    case Bool(_) => "bool"
    case Int(_) => "int"
    case Text(_) => "str"
  }

  /** The AttributeError message of calling `.split` on a value that is not text. */
  function NoSplit(v: Scalar): string
  {
    "'" + TypeName(v) + "' object has no attribute 'split'"
  }

  /** The Year, Day and MONTH statements when day id, date and year are all
      truthy; compiling raises when the date is not text or has no `-`. */
  function ChronologySection(chron: Option<Chronology>): (r: Compiled)
    ensures r.Crash? <==>
      chron.Some? && Dated(chron.value) && !(chron.value.date.Text? && '-' in chron.value.date.s)
    ensures r.Crash? ==>
      r.reason == (if chron.value.date.Text? then IndexOutOfRange else NoSplit(chron.value.date))
    ensures r.Compiled? ==> |r.queries| == (if chron.Some? && Dated(chron.value) then 3 else 0)
  {
    if chron.None? || !Dated(chron.value) then Compiled([])
    else
      var c := chron.value;
      if !c.date.Text? then Crash(NoSplit(c.date))
      else if '-' !in c.date.s then Crash(IndexOutOfRange)
      else
        var y := Render(c.year);
        Compiled([YearMerge(y), DayMerge(c.date.s, Render(c.dayId)),
                  MonthLink("year_" + y, Render(c.dayId), MonthNumber(c.date.s))])
  }

  // ----- 3. nodes ------------------------------------------------------------

  /** `if not n_type or not n_id: continue` skips the node. */
  predicate ValidNode(n: NodeEntry)
  {
    Truthy(n.nodeType) && Truthy(Get(n.data, "id"))
  }

  /** The chronology carries a truthy `time`: every valid node is then linked
      to the chronology's Day, whatever the node's type. */
  predicate Timed(chron: Option<Chronology>)
  {
    chron.Some? && Truthy(chron.value.time)
  }

  function NodeDay(chron: Option<Chronology>): Option<(string, string)>
  {
    if Timed(chron) then Some((Render(chron.value.dayId), Render(chron.value.time))) else None
  }

  function NodeStatements(n: NodeEntry, chron: Option<Chronology>): seq<string>
  {
    if !ValidNode(n) then []
    else NodeBlock(Render(n.nodeType), Render(Get(n.data, "id")), PropList(WithoutKey(n.data, "id")),
                   NodeDay(chron), n.relations)
  }

  /** The statements of the `for node in nodes` loop, in input order. */
  function NodesSection(nodes: seq<NodeEntry>, chron: Option<Chronology>): seq<string>
  {
    FlatMap((n: NodeEntry) => NodeStatements(n, chron), nodes)
  }

  /** A valid node yields its merge, one HAPPENED_AT statement when the chronology is
      timed, and one statement per linkable relation; an invalid one yields
      nothing. */
  lemma NodeStatementsCount(n: NodeEntry, chron: Option<Chronology>)
    ensures |NodeStatements(n, chron)|
      == if ValidNode(n) then 1 + (if Timed(chron) then 1 else 0) + LinkableCount(n.relations) else 0
  {
    if ValidNode(n) {
      NodeBlockCount(Render(n.nodeType), Render(Get(n.data, "id")), PropList(WithoutKey(n.data, "id")),
                     NodeDay(chron), n.relations);
    }
  }

  /** Unlike the `add_node` tool, the bridge compiles a HAPPENED_AT statement
      for a node exactly when the node is valid and the chronology is timed
      (an `Entity` included); it is then the node's second statement and
      carries the chronology's `day_id` and `time`. */
  lemma NodeStatementsDayLink(n: NodeEntry, chron: Option<Chronology>)
    ensures var qs := NodeStatements(n, chron);
      (exists k :: 0 <= k < |qs| && HasDayAnchorShape(qs[k])) <==> ValidNode(n) && Timed(chron)
    ensures var qs := NodeStatements(n, chron);
      ValidNode(n) && Timed(chron) ==>
        |qs| >= 2
        && qs[1] == HappenedAt(Render(Get(n.data, "id")), Render(chron.value.dayId), Render(chron.value.time))
  {
    if ValidNode(n) {
      NodeBlockDayLink(Render(n.nodeType), Render(Get(n.data, "id")), PropList(WithoutKey(n.data, "id")),
                       NodeDay(chron), n.relations);
    }
  }

  /** One more node appends its statements after those of the nodes before it. */
  lemma NodesSectionSnoc(nodes: seq<NodeEntry>, chron: Option<Chronology>, n: NodeEntry)
    ensures NodesSection(nodes + [n], chron) == NodesSection(nodes, chron) + NodeStatements(n, chron)
  {
    assert (nodes + [n])[..|nodes|] == nodes;
  }

  /** Skipping a node does not stop the loop: the statements of the nodes
      before it are followed by those of the nodes after it. */
  lemma NodesSectionSkipsInvalid(nodes: seq<NodeEntry>, chron: Option<Chronology>, i: int)
    requires 0 <= i < |nodes| && !ValidNode(nodes[i])
    ensures NodesSection(nodes, chron) == NodesSection(nodes[..i], chron) + NodesSection(nodes[i + 1..], chron)
  {
    FlatMapSkipsEmpty((n: NodeEntry) => NodeStatements(n, chron), nodes, i);
  }

  /** Every statement of the section belongs to one of the nodes. */
  lemma NodesSectionMembers(nodes: seq<NodeEntry>, chron: Option<Chronology>, q: string)
    ensures q in NodesSection(nodes, chron) <==>
      exists k :: 0 <= k < |nodes| && ValidNode(nodes[k]) && q in NodeStatements(nodes[k], chron)
  {
    FlatMapMembers((n: NodeEntry) => NodeStatements(n, chron), nodes, q);
  }

  lemma NodesSectionEndsInBracket(nodes: seq<NodeEntry>, chron: Option<Chronology>)
    ensures AllEndInBracket(NodesSection(nodes, chron))
  {
    var qs := NodesSection(nodes, chron);
    forall i | 0 <= i < |qs| ensures EndsInBracket(qs[i]) {
      NodesSectionMembers(nodes, chron, qs[i]);
      var k :| 0 <= k < |nodes| && ValidNode(nodes[k]) && qs[i] in NodeStatements(nodes[k], chron);
      var n := nodes[k];
      NodeBlockEndsInBracket(Render(n.nodeType), Render(Get(n.data, "id")), PropList(WithoutKey(n.data, "id")),
                             NodeDay(chron), n.relations);
    }
  }

  // ----- 4. NEXT chains ------------------------------------------------------

  /** `if src and tgt`. */
  predicate Chained(l: NextLink)
  {
    Truthy(l.sourceId) && Truthy(l.targetId)
  }

  function NextStatement(l: NextLink): string
  {
    EdgePlain(Render(l.sourceId), Render(l.targetId), "NEXT")
  }

  function NextQueries(links: seq<NextLink>): (qs: seq<string>)
    ensures |qs| <= |links|
    decreases |links|
  {
    if |links| == 0 then []
    else
      var last := links[|links| - 1];
      NextQueries(links[..|links| - 1]) + (if Chained(last) then [NextStatement(last)] else [])
  }

  /** How many links have both `source_id` and `target_id` set. */
  function ChainedCount(links: seq<NextLink>): nat
    decreases |links|
  {
    if |links| == 0 then 0
    else (if Chained(links[0]) then 1 else 0) + ChainedCount(links[1..])
  }

  lemma {:induction false} ChainedCountSnoc(links: seq<NextLink>, l: NextLink)
    ensures ChainedCount(links + [l]) == ChainedCount(links) + (if Chained(l) then 1 else 0)
    decreases |links|
  {
    if |links| == 0 {
      assert links + [l] == [l];
    } else {
      assert (links + [l])[1..] == links[1..] + [l];
      ChainedCountSnoc(links[1..], l);
    }
  }

  /** Exactly one NEXT statement per link with both ends set. */
  lemma {:induction false} NextQueriesCount(links: seq<NextLink>)
    ensures |NextQueries(links)| == ChainedCount(links)
    decreases |links|
  {
    if |links| > 0 {
      var init, last := links[..|links| - 1], links[|links| - 1];
      assert links == init + [last];
      NextQueriesCount(init);
      ChainedCountSnoc(init, last);
    }
  }

  function NextSection(chron: Option<Chronology>): seq<string>
  {
    if chron.None? then [] else NextQueries(chron.value.nextLinks)
  }

  /** A NEXT statement is compiled exactly for the links whose source and
      target are both set. */
  lemma {:induction false} NextQueriesMembers(links: seq<NextLink>, q: string)
    ensures q in NextQueries(links) <==>
      exists k :: 0 <= k < |links| && Chained(links[k]) && q == NextStatement(links[k])
    decreases |links|
  {
    if |links| > 0 {
      var init := links[..|links| - 1];
      NextQueriesMembers(init, q);
      assert forall k :: 0 <= k < |init| ==> init[k] == links[k];
      if exists k :: 0 <= k < |links| && Chained(links[k]) && q == NextStatement(links[k]) {
        var k :| 0 <= k < |links| && Chained(links[k]) && q == NextStatement(links[k]);
        if k < |init| {
          assert Chained(init[k]) && q == NextStatement(init[k]);
        }
      }
    }
  }

  lemma NextQueriesEndInBracket(links: seq<NextLink>)
    ensures AllEndInBracket(NextQueries(links))
  {
    var qs := NextQueries(links);
    forall k | 0 <= k < |qs| ensures EndsInBracket(qs[k]) {
      NextQueriesMembers(links, qs[k]);
      var j :| 0 <= j < |links| && Chained(links[j]) && qs[k] == NextStatement(links[j]);
      MergesEndInBracket(Render(links[j].sourceId), Render(links[j].targetId), "NEXT");
    }
  }

  // ----- 5. LAST_EVENT -------------------------------------------------------

  /** `'chronology' in data and data['chronology'].get('last_event_id') and
      'session' in data`. */
  predicate PointsLast(doc: Document)
  {
    doc.chronology.Some? && Truthy(doc.chronology.value.lastEventId) && doc.session.Some?
  }

  /** The LAST_EVENT pair when the document asks for it; `session['id']`
      raises KeyError when the session has no `id` key. */
  function LastEventSection(doc: Document): (r: Compiled)
    ensures r.Crash? <==> PointsLast(doc) && Find(doc.session.value, "id").None?
    ensures r.Crash? ==> r.reason == MissingSessionId
    ensures r.Compiled? ==> |r.queries| == (if PointsLast(doc) then 2 else 0)
  {
    if !PointsLast(doc) then Compiled([])
    else
      match Find(doc.session.value, "id")
      case None => Crash(MissingSessionId)
      case Some(sid) => Compiled(LastEventPair(Render(sid), Render(doc.chronology.value.lastEventId)))
  }

  // ----- the whole document --------------------------------------------------

  /** The five sections in order, or the first exception raised while
      compiling (the chronology's comes before the LAST_EVENT one). Nothing
      has been sent when compilation raises. */
  function Compile(doc: Document): (r: Compiled)
    ensures r.Crash? <==> ChronologySection(doc.chronology).Crash? || LastEventSection(doc).Crash?
    ensures r.Crash? && ChronologySection(doc.chronology).Crash? ==> r == ChronologySection(doc.chronology)
  {
    var chron := ChronologySection(doc.chronology);
    var last := LastEventSection(doc);
    if chron.Crash? then chron
    else if last.Crash? then last
    else Compiled(SessionSection(doc.session) + chron.queries + NodesSection(doc.nodes, doc.chronology)
                  + NextSection(doc.chronology) + last.queries)
  }

  /** The session statement comes first, and its properties are the entries
      of the session object other than `id`, in their order. */
  lemma CompileSessionFirst(doc: Document)
    requires Compile(doc).Compiled? && doc.session.Some?
    ensures Compile(doc).queries[0]
            == SessionMerge(Render(Get(doc.session.value, "id")), PropList(WithoutKey(doc.session.value, "id")))
  {
    var s := doc.session.value;
    var props := WithoutKey(s, "id");
    var qs := Compile(doc).queries;
    assert qs == SessionSection(doc.session) + (qs[1..]);
    assert qs[0] == SessionMerge(Render(Get(s, "id")), PropList(props));
  }

  /** The chronology statements follow the session statement: Year, Day,
      then the MONTH link carrying the date's month number. */
  lemma CompileChronologyNext(doc: Document)
    requires Compile(doc).Compiled? && doc.chronology.Some? && Dated(doc.chronology.value)
    ensures var qs := Compile(doc).queries; var c := doc.chronology.value;
      var n := if doc.session.Some? then 1 else 0;
      && c.date.Text? && '-' in c.date.s
      && n + 3 <= |qs|
      && qs[n] == YearMerge(Render(c.year))
      && qs[n + 1] == DayMerge(c.date.s, Render(c.dayId))
      && qs[n + 2] == MonthLink("year_" + Render(c.year), Render(c.dayId), MonthNumber(c.date.s))
  {
    var qs := Compile(doc).queries;
    var ss := SessionSection(doc.session);
    var cq := ChronologySection(doc.chronology).queries;
    var nq := NodesSection(doc.nodes, doc.chronology);
    var xq := NextSection(doc.chronology);
    var lq := LastEventSection(doc).queries;
    assert qs == ss + cq + nq + xq + lq;
    var c := doc.chronology.value;
    assert cq == [YearMerge(Render(c.year)), DayMerge(c.date.s, Render(c.dayId)),
                  MonthLink("year_" + Render(c.year), Render(c.dayId), MonthNumber(c.date.s))];
    var n := |ss|;
    assert qs[n] == cq[0] && qs[n + 1] == cq[1] && qs[n + 2] == cq[2];
  }

  lemma SessionSectionEndsInBracket(session: Option<Dict>)
    ensures AllEndInBracket(SessionSection(session))
  {
    if session.Some? {
      MergesEndInBracket(Render(Get(session.value, "id")), PropList(WithoutKey(session.value, "id")), "");
    }
  }

  lemma ChronologySectionEndsInBracket(chron: Option<Chronology>)
    requires ChronologySection(chron).Compiled?
    ensures AllEndInBracket(ChronologySection(chron).queries)
  {
    if chron.Some? && Dated(chron.value) {
      var c := chron.value;
      MergesEndInBracket(Render(c.year), Render(c.dayId), MonthNumber(c.date.s));
      MergesEndInBracket(c.date.s, Render(c.dayId), "");
      MergesEndInBracket("year_" + Render(c.year), Render(c.dayId), MonthNumber(c.date.s));
    }
  }

  /** Everything before the LAST_EVENT pair closes with a bracket. */
  lemma SectionsEndInBracket(doc: Document)
    requires ChronologySection(doc.chronology).Compiled?
    ensures AllEndInBracket(SessionSection(doc.session) + ChronologySection(doc.chronology).queries
                            + NodesSection(doc.nodes, doc.chronology) + NextSection(doc.chronology))
  {
    var ss := SessionSection(doc.session);
    var cq := ChronologySection(doc.chronology).queries;
    var nq := NodesSection(doc.nodes, doc.chronology);
    var xq := NextSection(doc.chronology);
    SessionSectionEndsInBracket(doc.session);
    ChronologySectionEndsInBracket(doc.chronology);
    AllEndInBracketAppend(ss, cq);
    NodesSectionEndsInBracket(doc.nodes, doc.chronology);
    AllEndInBracketAppend(ss + cq, nq);
    if doc.chronology.Some? {
      NextQueriesEndInBracket(doc.chronology.value.nextLinks);
    }
    AllEndInBracketAppend(ss + cq + nq, xq);
  }

  /** The bridge deletes a LAST_EVENT pointer only when it then sets the new
      one: a statement ending in ` DELETE rel` is compiled exactly when the
      document asks for LAST_EVENT, it is the second to last statement, and
      the last one merges the new pointer. */
  lemma CompileLastEvent(doc: Document)
    requires Compile(doc).Compiled?
    ensures var qs := Compile(doc).queries;
      (exists k :: 0 <= k < |qs| && EndsWith(qs[k], " DELETE rel")) <==> PointsLast(doc)
    ensures var qs := Compile(doc).queries;
      forall k :: 0 <= k < |qs| && EndsWith(qs[k], " DELETE rel") ==> k == |qs| - 2
    ensures PointsLast(doc) ==> var qs := Compile(doc).queries;
      && |qs| >= 2
      && qs[|qs| - 2] == LastEventDelete(Render(Get(doc.session.value, "id")))
      && qs[|qs| - 1] == LastEventMerge(Render(Get(doc.session.value, "id")),
                                        Render(doc.chronology.value.lastEventId))
  {
    var qs := Compile(doc).queries;
    var head := SessionSection(doc.session) + ChronologySection(doc.chronology).queries
      + NodesSection(doc.nodes, doc.chronology) + NextSection(doc.chronology);
    var lq := LastEventSection(doc).queries;
    assert qs == head + lq;
    SectionsEndInBracket(doc);
    forall k | 0 <= k < |head| ensures !EndsWith(qs[k], " DELETE rel") {
      assert qs[k] == head[k];
      BracketIsNotDelete(head[k]);
    }
    if PointsLast(doc) {
      var sid := Find(doc.session.value, "id").value;
      DeleteBeforeMerge(Render(sid), Render(doc.chronology.value.lastEventId));
      assert qs[|head|] == lq[0] && qs[|head| + 1] == lq[1];
    } else {
      assert qs == head;
    }
  }

  /** One pass of the `for node in nodes` loop. */
  method CompileNode(node: NodeEntry, chron: Option<Chronology>) returns (queries: seq<string>)
    ensures queries == NodeStatements(node, chron)
  {
    queries := [];
    var nId := Get(node.data, "id");
    if Truthy(node.nodeType) && Truthy(nId) {
      var nodeId := Render(nId);
      var props := PropList(WithoutKey(node.data, "id"));
      queries := [NodeMerge(Render(node.nodeType), nodeId, props)];
      ghost var day: Option<(string, string)> := None;
      if chron.Some? && Truthy(chron.value.time) {
        queries := queries + [HappenedAt(nodeId, Render(chron.value.dayId), Render(chron.value.time))];
        day := Some((Render(chron.value.dayId), Render(chron.value.time)));
      }
      assert day == NodeDay(chron);
      var relationQueries := CompileRelations(nodeId, node.relations);
      queries := queries + relationQueries;
      assert queries == NodeBlock(Render(node.nodeType), nodeId, props, day, node.relations);
    }
  }

  /** The `for node in nodes` loop. */
  method CompileNodes(nodes: seq<NodeEntry>, chron: Option<Chronology>) returns (queries: seq<string>)
    ensures queries == NodesSection(nodes, chron)
  {
    queries := [];
    var i := 0;
    while i < |nodes|
      invariant 0 <= i <= |nodes|
      invariant queries == NodesSection(nodes[..i], chron)
    {
      NodesSectionSnoc(nodes[..i], chron, nodes[i]);
      assert nodes[..i + 1] == nodes[..i] + [nodes[i]];
      var nodeQueries := CompileNode(nodes[i], chron);
      queries := queries + nodeQueries;
      i := i + 1;
    }
    assert nodes[..i] == nodes;
  }

  /** The `for link in next_links` loop. */
  method CompileNextLinks(links: seq<NextLink>) returns (queries: seq<string>)
    ensures queries == NextQueries(links)
  {
    queries := [];
    var j := 0;
    while j < |links|
      invariant 0 <= j <= |links|
      invariant queries == NextQueries(links[..j])
    {
      var link := links[j];
      assert links[..j + 1][..j] == links[..j];
      if Truthy(link.sourceId) && Truthy(link.targetId) {
        queries := queries + [EdgePlain(Render(link.sourceId), Render(link.targetId), "NEXT")];
      }
      j := j + 1;
    }
    assert links[..j] == links;
  }

  /** Section 2 of `main`. */
  method CompileChronology(chron: Option<Chronology>) returns (c: Compiled)
    ensures c == ChronologySection(chron)
  {
    c := Compiled([]);
    if chron.Some? {
      var ch := chron.value;
      if Truthy(ch.dayId) && Truthy(ch.date) && Truthy(ch.year) {
        var y := Render(ch.year);
        if !ch.date.Text? {
          return Crash(NoSplit(ch.date));
        }
        var fields := Split(ch.date.s, '-');
        SplitHasSecondField(ch.date.s, '-');
        if |fields| < 2 {
          return Crash(IndexOutOfRange);
        }
        c := Compiled([YearMerge(y), DayMerge(ch.date.s, Render(ch.dayId)),
                       MonthLink("year_" + y, Render(ch.dayId), fields[1])]);
      }
    }
  }

  /** The compilation in `main`, section by section, stopping at the first
      exception. */
  method CompileDocument(doc: Document) returns (c: Compiled)
    ensures c == Compile(doc)
  {
    var queries: seq<string> := [];
    if doc.session.Some? {
      var s := doc.session.value;
      queries := queries + [SessionMerge(Render(Get(s, "id")), PropList(WithoutKey(s, "id")))];
    }
    assert queries == SessionSection(doc.session);
    var chronology := CompileChronology(doc.chronology);
    if chronology.Crash? {
      return chronology;
    }
    queries := queries + chronology.queries;
    var nodeQueries := CompileNodes(doc.nodes, doc.chronology);
    queries := queries + nodeQueries;
    if doc.chronology.Some? {
      var nextQueries := CompileNextLinks(doc.chronology.value.nextLinks);
      queries := queries + nextQueries;
    }
    assert queries == SessionSection(doc.session) + chronology.queries
      + NodesSection(doc.nodes, doc.chronology) + NextSection(doc.chronology);
    if doc.chronology.Some? && Truthy(doc.chronology.value.lastEventId) && doc.session.Some? {
      var sid := Find(doc.session.value, "id");
      if sid.None? {
        return Crash(MissingSessionId);
      }
      var lastId := Render(doc.chronology.value.lastEventId);
      queries := queries + [LastEventDelete(Render(sid.value)), LastEventMerge(Render(sid.value), lastId)];
    }
    c := Compiled(queries);
  }

  // ----- the program ---------------------------------------------------------

  /** What reading standard input gave. */
  datatype ReadResult = Read(text: string) | ReadFailed(message: string)

  /** What `json.loads` gave: a document, a `JSONDecodeError`, or some other
      exception (which reaches the generic handler of the reading step). */
  datatype ParseResult = Parsed(doc: Document) | InvalidJson(message: string) | ParseFailed(message: string)

  /** What opening the FalkorDB connection and selecting the graph gave. */
  datatype Connection = Connected(store: Store) | ConnectFailed(message: string)

  /** How the program ends: an error object printed with exit status 1, an
      uncaught exception (exit status 1, nothing printed on standard
      output), or the results printed with exit status 0. */
  datatype BridgeExit =
    | Rejected(message: string)
    | Crashed(reason: string)
    | Reported(results: seq<StatementOutcome>)

  function ExitStatus(e: BridgeExit): (code: int)
    ensures code == 0 <==> e.Reported?
  {
    if e.Reported? then 0 else 1
  }

  /** `main`: read, drop the mark, refuse blank input, decode, connect,
      compile, then send every statement. The connection is opened only after
      the input was accepted, and nothing is sent unless compilation
      succeeded. */
  method RunBridge(input: ReadResult, parse: string -> ParseResult, connection: Connection)
    returns (exit: BridgeExit)
    ensures input.ReadFailed? ==> exit == Rejected("Error reading input: " + input.message)
    ensures input.Read? && Blank(StripBom(input.text)) ==> exit == Rejected(NoInput)
    ensures input.Read? && !Blank(StripBom(input.text)) && parse(StripBom(input.text)).InvalidJson? ==>
      exit == Rejected("Invalid JSON: " + parse(StripBom(input.text)).message)
    ensures input.Read? && !Blank(StripBom(input.text)) && parse(StripBom(input.text)).ParseFailed? ==>
      exit == Rejected("Error reading input: " + parse(StripBom(input.text)).message)
    ensures input.Read? && !Blank(StripBom(input.text)) && parse(StripBom(input.text)).Parsed? ==>
      var doc := parse(StripBom(input.text)).doc;
      && (connection.ConnectFailed? ==> exit == Rejected("Connection error: " + connection.message))
      && (connection.Connected? && Compile(doc).Crash? ==> exit == Crashed(Compile(doc).reason))
      && (connection.Connected? && Compile(doc).Compiled? ==>
            exit == Reported(Outcomes(connection.store, [], Compile(doc).queries)))
  {
    if input.ReadFailed? {
      return Rejected("Error reading input: " + input.message);
    }
    var text := input.text;
    if |text| > 0 && text[0] == ByteOrderMark {
      text := text[1..];
    }
    if Strip(text) == "" {
      return Rejected(NoInput);
    }
    var parsed := parse(text);
    if parsed.InvalidJson? {
      return Rejected("Invalid JSON: " + parsed.message);
    }
    if parsed.ParseFailed? {
      return Rejected("Error reading input: " + parsed.message);
    }
    if connection.ConnectFailed? {
      return Rejected("Connection error: " + connection.message);
    }
    var compiled := CompileDocument(parsed.doc);
    if compiled.Crash? {
      return Crashed(compiled.reason);
    }
    var results := ExecuteAll(connection.store, compiled.queries);
    exit := Reported(results);
  }
}
