/** Cypher text building shared by the graph tools and the batch bridge:
    the property-value escaping function `e_str`, the property-list and
    statement templates, and the compilation of a node's declared relations.

    Identifiers, labels and relation types are interpolated RAW between
    single quotes (or bare, for labels and types); only property values go
    through `EStr`. */
module Cypher {
  import opened Strings
  import opened Values

  /** One character of a Cypher double-quoted literal body. */
  function EscapeChar(c: char): string
  {
    if c == '\\' then "\\\\" else if c == '"' then "\\\"" else [c]
  }

  /** Escaping as one left-to-right pass over the characters. */
  function EscapeEach(s: string): string
    decreases |s|
  {
    if |s| == 0 then "" else EscapeChar(s[0]) + EscapeEach(s[1..])
  }

  /** Escaping as the code writes it: `.replace('\\', '\\\\')` followed by
      `.replace('"', '\\"')`. */
  function Escape(s: string): string
  {
    ReplaceChar(ReplaceChar(s, '\\', "\\\\"), '"', "\\\"")
  }

  /** The two successive replacements are one pass of `EscapeChar`: the
      first never introduces a quote, so the second only sees original
      quotes. */
  lemma {:induction false} EscapeIsOnePass(s: string)
    ensures Escape(s) == EscapeEach(s)
    decreases |s|
  {
    if |s| > 0 {
      var head := if s[0] == '\\' then "\\\\" else [s[0]];
      var tail := ReplaceChar(s[1..], '\\', "\\\\");
      assert ReplaceChar(s, '\\', "\\\\") == head + tail;
      ReplaceCharAppend(head, tail, '"', "\\\"");
      if s[0] == '\\' {
        assert ReplaceChar(head, '"', "\\\"") == "\\\\" by {
          assert head[1..] == "\\";
          assert head[1..][1..] == "";
        }
      } else {
        assert head[1..] == "";
        assert ReplaceChar(head, '"', "\\\"") == EscapeChar(s[0]);
      }
      EscapeIsOnePass(s[1..]);
    }
  }

  /** How the backend reads the body of a double-quoted literal: `\\` and
      `\"` are the escapes; a bare quote would end the literal and any other
      backslash sequence is not one this escaping produces, so both fail. */
  function Unescape(t: string): Option<string>
    decreases |t|
  {
    if |t| == 0 then Some("")
    else if t[0] == '\\' then
      if |t| >= 2 && (t[1] == '\\' || t[1] == '"') then
        match Unescape(t[2..])
        case Some(u) => Some([t[1]] + u)
        case None => None
      else None
    else if t[0] == '"' then None
    else
      match Unescape(t[1..])
      case Some(u) => Some([t[0]] + u)
      case None => None
  }

  /** Unescaping the escaped text gives back the original. */
  lemma {:induction false} UnescapeEscape(s: string)
    ensures Unescape(EscapeEach(s)) == Some(s)
    decreases |s|
  {
    if |s| > 0 {
      var t := EscapeEach(s);
      UnescapeEscape(s[1..]);
      if s[0] == '\\' || s[0] == '"' {
        assert t[2..] == EscapeEach(s[1..]);
      } else {
        assert t == [s[0]] + EscapeEach(s[1..]);
        assert t[0] == s[0] && t[1..] == EscapeEach(s[1..]);
        assert Unescape(t) == Some([s[0]] + s[1..]);
      }
      assert s == [s[0]] + s[1..];
    }
  }

  /** Conversely, every literal body that reads back as `s` is exactly the
      escaping of `s`: the escaping is the only spelling of a value. */
  lemma {:induction false} EscapeUnescape(t: string, s: string)
    requires Unescape(t) == Some(s)
    ensures EscapeEach(s) == t
    decreases |t|
  {
    if |t| > 0 {
      if t[0] == '\\' {
        EscapeUnescape(t[2..], s[1..]);
        assert t == t[..2] + t[2..];
      } else {
        EscapeUnescape(t[1..], s[1..]);
        assert t == [t[0]] + t[1..];
      }
    }
  }

  /** In a literal body that reads back, every double quote is escaped:
      it is preceded by a backslash. */
  lemma {:induction false} QuotesAreEscaped(t: string)
    requires Unescape(t).Some?
    ensures forall i :: 0 <= i < |t| && t[i] == '"' ==> 0 < i && t[i - 1] == '\\'
    decreases |t|
  {
    if |t| > 0 {
      if t[0] == '\\' {
        QuotesAreEscaped(t[2..]);
        forall i | 2 <= i < |t| && t[i] == '"' ensures t[i - 1] == '\\' {
          assert t[i] == t[2..][i - 2];
          if i > 2 { assert t[i - 1] == t[2..][i - 3]; }
        }
      } else {
        QuotesAreEscaped(t[1..]);
        forall i | 1 <= i < |t| && t[i] == '"' ensures t[i - 1] == '\\' {
          assert t[i] == t[1..][i - 1];
          if i > 1 { assert t[i - 1] == t[1..][i - 2]; }
        }
      }
    }
  }

  /** The text a value stands for inside its literal: None as the empty
      string, anything else as `str(value)`. */
  function Shown(v: Scalar): string
  {
    if v.Null? then "" else Render(v)
  }

  /** `e_str(value)`: None becomes the two-character literal `""`; any other
      value becomes `str(value)` escaped and wrapped in double quotes. */
  function EStr(v: Scalar): (r: string)
    ensures v.Null? ==> r == "\"\""
    ensures |r| >= 2 && r[0] == '"' && r[|r| - 1] == '"'
    ensures Unescape(r[1..|r| - 1]) == Some(Shown(v))
    ensures forall i :: 1 <= i < |r| - 1 && r[i] == '"' ==> 1 < i && r[i - 1] == '\\'
  {
    if v.Null? then "\"\""
    else
      var e := Escape(Render(v));
      EscapeIsOnePass(Render(v));
      UnescapeEscape(Render(v));
      var r := "\"" + e + "\"";
      assert r[1..|r| - 1] == e;
      QuotesAreEscaped(e);
      assert forall i :: 1 <= i < |r| - 1 ==> r[i] == e[i - 1];
      r
  }

  /** Two property values compile to the same literal only when they stand
      for the same text. */
  lemma EStrInjective(a: Scalar, b: Scalar)
    requires EStr(a) == EStr(b)
    ensures Shown(a) == Shown(b)
  {
    var r := EStr(a);
    assert Some(Shown(a)) == Unescape(r[1..|r| - 1]) == Some(Shown(b));
  }

  /** The entries of `", ".join([f"{k}: {e_str(v)}" for k, v in d.items()])`:
      one `key: literal` text per dict item, in item order. */
  function PropEntries(d: Dict): (r: seq<string>)
    ensures |r| == |d|
    ensures forall i :: 0 <= i < |d| ==> r[i] == d[i].0 + ": " + EStr(d[i].1)
    decreases |d|
  {
    if |d| == 0 then []
    else
      var r := [d[0].0 + ": " + EStr(d[0].1)] + PropEntries(d[1..]);
      assert forall i :: 1 <= i < |d| ==> d[i] == d[1..][i - 1];
      r
  }

  function PropList(d: Dict): string
  {
    Join(PropEntries(d), ", ")
  }

  // ----- statement templates -------------------------------------------------

  function SessionMerge(sessionId: string, props: string): string
  {
    "MERGE (s:Session {id: '" + sessionId + "'}) SET s += {" + props + "}"
  }

  function YearMerge(year: string): string
  {
    "MERGE (y:Year {value: " + year + ", id: 'year_" + year + "', name: '" + year + "'})"
  }

  function DayMerge(date: string, dayId: string): string
  {
    "MERGE (d:Day {date: '" + date + "', id: '" + dayId + "', name: '" + date + "'})"
  }

  function MonthLink(yearId: string, dayId: string, month: string): string
  {
    "MATCH (y:Year {id: '" + yearId + "'}), (d:Day {id: '" + dayId
      + "'}) MERGE (y)-[:MONTH {number: " + month + "}]->(d)"
  }

  function NodeMerge(nodeLabel: string, nodeId: string, props: string): string
  {
    "MERGE (n:" + nodeLabel + " {id: '" + nodeId + "'}) SET n += {" + props + "}"
  }

  function HappenedAt(nodeId: string, dayId: string, time: string): string
  {
    "MATCH (n {id: '" + nodeId + "'}), (d:Day {id: '" + dayId
      + "'}) MERGE (n)-[:HAPPENED_AT {time: '" + time + "'}]->(d)"
  }

  function EdgeSet(source: string, target: string, relType: string, props: string): string
  {
    "MATCH (s {id: '" + source + "'}), (t {id: '" + target
      + "'}) MERGE (s)-[r:" + relType + "]->(t) SET r += {" + props + "}"
  }

  function EdgePlain(source: string, target: string, relType: string): string
  {
    "MATCH (s {id: '" + source + "'}), (t {id: '" + target
      + "'}) MERGE (s)-[:" + relType + "]->(t)"
  }

  function LastEventDelete(sessionId: string): string
  {
    "MATCH (s:Session {id: '" + sessionId + "'})-[rel:LAST_EVENT]->() DELETE rel"
  }

  function LastEventMerge(sessionId: string, eventId: string): string
  {
    "MATCH (s:Session {id: '" + sessionId + "'}), (last {id: '" + eventId
      + "'}) MERGE (s)-[:LAST_EVENT]->(last)"
  }

  /** A relation merge: the `SET r += {...}` form when the property dict is
      non-empty, the plain form otherwise. */
  function EdgeQuery(source: string, target: string, relType: string, props: Dict): string
  {
    if |props| > 0 then EdgeSet(source, target, relType, PropList(props))
    else EdgePlain(source, target, relType)
  }

  /** The two forms can be told apart by their fixed ending whatever the
      raw identifiers contain: only the plain form ends in `]->(t)`. */
  lemma EdgeFormBySuffix(source: string, target: string, relType: string, props: Dict)
    ensures EndsWith(EdgeQuery(source, target, relType, props), "]->(t)") <==> |props| == 0
  {
    var q := EdgeQuery(source, target, relType, props);
    if |props| > 0 {
      var head := "MATCH (s {id: '" + source + "'}), (t {id: '" + target
        + "'}) MERGE (s)-[r:" + relType + "]->(t) SET r += {" + PropList(props);
      assert q == head + "}";
      assert q[|q| - 1] == '}';
    } else {
      var head := "MATCH (s {id: '" + source + "'}), (t {id: '" + target
        + "'}) MERGE (s)-[:" + relType;
      assert q == head + "]->(t)";
    }
  }

  /** The LAST_EVENT update: remove the old pointer, then merge the new one. */
  function LastEventPair(sessionId: string, eventId: string): (pair: seq<string>)
    ensures |pair| == 2
  {
    [LastEventDelete(sessionId), LastEventMerge(sessionId, eventId)]
  }

  /** Whatever the raw identifiers, the first statement of the pair is the
      `DELETE` and the second is not. */
  lemma DeleteBeforeMerge(sessionId: string, eventId: string)
    ensures EndsWith(LastEventPair(sessionId, eventId)[0], " DELETE rel")
    ensures !EndsWith(LastEventPair(sessionId, eventId)[1], " DELETE rel")
    ensures EndsWith(LastEventPair(sessionId, eventId)[1], "->(last)")
  {
    var d := LastEventDelete(sessionId);
    assert d == ("MATCH (s:Session {id: '" + sessionId + "'})-[rel:LAST_EVENT]->()") + " DELETE rel";
    var m := LastEventMerge(sessionId, eventId);
    var head := "MATCH (s:Session {id: '" + sessionId + "'}), (last {id: '" + eventId
      + "'}) MERGE (s)-[:LAST_EVENT]";
    assert m == head + "->(last)";
    assert m[|m| - 1] == ')';
  }

  // ----- declared relations of a node ----------------------------------------

  /** One entry of a `relations` list: `type`, `target_id` and `props`, each
      read with `.get`. `props` is None when the key is missing, null, or
      holds something other than a dict. */
  datatype Relation = Relation(relType: Scalar, targetId: Scalar, props: Option<Dict>)

  /** A relation is compiled only when both its type and its target are truthy. */
  predicate Linkable(r: Relation)
  {
    Truthy(r.relType) && Truthy(r.targetId)
  }

  /** `r_props and isinstance(r_props, dict)` selects the SET form. */
  function PropsOf(r: Relation): Dict
  {
    if r.props.Some? then r.props.value else []
  }

  function RelationQuery(nodeId: string, r: Relation): string
  {
    EdgeQuery(nodeId, Render(r.targetId), Render(r.relType), PropsOf(r))
  }

  /** What one relation contributes: its merge when linkable, else nothing. */
  function RelationStatements(nodeId: string, r: Relation): seq<string>
  {
    if Linkable(r) then [RelationQuery(nodeId, r)] else []
  }

  /** The statements the `for rel in relations` loop appends, in input order,
      skipping relations that are not linkable. */
  function RelationQueries(nodeId: string, rels: seq<Relation>): seq<string>
  {
    FlatMap((r: Relation) => RelationStatements(nodeId, r), rels)
  }

  function LinkableCount(rels: seq<Relation>): nat
    decreases |rels|
  {
    if |rels| == 0 then 0
    else (if Linkable(rels[0]) then 1 else 0) + LinkableCount(rels[1..])
  }

  lemma {:induction false} LinkableCountSnoc(rels: seq<Relation>, r: Relation)
    ensures LinkableCount(rels + [r]) == LinkableCount(rels) + (if Linkable(r) then 1 else 0)
    decreases |rels|
  {
    if |rels| == 0 {
      assert rels + [r] == [r];
    } else {
      assert (rels + [r])[1..] == rels[1..] + [r];
      LinkableCountSnoc(rels[1..], r);
    }
  }

  /** One statement per linkable relation. */
  lemma {:induction false} RelationQueriesCount(nodeId: string, rels: seq<Relation>)
    ensures |RelationQueries(nodeId, rels)| == LinkableCount(rels)
    decreases |rels|
  {
    if |rels| > 0 {
      var init, last := rels[..|rels| - 1], rels[|rels| - 1];
      assert rels == init + [last];
      RelationQueriesCount(nodeId, init);
      RelationQueriesSnoc(nodeId, init, last);
      LinkableCountSnoc(init, last);
    }
  }

  /** A statement is compiled exactly when some linkable relation of the
      list produces it; invalid relations contribute nothing. */
  lemma RelationQueriesMembers(nodeId: string, rels: seq<Relation>, q: string)
    ensures q in RelationQueries(nodeId, rels) <==>
      exists k :: 0 <= k < |rels| && Linkable(rels[k]) && q == RelationQuery(nodeId, rels[k])
  {
    FlatMapMembers((r: Relation) => RelationStatements(nodeId, r), rels, q);
  }

  /** Appending one relation to the input appends its statement (if any). */
  lemma RelationQueriesSnoc(nodeId: string, rels: seq<Relation>, r: Relation)
    ensures RelationQueries(nodeId, rels + [r])
      == RelationQueries(nodeId, rels) + (if Linkable(r) then [RelationQuery(nodeId, r)] else [])
  {
    assert (rels + [r])[..|rels|] == rels;
  }

  /** The `for rel in relations` loop: skip a relation without a type or a
      target, otherwise append its SET or plain merge. */
  method CompileRelations(nodeId: string, relations: seq<Relation>) returns (queries: seq<string>)
    ensures queries == RelationQueries(nodeId, relations)
  {
    queries := [];
    var i := 0;
    while i < |relations|
      invariant 0 <= i <= |relations|
      invariant queries == RelationQueries(nodeId, relations[..i])
    {
      var rel := relations[i];
      RelationQueriesSnoc(nodeId, relations[..i], rel);
      assert relations[..i + 1] == relations[..i] + [rel];
      if Truthy(rel.relType) && Truthy(rel.targetId) {
        if rel.props.Some? && |rel.props.value| > 0 {
          queries := queries + [EdgeSet(nodeId, Render(rel.targetId), Render(rel.relType), PropList(rel.props.value))];
        } else {
          queries := queries + [EdgePlain(nodeId, Render(rel.targetId), Render(rel.relType))];
        }
      }
      i := i + 1;
    }
    assert relations[..i] == relations;
  }

  /** The shape of the HAPPENED_AT statement: it closes by merging towards
      the `(d:Day {id: …})` node it matched, so it ends in `]->(d)`. This is
      a test of the statement's text only: a relation statement whose raw
      `target_id` happens to be a Day's id also reaches that Day, but it does
      not have this shape. */
  predicate HasDayAnchorShape(q: string)
  {
    EndsWith(q, "]->(d)")
  }

  lemma EdgeQueryNotToDay(source: string, target: string, relType: string, props: Dict)
    ensures !HasDayAnchorShape(EdgeQuery(source, target, relType, props))
  {
    var q := EdgeQuery(source, target, relType, props);
    if |props| > 0 {
      assert q == "MATCH (s {id: '" + source + "'}), (t {id: '" + target
        + "'}) MERGE (s)-[r:" + relType + "]->(t) SET r += {" + PropList(props) + "}";
      assert q[|q| - 1] == '}';
    } else {
      var head := "MATCH (s {id: '" + source + "'}), (t {id: '" + target + "'}) MERGE (s)-[:" + relType + "]->(";
      assert q == head + "t)";
      assert q[|q| - 2] == 't';
    }
  }

  /** No relation statement has the HAPPENED_AT shape, whatever its raw
      identifiers. */
  lemma RelationQueriesNotToDay(nodeId: string, rels: seq<Relation>)
    ensures forall k :: 0 <= k < |RelationQueries(nodeId, rels)| ==> !HasDayAnchorShape(RelationQueries(nodeId, rels)[k])
  {
    forall k | 0 <= k < |RelationQueries(nodeId, rels)|
      ensures !HasDayAnchorShape(RelationQueries(nodeId, rels)[k])
    {
      var q := RelationQueries(nodeId, rels)[k];
      RelationQueriesMembers(nodeId, rels, q);
      var j :| 0 <= j < |rels| && Linkable(rels[j]) && q == RelationQuery(nodeId, rels[j]);
      EdgeQueryNotToDay(nodeId, Render(rels[j].targetId), Render(rels[j].relType), PropsOf(rels[j]));
    }
  }

  // ----- how statements end -------------------------------------------------

  /** Every template except the LAST_EVENT delete closes with a bracket,
      whatever the raw text interpolated into it. */
  predicate EndsInBracket(q: string)
  {
    |q| > 0 && (q[|q| - 1] == ')' || q[|q| - 1] == '}')
  }

  predicate AllEndInBracket(qs: seq<string>)
  {
    forall k :: 0 <= k < |qs| ==> EndsInBracket(qs[k])
  }

  lemma AllEndInBracketAppend(a: seq<string>, b: seq<string>)
    requires AllEndInBracket(a) && AllEndInBracket(b)
    ensures AllEndInBracket(a + b)
  {
    forall k | 0 <= k < |a + b| ensures EndsInBracket((a + b)[k]) {
      if k >= |a| {
        assert (a + b)[k] == b[k - |a|];
      }
    }
  }

  lemma BracketIsNotDelete(q: string)
    requires EndsInBracket(q)
    ensures !EndsWith(q, " DELETE rel")
  {
  }

  lemma MergesEndInBracket(a: string, b: string, c: string)
    ensures EndsInBracket(SessionMerge(a, b)) && EndsInBracket(YearMerge(a))
    ensures EndsInBracket(DayMerge(a, b)) && EndsInBracket(MonthLink(a, b, c))
    ensures EndsInBracket(NodeMerge(a, b, c)) && EndsInBracket(HappenedAt(a, b, c))
    ensures EndsInBracket(EdgePlain(a, b, c)) && EndsInBracket(LastEventMerge(a, b))
  {
    assert SessionMerge(a, b) == ("MERGE (s:Session {id: '" + a + "'}) SET s += {" + b) + "}";
    assert YearMerge(a) == ("MERGE (y:Year {value: " + a + ", id: 'year_" + a + "', name: '" + a + "'") + "})";
    assert DayMerge(a, b) == ("MERGE (d:Day {date: '" + a + "', id: '" + b + "', name: '" + a + "'") + "})";
    assert MonthLink(a, b, c) == ("MATCH (y:Year {id: '" + a + "'}), (d:Day {id: '" + b
      + "'}) MERGE (y)-[:MONTH {number: " + c + "}]->(d") + ")";
    assert NodeMerge(a, b, c) == ("MERGE (n:" + a + " {id: '" + b + "'}) SET n += {" + c) + "}";
    assert HappenedAt(a, b, c) == ("MATCH (n {id: '" + a + "'}), (d:Day {id: '" + b
      + "'}) MERGE (n)-[:HAPPENED_AT {time: '" + c + "'}]->(d") + ")";
    assert EdgePlain(a, b, c) == ("MATCH (s {id: '" + a + "'}), (t {id: '" + b
      + "'}) MERGE (s)-[:" + c + "]->(t") + ")";
    assert LastEventMerge(a, b) == ("MATCH (s:Session {id: '" + a + "'}), (last {id: '" + b
      + "'}) MERGE (s)-[:LAST_EVENT]->(last") + ")";
  }

  lemma EdgeQueryEndsInBracket(source: string, target: string, relType: string, props: Dict)
    ensures EndsInBracket(EdgeQuery(source, target, relType, props))
  {
    if |props| > 0 {
      assert EdgeSet(source, target, relType, PropList(props)) == ("MATCH (s {id: '" + source + "'}), (t {id: '" + target
        + "'}) MERGE (s)-[r:" + relType + "]->(t) SET r += {" + PropList(props)) + "}";
    } else {
      MergesEndInBracket(source, target, relType);
    }
  }

  lemma RelationQueriesEndInBracket(nodeId: string, rels: seq<Relation>)
    ensures AllEndInBracket(RelationQueries(nodeId, rels))
  {
    var rq := RelationQueries(nodeId, rels);
    forall k | 0 <= k < |rq| ensures EndsInBracket(rq[k]) {
      RelationQueriesMembers(nodeId, rels, rq[k]);
      var j :| 0 <= j < |rels| && Linkable(rels[j]) && rq[k] == RelationQuery(nodeId, rels[j]);
      EdgeQueryEndsInBracket(nodeId, Render(rels[j].targetId), Render(rels[j].relType), PropsOf(rels[j]));
    }
  }

  // ----- one node ------------------------------------------------------------

  /** The statements compiled for one node: its merge, then the HAPPENED_AT
      link when `day` names a Day (its id and the time), then its relations. */
  function NodeBlock(nodeLabel: string, nodeId: string, props: string,
                     day: Option<(string, string)>, rels: seq<Relation>): seq<string>
  {
    [NodeMerge(nodeLabel, nodeId, props)]
      + (if day.Some? then [HappenedAt(nodeId, day.value.0, day.value.1)] else [])
      + RelationQueries(nodeId, rels)
  }

  lemma NodeBlockCount(nodeLabel: string, nodeId: string, props: string,
                       day: Option<(string, string)>, rels: seq<Relation>)
    ensures |NodeBlock(nodeLabel, nodeId, props, day, rels)|
      == 1 + (if day.Some? then 1 else 0) + LinkableCount(rels)
  {
    RelationQueriesCount(nodeId, rels);
  }

  lemma NodeBlockEndsInBracket(nodeLabel: string, nodeId: string, props: string,
                               day: Option<(string, string)>, rels: seq<Relation>)
    ensures AllEndInBracket(NodeBlock(nodeLabel, nodeId, props, day, rels))
  {
    var qs := NodeBlock(nodeLabel, nodeId, props, day, rels);
    var head := [NodeMerge(nodeLabel, nodeId, props)]
      + (if day.Some? then [HappenedAt(nodeId, day.value.0, day.value.1)] else []);
    var rq := RelationQueries(nodeId, rels);
    assert qs == head + rq;
    MergesEndInBracket(nodeLabel, nodeId, props);
    if day.Some? {
      MergesEndInBracket(nodeId, day.value.0, day.value.1);
    }
    RelationQueriesEndInBracket(nodeId, rels);
    forall k | 0 <= k < |qs| ensures EndsInBracket(qs[k]) {
      if k >= |head| {
        assert qs[k] == rq[k - |head|];
      }
    }
  }

  /** The block holds a statement of the HAPPENED_AT shape exactly when a
      Day was given, and then it is the second statement, carrying that
      Day's id and the time. */
  lemma NodeBlockDayLink(nodeLabel: string, nodeId: string, props: string,
                         day: Option<(string, string)>, rels: seq<Relation>)
    ensures var qs := NodeBlock(nodeLabel, nodeId, props, day, rels);
      (exists k :: 0 <= k < |qs| && HasDayAnchorShape(qs[k])) <==> day.Some?
    ensures var qs := NodeBlock(nodeLabel, nodeId, props, day, rels);
      day.Some? ==> |qs| >= 2 && qs[1] == HappenedAt(nodeId, day.value.0, day.value.1)
  {
    var qs := NodeBlock(nodeLabel, nodeId, props, day, rels);
    var m := NodeMerge(nodeLabel, nodeId, props);
    var head := [m] + (if day.Some? then [HappenedAt(nodeId, day.value.0, day.value.1)] else []);
    var rq := RelationQueries(nodeId, rels);
    assert qs == head + rq;
    RelationQueriesNotToDay(nodeId, rels);
    assert m == ("MERGE (n:" + nodeLabel + " {id: '" + nodeId + "'}) SET n += {" + props) + "}";
    assert m[|m| - 1] == '}';
    if day.Some? {
      var h := HappenedAt(nodeId, day.value.0, day.value.1);
      assert h == ("MATCH (n {id: '" + nodeId + "'}), (d:Day {id: '" + day.value.0
        + "'}) MERGE (n)-[:HAPPENED_AT {time: '" + day.value.1 + "'}") + "]->(d)";
      assert qs[1] == h && HasDayAnchorShape(qs[1]);
    }
    forall k | 0 <= k < |qs| && HasDayAnchorShape(qs[k]) ensures day.Some? {
      if k == 0 {
        assert qs[k] == m;
      }
    }
  }

  /** Every statement after the merge and the HAPPENED_AT statement is the merge of some
      linkable relation of the block. */
  lemma NodeBlockRelationAt(nodeLabel: string, nodeId: string, props: string,
                            day: Option<(string, string)>, rels: seq<Relation>, k: int)
    requires (if day.Some? then 2 else 1) <= k < |NodeBlock(nodeLabel, nodeId, props, day, rels)|
    ensures exists j ::
      && 0 <= j < |rels| && Linkable(rels[j])
      && NodeBlock(nodeLabel, nodeId, props, day, rels)[k] == RelationQuery(nodeId, rels[j])
  {
    var qs := NodeBlock(nodeLabel, nodeId, props, day, rels);
    var head := [NodeMerge(nodeLabel, nodeId, props)]
      + (if day.Some? then [HappenedAt(nodeId, day.value.0, day.value.1)] else []);
    var rq := RelationQueries(nodeId, rels);
    assert qs == head + rq;
    assert qs[k] == rq[k - |head|];
    RelationQueriesMembers(nodeId, rels, qs[k]);
  }

  /** The outcome of compiling a statement list: the statements, or the
      exception that aborted compilation before anything was executed. */
  datatype Compiled = Compiled(queries: seq<string>) | Crash(reason: string)

  /** `date.split('-')[1]`, where the date has a `-`: the month number both
      the session tool and the bridge interpolate raw. */
  function MonthNumber(date: string): string
    requires '-' in date
  {
    SplitHasSecondField(date, '-');
    Split(date, '-')[1]
  }

  /** The month number is the text right after the date's first `-`, up to
      the second `-` or the end. */
  lemma MonthIsSecondField(date: string)
    requires '-' in date
    ensures var i := |Split(date, '-')[0]|; var m := MonthNumber(date);
      && i + 1 + |m| <= |date|
      && '-' !in date[..i] && date[i] == '-'
      && date[i + 1..i + 1 + |m|] == m && '-' !in m
      && (i + 1 + |m| == |date| || date[i + 1 + |m|] == '-')
  {
    SecondField(date, '-');
    var f := Split(date, '-');
    var i := |f[0]|;
    var n := i + 1 + |f[1]|;
    assert date[..n] == f[0] + "-" + f[1];
    assert date[..i] == date[..n][..i];
    assert date[i + 1..n] == date[..n][i + 1..];
  }

  /** The message of Python's IndexError for `date.split('-')[1]`. */
  const IndexOutOfRange: string := "list index out of range"
}
