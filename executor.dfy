/** Running a compiled statement list against the graph store, one
    statement at a time, in order, recording one outcome per statement and
    never stopping at a failure.

    The store is an oracle. Because the store has state, its reply to a
    statement may depend on everything sent before it in the same request:
    `store(sent, q)` is the reply to `q` after the statements `sent` were
    sent, starting from whatever the graph held when the request began. */
module Executor {

  /** What `graph.query(q)` does: return rows, or raise with a message. */
  datatype Reply = Rows(rows: seq<seq<string>>) | Error(message: string)

  type Store = (seq<string>, string) -> Reply

  /** One entry of the `results` list: `{"query": q, "status": "success"}`
      or `{"query": q, "status": "error", "message": str(e)}`. */
  datatype StatementOutcome =
    | Succeeded(query: string)
    | Failed(query: string, message: string)

  function Record(q: string, reply: Reply): StatementOutcome
  {
    match reply
    case Rows(_) => Succeeded(q)
    case Error(m) => Failed(q, m)
  }

  /** The outcomes of sending `queries` after `sent`: every statement is
      sent, whatever happened to the ones before it. */
  function Outcomes(store: Store, sent: seq<string>, queries: seq<string>): seq<StatementOutcome>
    decreases |queries|
  {
    if |queries| == 0 then []
    else [Record(queries[0], store(sent, queries[0]))] + Outcomes(store, sent + [queries[0]], queries[1..])
  }

  /** Outcome `i` belongs to statement `i` and is decided by the store's reply
      to it after exactly the statements before it: success iff the store
      returned rows, otherwise an error carrying the store's message. */
  lemma {:induction false} OutcomeAt(store: Store, sent: seq<string>, queries: seq<string>, i: nat)
    requires i < |queries|
    ensures |Outcomes(store, sent, queries)| == |queries|
    ensures Outcomes(store, sent, queries)[i] == Record(queries[i], store(sent + queries[..i], queries[i]))
    decreases |queries|
  {
    if i == 0 {
      OutcomesLength(store, sent, queries);
      assert sent + queries[..0] == sent;
    } else {
      OutcomeAt(store, sent + [queries[0]], queries[1..], i - 1);
      assert queries[1..][..i - 1] == queries[1..i];
      assert sent + [queries[0]] + queries[1..i] == sent + queries[..i];
    }
  }

  lemma {:induction false} OutcomesLength(store: Store, sent: seq<string>, queries: seq<string>)
    ensures |Outcomes(store, sent, queries)| == |queries|
    decreases |queries|
  {
    if |queries| > 0 {
      OutcomesLength(store, sent + [queries[0]], queries[1..]);
    }
  }

  /** Running a list in two parts is running the first part and then the
      second after it. */
  lemma {:induction false} OutcomesAppend(store: Store, sent: seq<string>, a: seq<string>, b: seq<string>)
    ensures Outcomes(store, sent, a + b) == Outcomes(store, sent, a) + Outcomes(store, sent + a, b)
    decreases |a|
  {
    if |a| == 0 {
      assert a + b == b;
      assert sent + a == sent;
    } else {
      assert (a + b)[0] == a[0];
      assert (a + b)[1..] == a[1..] + b;
      OutcomesAppend(store, sent + [a[0]], a[1..], b);
      assert sent + [a[0]] + a[1..] == sent + a;
    }
  }

  /** The `for q in queries` loop with its `try`/`except`. */
  method ExecuteAll(store: Store, queries: seq<string>) returns (results: seq<StatementOutcome>)
    ensures results == Outcomes(store, [], queries)
    ensures |results| == |queries|
    ensures forall i :: 0 <= i < |queries| ==>
      results[i].query == queries[i]
      && (results[i].Succeeded? <==> store(queries[..i], queries[i]).Rows?)
      && (results[i].Failed? ==> store(queries[..i], queries[i]) == Error(results[i].message))
  {
    results := [];
    var i := 0;
    while i < |queries|
      invariant 0 <= i <= |queries|
      invariant results == Outcomes(store, [], queries[..i])
    {
      var q := queries[i];
      var outcome := match store(queries[..i], q)
        case Rows(_) => Succeeded(q)
        case Error(m) => Failed(q, m);
      OutcomesAppend(store, [], queries[..i], [q]);
      assert [] + queries[..i] == queries[..i];
      assert Outcomes(store, queries[..i], [q]) == [outcome];
      assert queries[..i + 1] == queries[..i] + [q];
      results := results + [outcome];
      i := i + 1;
    }
    assert queries[..i] == queries;
    OutcomesLength(store, [], queries);
    forall k | 0 <= k < |queries|
      ensures results[k] == Record(queries[k], store(queries[..k], queries[k]))
    {
      OutcomeAt(store, [], queries, k);
      assert [] + queries[..k] == queries[..k];
    }
  }
}
