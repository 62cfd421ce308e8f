/** Model-identifier routing of the LLM provider server: the synchronous
    `run_agent_task` tool and the background runner choose a provider by
    substring tests on the lower-cased identifier. */
module Routing {
  import opened Strings
  import opened Values

  datatype Backend = Gemini | OpenAI

  /** The `if/elif/else` chain: `gemini` is checked first, then `gpt`, `o1`
      and `o3`; anything else selects no provider. */
  function Dispatch(model: string): Option<Backend>
  {
    var m := Lower(model);
    if Contains(m, "gemini") then Some(Gemini)
    else if Contains(m, "gpt") || Contains(m, "o1") || Contains(m, "o3") then Some(OpenAI)
    else None
  }

  /** `needle` occurs somewhere in the lower-cased identifier. */
  ghost predicate Mentions(model: string, needle: string)
  {
    exists i :: OccursAt(Lower(model), needle, i)
  }

  /** What the chain selects, stated by where the marker words occur in the
      lower-cased identifier. */
  lemma DispatchMeaning(model: string)
    ensures Dispatch(model) == Some(Gemini) <==> Mentions(model, "gemini")
    ensures Dispatch(model) == Some(OpenAI) <==>
      !Mentions(model, "gemini")
      && (Mentions(model, "gpt") || Mentions(model, "o1") || Mentions(model, "o3"))
    ensures Dispatch(model) == None <==>
      !Mentions(model, "gemini") && !Mentions(model, "gpt")
      && !Mentions(model, "o1") && !Mentions(model, "o3")
  {
    var m := Lower(model);
    ContainsIsOccurrence(m, "gemini");
    ContainsIsOccurrence(m, "gpt");
    ContainsIsOccurrence(m, "o1");
    ContainsIsOccurrence(m, "o3");
  }

  /** Routing ignores letter case: an identifier and its lower-cased form go
      to the same provider. */
  lemma DispatchIgnoresCase(model: string)
    ensures Dispatch(Lower(model)) == Dispatch(model)
  {
    LowerIdempotent(model);
  }

  /** The reply of the synchronous tool for an identifier no provider accepts. */
  function UnsupportedSync(model: string): string
  {
    "Error: Unsupported model identifier '" + model + "'."
  }

  /** The text the background runner uses in place of a provider reply. */
  function UnsupportedAsync(model: string): string
  {
    "Error: Unsupported model identifier '" + model
      + "'. Must contain 'gemini', 'gpt', 'o1' or 'o3'."
  }

  /** `run_agent_task`: the selected provider's reply, or the error text.
      `call` stands for `call_gemini`/`call_openai` (their reply for this
      prompt and model). For an unsupported identifier the reply does not
      depend on `call`: no provider is consulted. */
  function RunAgentTask(model: string, call: Backend -> string): (r: string)
    ensures Mentions(model, "gemini") ==> r == call(Gemini)
    ensures !Mentions(model, "gemini")
            && (Mentions(model, "gpt") || Mentions(model, "o1") || Mentions(model, "o3")) ==>
      r == call(OpenAI)
    ensures !Mentions(model, "gemini") && !Mentions(model, "gpt")
            && !Mentions(model, "o1") && !Mentions(model, "o3") ==>
      r == UnsupportedSync(model)
  {
    DispatchMeaning(model);
    match Dispatch(model)
    case Some(b) => call(b)
    case None => UnsupportedSync(model)
  }

  /** The text the background runner obtains before appending its report
      suffix. */
  function AgentAnswer(model: string, providerReply: string): string
  {
    if Dispatch(model).Some? then providerReply else UnsupportedAsync(model)
  }

  /** The runner answers with the provider's reply when the lower-cased
      identifier mentions a marker word, and with the unsupported-identifier
      text when it mentions none. */
  lemma AgentAnswerMeaning(model: string, providerReply: string)
    ensures Mentions(model, "gemini") || Mentions(model, "gpt")
            || Mentions(model, "o1") || Mentions(model, "o3") ==>
      AgentAnswer(model, providerReply) == providerReply
    ensures !Mentions(model, "gemini") && !Mentions(model, "gpt")
            && !Mentions(model, "o1") && !Mentions(model, "o3") ==>
      AgentAnswer(model, providerReply) == UnsupportedAsync(model)
  {
    DispatchMeaning(model);
  }

  /** Concrete routes: `gemini` wins over `gpt`, case does not matter, and an
      identifier with none of the marker words is refused. */
  lemma DispatchPrefersGemini()
    ensures Dispatch("Gemini-GPT") == Some(Gemini)
  {
    LowerPointwise("Gemini-GPT");
    assert Lower("Gemini-GPT") == "gemini-gpt";
    assert StartsWith("gemini-gpt", "gemini");
  }

  lemma DispatchUpperCaseGpt()
    ensures Dispatch("GPT-4") == Some(OpenAI)
  {
    LowerPointwise("GPT-4");
    assert Lower("GPT-4") == "gpt-4";
    assert StartsWith("gpt-4", "gpt");
    if Contains("gpt-4", "gemini") {
      ContainsIsShorter("gpt-4", "gemini");
    }
  }

  lemma DispatchRefusesUnknown()
    ensures Dispatch("claude") == None
  {
    var m := "claude";
    assert Lower(m) == m by {
      LowerPointwise(m);
    }
    assert !Contains(m, "gemini") by {
      if Contains(m, "gemini") {
        ContainsFirstChar(m, "gemini");
      }
    }
    assert !Contains(m, "gpt") by {
      if Contains(m, "gpt") {
        ContainsFirstChar(m, "gpt");
      }
    }
    assert !Contains(m, "o1") by {
      if Contains(m, "o1") {
        ContainsFirstChar(m, "o1");
      }
    }
    assert !Contains(m, "o3") by {
      if Contains(m, "o3") {
        ContainsFirstChar(m, "o3");
      }
    }
  }
}
