/** The model call of `get_feedback_from_ai`. The Gemini client is not
    modelled: what it answers to a prompt is a `Result`, and every failure
    (configuration, network, quota, a malformed reply) is an `Err` carrying
    `str(e)`. */
module Provider {
  import opened Wrappers
  import opened Prompt

  /** The text placed in front of the error description on failure. */
  const ErrorPrefix: string := "AI 피드백을 생성하는 동안 오류가 발생했습니다: "

  /** The text `get_feedback_from_ai` returns for the model's answer: the reply
      verbatim, or the error prefix followed by the error's description. */
  function Feedback(reply: Result<string>): (r: string)
    ensures reply.Ok? ==> r == reply.value
    ensures reply.Err? ==> ErrorPrefix <= r && r[|ErrorPrefix|..] == reply.error
  {
    match reply
    case Ok(text) => text
    case Err(description) => ErrorPrefix + description
  }

  /** `get_feedback_from_ai(problem_text, criteria_text)` against a model whose
      answer to each prompt is given by `chat`. */
  function GetFeedback(problem: string, criteria: string, chat: Payload -> Result<string>): (r: string)
    ensures chat(BuildPrompt(problem, criteria)).Ok? ==> r == chat(BuildPrompt(problem, criteria)).value
    ensures chat(BuildPrompt(problem, criteria)).Err? ==>
      ErrorPrefix <= r && r[|ErrorPrefix|..] == chat(BuildPrompt(problem, criteria)).error
  {
    Feedback(chat(BuildPrompt(problem, criteria)))
  }

  /** Different error descriptions give different texts. */
  lemma ErrorDescriptionRecoverable(e1: string, e2: string)
    requires Feedback(Err(e1)) == Feedback(Err(e2))
    ensures e1 == e2
  {
  }

  /** A reply that happens to start with the error prefix reads exactly like a
      failure: the returned text alone does not tell the two apart. */
  lemma FailureIndistinguishable(description: string)
    ensures Feedback(Ok(ErrorPrefix + description)) == Feedback(Err(description))
  {
  }
}
