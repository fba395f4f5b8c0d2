/** The prompt-building part of `get_feedback_from_ai`. The Korean literals are
    kept verbatim, including the indentation the triple-quoted f-strings carry. */
module Prompt {

  /** The two strings sent to the model: the system framing, sent as the first
      turn of the chat, and the user instruction. */
  datatype Payload = Payload(system: string, user: string)

  /** `system_prompt`: a constant, never built from request data. */
  const SystemPrompt: string :=
    "수학교육자 Anna Sfard의 관점에서 학생들의 수학 문제 풀이에 대해 분석하고 상세한 피드백을 제공합니다. 성취기준, 수학적 대상, 루틴, 내러티브를 바탕으로 학생의 답안을 분석하고, 잘한 점과 개선이 필요한 부분을 구체적으로 설명하며, 학생이 더 나은 문제 해결 능력을 기를 수 있도록 도와주세요."

  /** The text of the first f-string before and after `{problem_text}`. */
  const AnswerLead: string := "\n        학생이 작성한 수학 문제 답안에 대해 피드백을 제공해주세요. \n        \n        답안:\n        "
  const AnswerTrail: string := "\n        "

  /** The text of the second f-string before and after `{criteria_text}`. */
  const CriteriaLead: string := "\n            피드백 고려사항:\n            "
  const CriteriaTrail: string := "\n            "

  function AnswerBlock(problem: string): string
  {
    AnswerLead + problem + AnswerTrail
  }

  function CriteriaBlock(criteria: string): string
  {
    CriteriaLead + criteria + CriteriaTrail
  }

  /** `user_prompt` and `system_prompt` for a problem text and a criteria text:
      the answer block always, then the criteria block only when the criteria
      text is non-empty (`if criteria_text:`). */
  function BuildPrompt(problem: string, criteria: string): (p: Payload)
    ensures p.system == SystemPrompt
    ensures AnswerBlock(problem) <= p.user
    ensures p.user[|AnswerLead|..|AnswerLead| + |problem|] == problem
    ensures criteria == "" <==> |p.user| == |AnswerBlock(problem)|
    ensures criteria != "" ==> |p.user| == |AnswerBlock(problem)| + |CriteriaLead| + |criteria| + |CriteriaTrail|
    ensures criteria != "" ==>
      p.user[|AnswerBlock(problem)| + |CriteriaLead|..|AnswerBlock(problem)| + |CriteriaLead| + |criteria|] == criteria
  {
    var user := AnswerBlock(problem);
    Payload(SystemPrompt, if criteria != "" then user + CriteriaBlock(criteria) else user)
  }

  /** Going from no criteria to some criteria leaves the system framing and the
      answer block as they were and adds exactly one criteria block after them. */
  lemma CriteriaAddsOneBlock(problem: string, criteria: string)
    requires criteria != ""
    ensures BuildPrompt(problem, criteria).system == BuildPrompt(problem, "").system
    ensures BuildPrompt(problem, criteria).user == BuildPrompt(problem, "").user + CriteriaBlock(criteria)
    ensures BuildPrompt(problem, "").user == AnswerBlock(problem)
  {
  }

  /** For fixed criteria the prompt determines the problem text. */
  lemma ProblemDeterminedByPrompt(p1: string, p2: string, criteria: string)
    requires BuildPrompt(p1, criteria) == BuildPrompt(p2, criteria)
    ensures p1 == p2
  {
  }

  /** For a fixed problem text the prompt determines the criteria text. */
  lemma CriteriaDeterminedByPrompt(problem: string, c1: string, c2: string)
    requires BuildPrompt(problem, c1) == BuildPrompt(problem, c2)
    ensures c1 == c2
  {
  }
}
