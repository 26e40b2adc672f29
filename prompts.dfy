/**
 * Prompts as data. The wording of each prompt is not modelled; what is kept is
 * which prompt is sent and which pieces of state it embeds. Persona styles and
 * mode instructions are the two lookup tables with a default.
 */
module Prompts {

  /** The entries of PERSONA_MAP. */
  datatype Persona = Supervisor | Helper | Creative

  /** `PERSONA_MAP.get(persona, PERSONA_MAP["Helper"])`. */
  function PersonaStyle(persona: string): Persona
  {
    if persona == "Supervisor" then Supervisor
    else if persona == "Creative" then Creative
    else Helper
  }

  /** The sampling temperature of each persona. */
  function Temperature(p: Persona): real
  {
    match p
    case Supervisor => 0.1
    case Helper => 0.2
    case Creative => 0.7
  }

  /** The entries of MODE_INSTR. */
  datatype ModeInstruction = QuestionHelper | ProposalRefinement

  /** `MODE_INSTR.get(mode, MODE_INSTR["Research question helper"])`. */
  function ModeInstructionFor(mode: string): ModeInstruction
  {
    if mode == "Proposal refinement assistant" then ProposalRefinement else QuestionHelper
  }

  /** The three fixed instructional frames of the methods coach. */
  datatype Focus = CritiqueFocus | ProposeFocus | RefineFocus

  datatype Prompt =
    | RouterPrompt(mode: string, persona: string, summary: string, recentQas: string, question: string)
    | PaperAnswerPrompt(mode: string, persona: string, style: Persona, summary: string, recentQas: string,
                        titles: string, summaries: string, question: string)
    | MethodsClassifyPrompt(question: string)
    | MethodsCoachPrompt(mode: string, instruction: ModeInstruction, persona: string, style: Persona,
                         summary: string, recentQas: string, guides: string, question: string, focus: Focus)
    | GapPrompt(summaries: string, guides: string, question: string)
    | GapQuestionsPrompt(gaps: string, guides: string, question: string)
    | MemoryPrompt(existing: string, turns: string)
    | PaperSummaryPrompt(title: string, fullText: string)
    | ProposalPrompt(mode: string, persona: string, style: Persona, summary: string, recentQas: string, question: string)
}
