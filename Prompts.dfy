/** Rendering of an agent's system prompt from its configuration. */
module Prompts {
  import opened Results
  import opened Types

  const DEFAULT_SYSTEM_PROMPT: string := "You are a helpful AI assistant."

  const JSON_CLAUSE: string :=
    " Ensure your response is a valid JSON string that can be parsed and does not include any additional text, explanations, or markdown."

  const LANGUAGE_ERROR: string := "Language must be specified for code response type"

  /** The configured prompt, or the default when it is absent or empty. */
  function BasePrompt(cfg: AgentConfig): (r: string)
    ensures cfg.systemPrompt.None? || cfg.systemPrompt == Some("") ==> r == DEFAULT_SYSTEM_PROMPT
    ensures cfg.systemPrompt.Some? && cfg.systemPrompt.value != "" ==> r == cfg.systemPrompt.value
  {
    if cfg.systemPrompt.Some? && cfg.systemPrompt.value != "" then cfg.systemPrompt.value
    else DEFAULT_SYSTEM_PROMPT
  }

  function FormatHeader(kind: ResponseType): string {
    "\n\nIMPORTANT: You must provide your response in " + ResponseTypeName(kind) + " format."
  }

  function CodeClause(language: CodeLanguage): string {
    "\nProvide ONLY executable " + LanguageName(language) + " code with no additional text, explanations, or markdown."
  }

  function InstructionsClause(instructions: string): string {
    "\n\nResponse Instructions: " + instructions
  }

  /** A code response asks for a language that the configuration does not give. */
  predicate MissingLanguage(cfg: AgentConfig) {
    cfg.response.Some? && cfg.response.value.kind == CodeResponse && cfg.response.value.language.None?
  }

  /**
    `generateSystemPrompt`: the base prompt, then (with a response config) the
    format header, a type-specific clause and the response instructions.
  */
  function GenerateSystemPrompt(cfg: AgentConfig): (r: Result<string, string>)
    ensures r.Err? <==> MissingLanguage(cfg)
    ensures r.Err? ==> r.error == LANGUAGE_ERROR
    ensures r.Ok? ==> BasePrompt(cfg) <= r.value
    ensures r.Ok? && cfg.response.None? ==> r.value == BasePrompt(cfg)
  {
    var base := BasePrompt(cfg);
    match cfg.response
    case None => Ok(base)
    case Some(rc) =>
      if rc.kind == CodeResponse && rc.language.None? then Err(LANGUAGE_ERROR)
      else Ok(AppendResponseClauses(base, rc))
  }

  /** The clauses a response config adds to the base prompt, when it can be rendered. */
  function AppendResponseClauses(base: string, rc: ResponseConfig): (r: string)
    requires rc.kind == CodeResponse ==> rc.language.Some?
    ensures base <= r
  {
    var withHeader := base + FormatHeader(rc.kind);
    var typed :=
      match rc.kind
      case JsonResponse => withHeader + JSON_CLAUSE
      case CodeResponse => withHeader + CodeClause(rc.language.value)
      case _ => withHeader;
    assert base <= withHeader <= typed;
    if rc.instructions.Some? && rc.instructions.value != "" then typed + InstructionsClause(rc.instructions.value)
    else typed
  }

  /** The segment a response type contributes after the format header. */
  function TypeClause(rc: ResponseConfig): string {
    match rc.kind
    case JsonResponse => JSON_CLAUSE
    case CodeResponse => if rc.language.Some? then CodeClause(rc.language.value) else ""
    case _ => ""
  }

  /**
    With a response config, the prompt is the base, the format header and the
    type clause (the JSON sentence for json, the language line for code, nothing
    for markdown and plaintext), with the instructions as the last segment when
    there are any.
  */
  lemma PromptLayout(cfg: AgentConfig)
    requires cfg.response.Some? && !MissingLanguage(cfg)
    ensures var rc := cfg.response.value;
      var head := BasePrompt(cfg) + FormatHeader(rc.kind) + TypeClause(rc);
      && (rc.instructions.Some? && rc.instructions.value != "" ==>
            GenerateSystemPrompt(cfg) == Ok(head + InstructionsClause(rc.instructions.value)))
      && (rc.instructions.None? || rc.instructions == Some("") ==> GenerateSystemPrompt(cfg) == Ok(head))
  {
    var rc := cfg.response.value;
    var withHeader := BasePrompt(cfg) + FormatHeader(rc.kind);
    var typed := withHeader + TypeClause(rc);
    match rc.kind
    case JsonResponse =>
      assert typed == withHeader + JSON_CLAUSE;
    case CodeResponse =>
      assert typed == withHeader + CodeClause(rc.language.value);
    case MarkdownResponse =>
      assert typed == withHeader;
    case PlaintextResponse =>
      assert typed == withHeader;
  }

  /** The prompt with a response config starts with the base prompt followed by the format header. */
  lemma PromptHeader(cfg: AgentConfig)
    requires cfg.response.Some? && !MissingLanguage(cfg)
    ensures BasePrompt(cfg) + FormatHeader(cfg.response.value.kind) <= GenerateSystemPrompt(cfg).value
  {
    PromptLayout(cfg);
  }

  /** Markdown and plaintext add nothing beyond the header and the instructions. */
  lemma PlainFormatsAddNoClause(cfg: AgentConfig)
    requires cfg.response.Some? && cfg.response.value.kind in {MarkdownResponse, PlaintextResponse}
    requires cfg.response.value.instructions.None?
    ensures GenerateSystemPrompt(cfg) == Ok(BasePrompt(cfg) + FormatHeader(cfg.response.value.kind))
  {
  }
}
