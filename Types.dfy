/**
  The shared data model: the configuration records, the enumerations, the
  metadata values callers pass in, and the value that `JSON.parse` produces.
*/
module Types {
  import opened Results

  datatype ContentType = TextContent | MarkdownContent | JsonContent

  function ContentTypeName(t: ContentType): string {
    match t
    case TextContent => "text"
    case MarkdownContent => "markdown"
    case JsonContent => "json"
  }

  datatype ModelType = Gpt4o | Gpt4oMini

  function ModelName(m: ModelType): string {
    match m
    case Gpt4o => "gpt-4o"
    case Gpt4oMini => "gpt-4o-mini"
  }

  datatype AgentPurpose = Reasoning | Answering | Coding

  datatype ResponseType = JsonResponse | MarkdownResponse | PlaintextResponse | CodeResponse

  function ResponseTypeName(t: ResponseType): string {
    match t
    case JsonResponse => "json"
    case MarkdownResponse => "markdown"
    case PlaintextResponse => "plaintext"
    case CodeResponse => "code"
  }

  datatype CodeLanguage = TypeScript | JavaScript | Python | Rust | Go | Java | Cpp | Ruby | Php

  function LanguageName(l: CodeLanguage): string {
    match l
    case TypeScript => "typescript"
    case JavaScript => "javascript"
    case Python => "python"
    case Rust => "rust"
    case Go => "go"
    case Java => "java"
    case Cpp => "cpp"
    case Ruby => "ruby"
    case Php => "php"
  }

  /** The logger palette, in the order of the available-colours list. */
  datatype LogColor = Blue | Green | Teal | Yellow | Orange | Purple

  datatype ResponseConfig = ResponseConfig(
    kind: ResponseType,
    instructions: Option<string>,
    maxTokens: Option<int>,
    language: Option<CodeLanguage>)

  datatype AgentConfig = AgentConfig(
    name: string,
    purpose: Option<AgentPurpose>,
    model: Option<ModelType>,
    systemPrompt: Option<string>,
    response: Option<ResponseConfig>,
    loggerColor: Option<LogColor>)

  /** A value of a caller-supplied metadata record (numbers are integers here). */
  datatype Value = Str(s: string) | Num(n: int) | Bool(b: bool) | Null | Undefined

  type Metadata = map<string, Value>

  /** A chunk produced by the chunker, before it is embedded. */
  datatype ContentChunk = ContentChunk(text: string, metadata: Metadata)

  /** A parsed JSON value. Object members are listed in property-enumeration order. */
  datatype Json =
    | JNull
    | JBool(b: bool)
    | JNumber(n: int)
    | JString(s: string)
    | JArray(items: seq<Json>)
    | JObject(members: seq<Member>)

  datatype Member = Member(key: string, value: Json)
}
