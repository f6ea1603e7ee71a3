/**
  An agent without its network collaborators: model resolution, construction
  (system prompt and logger registration), post-processing of completions,
  the batched storage of chunked content, and the memory-search filter.
*/
module Agents {
  import opened Results
  import opened Strings
  import opened Types
  import opened Prompts
  import opened Logging
  import opened Chunker

  /** Maximum number of vectors per upsert. */
  const BATCH_SIZE: nat := 100

  const DEFAULT_MODEL: ModelType := Gpt4oMini

  // ================================================================ construction

  /** `PURPOSE_MODEL_MAP`. */
  function PurposeModel(p: AgentPurpose): ModelType {
    match p
    case Reasoning => Gpt4o
    case Answering => Gpt4oMini
    case Coding => Gpt4oMini
  }

  /** The explicit model, else the purpose's model, else the default. */
  function ResolveModel(cfg: AgentConfig): (m: ModelType)
    ensures cfg.model.Some? ==> m == cfg.model.value
    ensures cfg.model.None? && cfg.purpose.Some? ==> m == PurposeModel(cfg.purpose.value)
    ensures cfg.model.None? && cfg.purpose.None? ==> m == DEFAULT_MODEL
  {
    if cfg.model.Some? then cfg.model.value
    else if cfg.purpose.Some? then PurposeModel(cfg.purpose.value)
    else DEFAULT_MODEL
  }

  /** The larger model is used exactly when asked for, or for reasoning when no model is given. */
  lemma ResolveModelLarge(cfg: AgentConfig)
    ensures ResolveModel(cfg) == Gpt4o <==>
      cfg.model == Some(Gpt4o) || (cfg.model.None? && cfg.purpose == Some(Reasoning))
  {
  }

  /** The fields of a constructed agent that later calls read. */
  datatype Agent = Agent(
    name: string,
    model: ModelType,
    systemPrompt: string,
    response: Option<ResponseConfig>,
    logColor: LogColor)

  /**
    The colour table before and after an agent's loggers are created: its
    name, then `OpenAI`, then `Pinecone`, each registered with no preference.
    The agent's own logger comes last and finds its name already there.
  */
  predicate AgentLoggers(before: map<string, LogColor>, after: map<string, LogColor>, name: string) {
    && name in after && "OpenAI" in after
    && var named := before[name := after[name]];
       var withOpenAI := named["OpenAI" := after["OpenAI"]];
       && Registers(before, named, name, None)
       && Registers(named, withOpenAI, "OpenAI", None)
       && Registers(withOpenAI, after, "Pinecone", None)
  }

  /**
    The `Agent` constructor. The prompt is rendered first (and may fail before
    any logger exists); then the loggers are created in source order: the
    actions logger under the agent's name, the two adapters' loggers, and the
    agent's own logger with its preferred colour.
  */
  method NewAgent(cfg: AgentConfig, colors: ColorTable) returns (r: Result<Agent, string>)
    modifies colors
    ensures r.Err? <==> MissingLanguage(cfg)
    ensures r.Err? ==> r.error == LANGUAGE_ERROR && colors.contexts == old(colors.contexts)
    ensures r.Ok? ==>
      && r.value.name == cfg.name
      && r.value.model == ResolveModel(cfg)
      && Ok(r.value.systemPrompt) == GenerateSystemPrompt(cfg)
      && r.value.response == cfg.response
    ensures r.Ok? ==> colors.contexts.Keys == old(colors.contexts).Keys + {cfg.name, "OpenAI", "Pinecone"}
    ensures r.Ok? ==> forall k :: k in old(colors.contexts) ==> colors.contexts[k] == old(colors.contexts)[k]
    ensures r.Ok? ==> r.value.logColor == colors.contexts[cfg.name]
    ensures r.Ok? && cfg.name !in old(colors.contexts) && Chosen(old(colors.contexts), None).Some? ==>
              r.value.logColor == Chosen(old(colors.contexts), None).value
    ensures r.Ok? ==> AgentLoggers(old(colors.contexts), colors.contexts, cfg.name)
  {
    var model := ResolveModel(cfg);
    var prompt := GenerateSystemPrompt(cfg);
    if prompt.Err? {
      return Err(prompt.error);
    }
    var color := CreateLoggers(colors, cfg.name, cfg.loggerColor);
    r := Ok(Agent(cfg.name, model, prompt.value, cfg.response, color));
  }

  /**
    The loggers an agent's construction creates, in order: the actions logger
    under the agent's name (no preferred colour), the OpenAI and Pinecone
    adapters' loggers, then the agent's logger with `preferred`. Since the
    first already registered the name, `preferred` never takes effect.
  */
  method CreateLoggers(colors: ColorTable, name: string, preferred: Option<LogColor>) returns (color: LogColor)
    modifies colors
    ensures colors.contexts.Keys == old(colors.contexts).Keys + {name, "OpenAI", "Pinecone"}
    ensures forall k :: k in old(colors.contexts) ==> colors.contexts[k] == old(colors.contexts)[k]
    ensures color == colors.contexts[name]
    ensures name !in old(colors.contexts) && Chosen(old(colors.contexts), None).Some? ==>
              color == Chosen(old(colors.contexts), None).value
    ensures AgentLoggers(old(colors.contexts), colors.contexts, name)
  {
    var actionsLogger := new Logger(colors, name, None);
    ghost var first := colors.contexts;
    CreateAdapterLoggers(colors);
    ghost var adapted := colors.contexts;
    var logger := new Logger(colors, name, preferred);
    color := logger.color;
    assert colors.contexts == adapted;
    assert first == old(colors.contexts)[name := colors.contexts[name]];
    AgentLoggersEffect(old(colors.contexts), colors.contexts, name);
  }

  /** What an agent's loggers do to the table: three contexts added, no colour changed, the name's colour chosen. */
  lemma AgentLoggersEffect(before: map<string, LogColor>, after: map<string, LogColor>, name: string)
    requires AgentLoggers(before, after, name)
    ensures after.Keys == before.Keys + {name, "OpenAI", "Pinecone"}
    ensures forall k :: k in before ==> after[k] == before[k]
    ensures name !in before && Chosen(before, None).Some? ==> after[name] == Chosen(before, None).value
  {
    var named := before[name := after[name]];
    var withOpenAI := named["OpenAI" := after["OpenAI"]];
    assert named.Keys == before.Keys + {name};
    assert withOpenAI.Keys == named.Keys + {"OpenAI"};
    assert after.Keys == withOpenAI.Keys + {"Pinecone"};
  }

  /** The loggers of the two adapters the agent constructs, `OpenAI` and then `Pinecone`. */
  method CreateAdapterLoggers(colors: ColorTable)
    modifies colors
    ensures colors.contexts.Keys == old(colors.contexts).Keys + {"OpenAI", "Pinecone"}
    ensures forall k :: k in old(colors.contexts) ==> colors.contexts[k] == old(colors.contexts)[k]
    ensures "OpenAI" in colors.contexts
    ensures var withOpenAI := old(colors.contexts)["OpenAI" := colors.contexts["OpenAI"]];
      && Registers(old(colors.contexts), withOpenAI, "OpenAI", None)
      && Registers(withOpenAI, colors.contexts, "Pinecone", None)
  {
    var openaiLogger := new Logger(colors, "OpenAI", None);
    ghost var withOpenAI := colors.contexts;
    var pineconeLogger := new Logger(colors, "Pinecone", None);
    assert withOpenAI == old(colors.contexts)["OpenAI" := colors.contexts["OpenAI"]];
  }

  // ================================================================ code fences

  predicate IsWordChar(c: char) {
    ('a' <= c <= 'z') || ('A' <= c <= 'Z') || ('0' <= c <= '9') || c == '_'
  }

  predicate FenceAt(s: string, i: int) {
    0 <= i && i + 3 <= |s| && s[i] == '`' && s[i + 1] == '`' && s[i + 2] == '`'
  }

  /** The first fence at or after `from`. */
  function FindFence(s: string, from: nat): (r: Option<nat>)
    ensures r.Some? ==> from <= r.value && FenceAt(s, r.value)
    ensures r.Some? ==> forall k :: from <= k < r.value ==> !FenceAt(s, k)
    ensures r.None? ==> forall k :: from <= k ==> !FenceAt(s, k)
    decreases |s| - from
  {
    if from + 3 > |s| then None
    else if FenceAt(s, from) then Some(from)
    else FindFence(s, from + 1)
  }

  /** The end of the run of word characters starting at `i`. */
  function WordRunEnd(s: string, i: nat): (j: nat)
    requires i <= |s|
    ensures i <= j <= |s|
    ensures forall k :: i <= k < j ==> IsWordChar(s[k])
    ensures j < |s| ==> !IsWordChar(s[j])
    decreases |s| - i
  {
    if i < |s| && IsWordChar(s[i]) then WordRunEnd(s, i + 1) else i
  }

  /** Where the content starts after a `\w+\n` language tag following the fence at `p`, if there is a tag. */
  function TagEnd(s: string, p: nat): (r: Option<nat>)
    requires FenceAt(s, p)
    ensures r.Some? ==> p + 5 <= r.value <= |s| && s[r.value - 1] == '\n'
  {
    var w := WordRunEnd(s, p + 3);
    if w > p + 3 && w < |s| && s[w] == '\n' then Some(w + 1) else None
  }

  /** A block match: the opening fence, the content bounds, and the closing fence at `close`. */
  datatype Block = Block(open: nat, start: nat, close: nat)

  predicate WellFormed(s: string, b: Block) {
    && FenceAt(s, b.open) && FenceAt(s, b.close)
    && b.open + 3 <= b.start < b.close
    && (forall k :: b.start < k < b.close ==> !FenceAt(s, k))
  }

  /**
    The match of the fence regex anchored at `p`: the tagged reading first, the
    content running lazily to the first fence at least one character on; failing
    that, untagged content from just after the fence.
  */
  function MatchAt(s: string, p: nat): (r: Option<Block>)
    requires FenceAt(s, p)
    ensures r.Some? ==> r.value.open == p && WellFormed(s, r.value)
    ensures r.None? <==> forall q :: p + 4 <= q ==> !FenceAt(s, q)
    ensures TagEnd(s, p).Some? && FindFence(s, TagEnd(s, p).value + 1).Some? ==>
              r.Some? && r.value.start == TagEnd(s, p).value
    ensures r.Some? && !(TagEnd(s, p).Some? && FindFence(s, TagEnd(s, p).value + 1).Some?) ==>
              r.value.start == p + 3
  {
    var tag := TagEnd(s, p);
    if tag.Some? && FindFence(s, tag.value + 1).Some? then
      Some(Block(p, tag.value, FindFence(s, tag.value + 1).value))
    else
      var q := FindFence(s, p + 4);
      if q.Some? then Some(Block(p, p + 3, q.value)) else None
  }

  /** The leftmost match at or after `from`. */
  function FirstBlock(s: string, from: nat): (r: Option<Block>)
    ensures r.Some? ==> from <= r.value.open && WellFormed(s, r.value)
    ensures r.Some? ==> forall k :: from <= k < r.value.open ==> !(FenceAt(s, k) && MatchAt(s, k).Some?)
    ensures r.Some? ==> r == MatchAt(s, r.value.open)
    decreases |s| - from
  {
    if from >= |s| then None
    else if FenceAt(s, from) && MatchAt(s, from).Some? then MatchAt(s, from)
    else FirstBlock(s, from + 1)
  }

  /** Two fences whose starts are at least four characters apart. */
  ghost predicate HasFencePair(s: string, from: nat) {
    exists p, q :: from <= p && p + 4 <= q && FenceAt(s, p) && FenceAt(s, q)
  }

  /** With two fences far enough apart at or after `from`, some match is found. */
  lemma {:induction false} FirstBlockFound(s: string, from: nat, p: nat, q: nat)
    requires from <= p && p + 4 <= q && FenceAt(s, p) && FenceAt(s, q)
    ensures FirstBlock(s, from).Some?
    decreases p - from
  {
    if from < p {
      FirstBlockFound(s, from + 1, p, q);
    }
  }

  /** The regex matches exactly when the response holds two fences at least four characters apart. */
  lemma FirstBlockIff(s: string, from: nat)
    ensures FirstBlock(s, from).Some? <==> HasFencePair(s, from)
  {
    var r := FirstBlock(s, from);
    if r.Some? {
      var b := r.value;
      assert FenceAt(s, b.open) && FenceAt(s, b.close) && b.open + 4 <= b.close;
    }
    if HasFencePair(s, from) {
      var p, q :| from <= p && p + 4 <= q && FenceAt(s, p) && FenceAt(s, q);
      FirstBlockFound(s, from, p, q);
    }
  }

  /** The regex matches at the fence `p` and at no earlier position. */
  predicate LeftmostMatch(s: string, p: nat) {
    && FenceAt(s, p) && MatchAt(s, p).Some?
    && forall k :: 0 <= k < p ==> !(FenceAt(s, k) && MatchAt(s, k).Some?)
  }

  /** The trimmed content of the first code block, if the response has one. */
  function StripCodeFence(s: string): (r: Option<string>)
    ensures r.Some? <==> HasFencePair(s, 0)
    ensures r.Some? ==> exists b :: WellFormed(s, b) && r.value == Trim(s[b.start..b.close])
    ensures r.Some? ==> IsTrimmed(r.value)
    ensures r.Some? ==> exists p :: LeftmostMatch(s, p) && r.value == Trim(s[MatchAt(s, p).value.start..MatchAt(s, p).value.close])
  {
    FirstBlockIff(s, 0);
    match FirstBlock(s, 0)
    case Some(b) =>
      assert LeftmostMatch(s, b.open);
      Some(Trim(s[b.start..b.close]))
    case None => None
  }

  const CODE_LINE: string := "const x = 1;\n"

  const TAGGED_EXAMPLE: string := "```ts\n" + CODE_LINE + "```"

  lemma TaggedExampleBlock()
    ensures FirstBlock(TAGGED_EXAMPLE, 0) == Some(Block(0, 6, 19))
  {
    var s := TAGGED_EXAMPLE;
    assert |s| == 22;
    assert FenceAt(s, 0);
    assert WordRunEnd(s, 5) == 5;
    assert WordRunEnd(s, 3) == 5;
    assert TagEnd(s, 0) == Some(6);
    assert FenceAt(s, 19);
    assert forall k :: 7 <= k < 19 ==> s[k] != '`';
    assert FindFence(s, 7) == Some(19);
  }

  lemma TaggedExampleContent()
    ensures TAGGED_EXAMPLE[6..19] == CODE_LINE
  {
  }

  lemma TrimExampleCode()
    ensures Trim(CODE_LINE) == "const x = 1;"
  {
    TrimStartExampleCode();
    TrimEndExampleCode();
  }

  lemma TrimStartExampleCode()
    ensures TrimStart(CODE_LINE) == CODE_LINE
  {
    assert SpaceEnd(CODE_LINE) == 0;
  }

  lemma TrimEndExampleCode()
    ensures TrimEnd(CODE_LINE) == "const x = 1;"
  {
    assert TrimEndIndex(CODE_LINE[..12]) == 12;
    assert TrimEndIndex(CODE_LINE) == 12;
  }

  lemma StripOfBlock(s: string, b: Block)
    requires FirstBlock(s, 0) == Some(b)
    ensures StripCodeFence(s) == Some(Trim(s[b.start..b.close]))
  {
  }

  /** A tagged block yields its code without the tag or the surrounding newlines. */
  lemma StripTaggedExample()
    ensures StripCodeFence(TAGGED_EXAMPLE) == Some("const x = 1;")
  {
    TaggedExampleBlock();
    StripOfBlock(TAGGED_EXAMPLE, Block(0, 6, 19));
    TaggedExampleContent();
    TrimExampleCode();
  }

  /** Without a fence pair, nothing is stripped. */
  lemma NoFenceNoStrip(s: string)
    requires forall k :: 0 <= k < |s| ==> s[k] != '`'
    ensures StripCodeFence(s).None?
  {
    forall k ensures !FenceAt(s, k) {
      if 0 <= k < |s| {
        assert s[k] != '`';
      }
    }
  }

  // ================================================================ prompting

  /** What `prompt` hands back: the text of the completion, or the parsed JSON value. */
  datatype Reply = Text(text: string) | Parsed(json: Json)

  /**
    The post-processing of `prompt`: json responses are parsed (a parse error
    becomes an error), code responses lose their fence when they have one,
    and every other response is returned as it came.
  */
  function PostProcess(response: Option<ResponseConfig>, raw: string,
                       parse: string -> Result<Json, string>): (r: Result<Reply, string>)
    ensures response.Some? && response.value.kind == JsonResponse ==>
      (parse(raw).Ok? ==> r == Ok(Parsed(parse(raw).value)))
      && (parse(raw).Err? ==> r == Err("Response was not valid JSON: " + parse(raw).error))
    ensures response.Some? && response.value.kind == CodeResponse ==>
      (HasFencePair(raw, 0) ==> r == Ok(Text(StripCodeFence(raw).value)))
      && (!HasFencePair(raw, 0) ==> r == Ok(Text(raw)))
    ensures response.None? || response.value.kind in {MarkdownResponse, PlaintextResponse} ==> r == Ok(Text(raw))
  {
    if response.Some? && response.value.kind == JsonResponse then
      match parse(raw)
      case Ok(v) => Ok(Parsed(v))
      case Err(e) => Err("Response was not valid JSON: " + e)
    else if response.Some? && response.value.kind == CodeResponse && StripCodeFence(raw).Some? then
      Ok(Text(StripCodeFence(raw).value))
    else
      Ok(Text(raw))
  }

  /**
    `prompt`: `complete` stands for the chat completion call (system prompt,
    user prompt, model); its failure is passed on unchanged.
  */
  function Prompt(agent: Agent, userPrompt: string,
                  complete: (string, string, ModelType) -> Result<string, string>,
                  parse: string -> Result<Json, string>): (r: Result<Reply, string>)
    ensures complete(agent.systemPrompt, userPrompt, agent.model).Err? ==>
      r == Err(complete(agent.systemPrompt, userPrompt, agent.model).error)
    ensures complete(agent.systemPrompt, userPrompt, agent.model).Ok? ==>
      r == PostProcess(agent.response, complete(agent.systemPrompt, userPrompt, agent.model).value, parse)
  {
    var raw :- complete(agent.systemPrompt, userPrompt, agent.model);
    PostProcess(agent.response, raw, parse)
  }

  // ================================================================ storage

  /** `${value}` in a template literal. */
  function TemplateText(v: Value): string {
    match v
    case Str(s) => s
    case Num(n) => IntToString(n)
    case Bool(b) => if b then "true" else "false"
    case Null => "null"
    case Undefined => "undefined"
  }

  /** `value?.toString() || ''`: absent values and empty strings become `''`. */
  function CallerText(v: Value): (r: string)
    ensures v.Null? || v.Undefined? ==> r == ""
    ensures v.Str? ==> r == v.s
    ensures v.Num? ==> r == IntToString(v.n)
    ensures v.Bool? ==> r == (if v.b then "true" else "false")
  {
    if v.Null? || v.Undefined? then "" else TemplateText(v)
  }

  /** The id shared by all chunks of one call. */
  function OriginalId(name: string, now: int): (r: string)
    ensures |r| > |name| + 1 && r[..|name| + 1] == name + "-" && r[|name| + 1..] == IntToString(now)
  {
    name + "-" + IntToString(now)
  }

  /** Two saves by one agent at different clock readings get different original ids. */
  lemma OriginalIdInjective(name: string, a: int, b: int)
    requires OriginalId(name, a) == OriginalId(name, b)
    ensures a == b
  {
    IntToStringInjective(a, b);
  }

  function Lookup(m: Metadata, key: string): Value {
    if key in m then m[key] else Undefined
  }

  function ChunkId(originalId: string, chunk: ContentChunk): (r: string)
    ensures originalId + "-" <= r
    ensures "chunkIndex" in chunk.metadata && chunk.metadata["chunkIndex"].Num? ==>
              r == originalId + "-" + IntToString(chunk.metadata["chunkIndex"].n)
    ensures "chunkIndex" !in chunk.metadata ==> r == originalId + "-undefined"
  {
    originalId + "-" + TemplateText(Lookup(chunk.metadata, "chunkIndex"))
  }

  function BuiltinKeys(): set<string> {
    {"text", "timestamp", "agent", "contentType", "chunkIndex", "totalChunks", "originalId"}
  }

  /** The metadata of a stored vector: the built-in fields, then the stringified caller fields. */
  function VectorMetadata(name: string, originalId: string, timestamp: string, contentType: ContentType,
                          chunk: ContentChunk, metadata: Metadata): (r: map<string, string>)
    ensures r.Keys == BuiltinKeys() + metadata.Keys
    ensures forall k :: k in metadata ==> r[k] == CallerText(metadata[k])
    ensures "text" !in metadata ==> r["text"] == chunk.text
    ensures "timestamp" !in metadata ==> r["timestamp"] == timestamp
    ensures "agent" !in metadata ==> r["agent"] == name
    ensures "contentType" !in metadata ==> r["contentType"] == ContentTypeName(contentType)
    ensures "originalId" !in metadata ==> r["originalId"] == originalId
    ensures "chunkIndex" !in metadata ==> r["chunkIndex"] == TemplateText(Lookup(chunk.metadata, "chunkIndex"))
    ensures "totalChunks" !in metadata ==> r["totalChunks"] == TemplateText(Lookup(chunk.metadata, "totalChunks"))
  {
    var builtin := map[
      "text" := chunk.text,
      "timestamp" := timestamp,
      "agent" := name,
      "contentType" := ContentTypeName(contentType),
      "chunkIndex" := TemplateText(Lookup(chunk.metadata, "chunkIndex")),
      "totalChunks" := TemplateText(Lookup(chunk.metadata, "totalChunks")),
      "originalId" := originalId];
    assert builtin.Keys == BuiltinKeys();
    var caller := map k | k in metadata :: CallerText(metadata[k]);
    assert caller.Keys == metadata.Keys;
    builtin + caller
  }

  datatype Vector = Vector(id: string, values: seq<real>, metadata: map<string, string>)

  /** The embedding service: a fixed text-to-vector function, and the log of batch calls made. */
  class Embedder {
    const embed: string -> seq<real>
    var calls: seq<seq<string>>

    constructor(embed: string -> seq<real>)
      ensures this.embed == embed && calls == []
    {
      this.embed := embed;
      calls := [];
    }

    /** One batch call: one embedding per text, in order. */
    method GetEmbeddings(texts: seq<string>) returns (r: seq<seq<real>>)
      modifies this
      ensures calls == old(calls) + [texts]
      ensures |r| == |texts| && forall i :: 0 <= i < |texts| ==> r[i] == embed(texts[i])
    {
      calls := calls + [texts];
      r := seq(|texts|, i requires 0 <= i < |texts| => embed(texts[i]));
    }
  }

  /** The vector index: the log of upsert calls made. */
  class VectorStore {
    var upserts: seq<seq<Vector>>

    constructor()
      ensures upserts == []
    {
      upserts := [];
    }

    method Upsert(vectors: seq<Vector>)
      modifies this
      ensures upserts == old(upserts) + [vectors]
    {
      upserts := upserts + [vectors];
    }
  }

  function Min(a: nat, b: nat): nat {
    if a <= b then a else b
  }

  /** `s` cut into consecutive slices of `size`, the last one possibly shorter. */
  function Batches<T>(s: seq<T>, size: nat): (r: seq<seq<T>>)
    requires size > 0
    ensures r == [] <==> s == []
    ensures forall i :: 0 <= i < |r| ==> 1 <= |r[i]| <= size
    decreases |s|
  {
    if s == [] then []
    else if |s| <= size then [s]
    else [s[..size]] + Batches(s[size..], size)
  }

  function FlattenBatches<T>(xss: seq<seq<T>>): seq<T> {
    if xss == [] then [] else xss[0] + FlattenBatches(xss[1..])
  }

  /** There are `ceil(n / BATCH_SIZE)` batches of `BATCH_SIZE`. */
  lemma {:induction false} BatchesCount<T>(s: seq<T>)
    ensures |Batches(s, BATCH_SIZE)| == (|s| + BATCH_SIZE - 1) / BATCH_SIZE
    decreases |s|
  {
    if |s| > BATCH_SIZE {
      BatchesCount(s[BATCH_SIZE..]);
    }
  }

  /** Together, in order, the batches are `s`. */
  lemma {:induction false} BatchesFlatten<T>(s: seq<T>, size: nat)
    requires size > 0
    ensures FlattenBatches(Batches(s, size)) == s
    decreases |s|
  {
    if |s| > size {
      var rest := Batches(s[size..], size);
      BatchesFlatten(s[size..], size);
      assert FlattenBatches([s[..size]] + rest) == s[..size] + FlattenBatches(rest) by {
        assert ([s[..size]] + rest)[1..] == rest;
      }
      assert s[..size] + s[size..] == s;
    } else if s != [] {
      assert FlattenBatches([s]) == s + FlattenBatches([]);
      assert s + [] == s;
    }
  }

  /** Batch structure of a suffix: the first slice, then the batches of the rest. */
  lemma BatchesStep<T>(s: seq<T>, i: nat, size: nat)
    requires size > 0 && i < |s|
    ensures Batches(s[i..], size) == [s[i..Min(i + size, |s|)]] + Batches(s[Min(i + size, |s|)..], size)
  {
    var t := s[i..];
    if |t| <= size {
      assert s[i..Min(i + size, |s|)] == t;
      assert s[Min(i + size, |s|)..] == [];
    } else {
      assert t[..size] == s[i..i + size];
      assert t[size..] == s[i + size..];
    }
  }

  /** The vector stored for a chunk. */
  function ChunkVector(name: string, originalId: string, timestamp: string, contentType: ContentType,
                       metadata: Metadata, embed: string -> seq<real>, chunk: ContentChunk): Vector {
    Vector(ChunkId(originalId, chunk), embed(chunk.text),
           VectorMetadata(name, originalId, timestamp, contentType, chunk, metadata))
  }

  function Ids(originalId: string, chunks: seq<ContentChunk>): seq<string> {
    seq(|chunks|, i requires 0 <= i < |chunks| => ChunkId(originalId, chunks[i]))
  }

  /** The vector of each chunk, in order. */
  function ChunkVectors(name: string, originalId: string, timestamp: string, contentType: ContentType,
                        metadata: Metadata, embed: string -> seq<real>, chunks: seq<ContentChunk>): (r: seq<Vector>)
    ensures |r| == |chunks|
    ensures forall i :: 0 <= i < |chunks| ==>
      r[i] == ChunkVector(name, originalId, timestamp, contentType, metadata, embed, chunks[i])
  {
    MapSeq(c => ChunkVector(name, originalId, timestamp, contentType, metadata, embed, c), chunks)
  }

  /** `f` applied to each element of `xs`. */
  function MapSeq<A, B>(f: A -> B, xs: seq<A>): (r: seq<B>)
    ensures |r| == |xs| && forall i :: 0 <= i < |xs| ==> r[i] == f(xs[i])
  {
    seq(|xs|, i requires 0 <= i < |xs| => f(xs[i]))
  }

  lemma MapSeqSlice<A, B>(f: A -> B, xs: seq<A>, i: nat, end: nat)
    requires i <= end <= |xs|
    ensures MapSeq(f, xs[i..end]) == MapSeq(f, xs)[i..end]
  {
    assert |MapSeq(f, xs[i..end])| == |MapSeq(f, xs)[i..end]|;
    forall k | 0 <= k < end - i ensures MapSeq(f, xs[i..end])[k] == MapSeq(f, xs)[i..end][k] {
      assert xs[i..end][k] == xs[i + k];
    }
  }


  /**
    `saveInMemory`: chunk the content, then embed and upsert the chunks in
    batches of `BATCH_SIZE`, collecting one id per chunk. `now` and `timestamp`
    stand for `Date.now()` and the ISO timestamp taken at the start of the call.
  */
  method SaveInMemory(agent: Agent, content: string, contentType: ContentType, metadata: Metadata,
                      stripMarkdown: string -> string, parse: string -> Result<Json, string>,
                      now: int, timestamp: string, embedder: Embedder, store: VectorStore)
    returns (r: Result<seq<string>, string>)
    modifies embedder, store
    ensures var chunked := ChunkContent(content, contentType, metadata, stripMarkdown, parse);
      && (r.Err? <==> chunked.Err?)
      && (r.Err? ==> r.error == chunked.error && embedder.calls == old(embedder.calls) && store.upserts == old(store.upserts))
      && (r.Ok? ==>
            var chunks := chunked.value;
            var originalId := OriginalId(agent.name, now);
            && r.value == Ids(originalId, chunks)
            && embedder.calls == old(embedder.calls) + Batches(Texts(chunks), BATCH_SIZE)
            && store.upserts == old(store.upserts) +
                 Batches(ChunkVectors(agent.name, originalId, timestamp, contentType, metadata, embedder.embed, chunks), BATCH_SIZE))
  {
    var chunked := ChunkContent(content, contentType, metadata, stripMarkdown, parse);
    if chunked.Err? {
      return Err(chunked.error);
    }
    var ids := StoreChunks(agent.name, OriginalId(agent.name, now), timestamp, contentType, metadata,
                           chunked.value, embedder, store);
    return Ok(ids);
  }

  /** The batching loop of `saveInMemory`: embed and upsert `chunks` in slices of `BATCH_SIZE`. */
  method StoreChunks(name: string, originalId: string, timestamp: string, contentType: ContentType,
                     metadata: Metadata, chunks: seq<ContentChunk>, embedder: Embedder, store: VectorStore)
    returns (ids: seq<string>)
    modifies embedder, store
    ensures ids == Ids(originalId, chunks)
    ensures embedder.calls == old(embedder.calls) + Batches(Texts(chunks), BATCH_SIZE)
    ensures store.upserts == old(store.upserts) +
              Batches(ChunkVectors(name, originalId, timestamp, contentType, metadata, embedder.embed, chunks), BATCH_SIZE)
  {
    ghost var texts := Texts(chunks);
    ghost var vectors := ChunkVectors(name, originalId, timestamp, contentType, metadata, embedder.embed, chunks);
    var n := |chunks|;
    ids := [];
    var i := 0;
    while i < n
      invariant 0 <= i
      invariant ids == Ids(originalId, chunks[..Min(i, n)])
      invariant embedder.calls + Batches(texts[Min(i, n)..], BATCH_SIZE)
             == old(embedder.calls) + Batches(texts, BATCH_SIZE)
      invariant store.upserts + Batches(vectors[Min(i, n)..], BATCH_SIZE)
             == old(store.upserts) + Batches(vectors, BATCH_SIZE)
      decreases n - i
    {
      ghost var callsBefore, upsertsBefore := embedder.calls, store.upserts;
      var end := Min(i + BATCH_SIZE, n);
      var batchChunks := chunks[i..end];
      var batchTexts := Texts(batchChunks);
      var embeddings := embedder.GetEmbeddings(batchTexts);
      var batchVectors := seq(|batchChunks|, j requires 0 <= j < |batchChunks| =>
        Vector(ChunkId(originalId, batchChunks[j]), embeddings[j],
               VectorMetadata(name, originalId, timestamp, contentType, batchChunks[j], metadata)));
      ids := ids + seq(|batchVectors|, j requires 0 <= j < |batchVectors| => batchVectors[j].id);
      store.Upsert(batchVectors);
      assert batchTexts == texts[i..end] by {
        TextsSlice(chunks, i, end);
      }
      assert batchVectors == vectors[i..end] by {
        VectorsSlice(name, originalId, timestamp, contentType, metadata, embedder.embed, chunks, i, end);
        var expected := ChunkVectors(name, originalId, timestamp, contentType, metadata, embedder.embed, batchChunks);
        forall j | 0 <= j < |batchChunks| ensures batchVectors[j] == expected[j] {
          assert embeddings[j] == embedder.embed(batchChunks[j].text);
        }
      }
      assert ids == Ids(originalId, chunks[..end]) by {
        IdsSlice(originalId, chunks, i, end);
      }
      BatchLogStep(callsBefore, texts, i, end, old(embedder.calls) + Batches(texts, BATCH_SIZE));
      BatchLogStep(upsertsBefore, vectors, i, end, old(store.upserts) + Batches(vectors, BATCH_SIZE));
      i := i + BATCH_SIZE;
    }
    assert chunks[..n] == chunks;
  }

  /** Slicing commutes with taking the texts, the vectors and the ids of the chunks. */
  lemma TextsSlice(chunks: seq<ContentChunk>, i: nat, end: nat)
    requires i <= end <= |chunks|
    ensures Texts(chunks[i..end]) == Texts(chunks)[i..end]
  {
    forall k | 0 <= k < end - i ensures Texts(chunks[i..end])[k] == Texts(chunks)[i..end][k] {
      assert chunks[i..end][k] == chunks[i + k];
    }
  }

  lemma VectorsSlice(name: string, originalId: string, timestamp: string, contentType: ContentType,
                     metadata: Metadata, embed: string -> seq<real>, chunks: seq<ContentChunk>, i: nat, end: nat)
    requires i <= end <= |chunks|
    ensures ChunkVectors(name, originalId, timestamp, contentType, metadata, embed, chunks[i..end])
         == ChunkVectors(name, originalId, timestamp, contentType, metadata, embed, chunks)[i..end]
  {
    MapSeqSlice(c => ChunkVector(name, originalId, timestamp, contentType, metadata, embed, c), chunks, i, end);
  }

  lemma IdsSlice(originalId: string, chunks: seq<ContentChunk>, i: nat, end: nat)
    requires i <= end <= |chunks|
    ensures Ids(originalId, chunks[..end]) == Ids(originalId, chunks[..i]) + Ids(originalId, chunks[i..end])
  {
    var whole := Ids(originalId, chunks[..end]);
    var front, back := Ids(originalId, chunks[..i]), Ids(originalId, chunks[i..end]);
    forall k | 0 <= k < end ensures whole[k] == (front + back)[k] {
      if k < i {
        assert chunks[..end][k] == chunks[..i][k];
      } else {
        assert chunks[..end][k] == chunks[i..end][k - i];
      }
    }
  }

  /** One batch of the loop: the log grows by the next slice, and the slices left shrink by it. */
  lemma BatchLogStep<T>(log: seq<seq<T>>, s: seq<T>, i: nat, end: nat, total: seq<seq<T>>)
    requires i < |s| && end == Min(i + BATCH_SIZE, |s|)
    requires log + Batches(s[i..], BATCH_SIZE) == total
    ensures (log + [s[i..end]]) + Batches(s[end..], BATCH_SIZE) == total
  {
    BatchesStep(s, i, BATCH_SIZE);
    assert log + ([s[i..end]] + Batches(s[end..], BATCH_SIZE)) == (log + [s[i..end]]) + Batches(s[end..], BATCH_SIZE);
  }

  /** Ids of numbered chunks: `originalId-i` for chunk `i`, all distinct. */
  lemma IdsOfNumberedChunks(originalId: string, chunks: seq<ContentChunk>)
    requires forall i :: 0 <= i < |chunks| ==> Lookup(chunks[i].metadata, "chunkIndex") == Num(i)
    ensures var ids := Ids(originalId, chunks);
      && |ids| == |chunks|
      && (forall i :: 0 <= i < |ids| ==> ids[i] == originalId + "-" + IntToString(i))
      && (forall i, j :: 0 <= i < j < |ids| ==> ids[i] != ids[j])
  {
    var ids := Ids(originalId, chunks);
    forall i, j | 0 <= i < j < |ids| ensures ids[i] != ids[j] {
      var p := originalId + "-";
      assert ids[i] == p + IntToString(i) && ids[j] == p + IntToString(j);
      if ids[i] == ids[j] {
        assert IntToString(i) == ids[i][|p|..];
        assert IntToString(j) == ids[j][|p|..];
        IntToStringInjective(i, j);
      }
    }
  }

  /** The chunker numbers its chunks, so stored ids are `originalId-0`, `originalId-1`, … and distinct. */
  lemma {:induction false} SavedIdsDistinct(content: string, contentType: ContentType, metadata: Metadata,
                         stripMarkdown: string -> string, parse: string -> Result<Json, string>, originalId: string)
    requires ChunkContent(content, contentType, metadata, stripMarkdown, parse).Ok?
    ensures var chunks := ChunkContent(content, contentType, metadata, stripMarkdown, parse).value;
      var ids := Ids(originalId, chunks);
      && |ids| == |chunks|
      && (forall i :: 0 <= i < |ids| ==> ids[i] == originalId + "-" + IntToString(i))
      && (forall i, j :: 0 <= i < j < |ids| ==> ids[i] != ids[j])
  {
    var chunks := ChunkContent(content, contentType, metadata, stripMarkdown, parse).value;
    assert forall i :: 0 <= i < |chunks| ==> Lookup(chunks[i].metadata, "chunkIndex") == Num(i) by {
      ChunkContentNumbering(content, contentType, metadata, stripMarkdown, parse);
    }
    IdsOfNumberedChunks(originalId, chunks);
  }

  // ================================================================ search

  /** `{agent: name, ...filter}`: the caller's filter wins on `agent`. */
  function MergeFilter(name: string, filter: Metadata): (r: Metadata)
    ensures r.Keys == filter.Keys + {"agent"}
    ensures forall k :: k in filter ==> r[k] == filter[k]
    ensures "agent" !in filter ==> r["agent"] == Str(name)
  {
    map["agent" := Str(name)] + filter
  }

  datatype Match = Match(id: string, score: real, metadata: Option<map<string, string>>)

  /**
    `searchMemory`: `embed` and `query` stand for the embedding and the index
    query calls; the result is the metadata of each match, in match order.
  */
  function SearchMemory(agent: Agent, queryText: string, limit: int, filter: Metadata,
                        embed: string -> seq<real>,
                        query: (seq<real>, int, Metadata) -> seq<Match>): (r: seq<Option<map<string, string>>>)
    ensures var matches := query(embed(queryText), limit, MergeFilter(agent.name, filter));
      |r| == |matches| && forall i :: 0 <= i < |r| ==> r[i] == matches[i].metadata
  {
    var matches := query(embed(queryText), limit, MergeFilter(agent.name, filter));
    seq(|matches|, i requires 0 <= i < |matches| => matches[i].metadata)
  }
}
