# laigents core, modelled in Dafny

laigents is a small TypeScript framework for building LLM-backed agents. An
agent is built from an `AgentConfig`. It renders a system prompt, sends
prompts to OpenAI, post-processes the answers according to a response
type, and stores chunked content as embeddings in a Pinecone index. This
project models the parts of it that are logic rather than network glue:

- **Content chunker** (`Chunker`). `jsonToText` flattens a JSON value into
  `prefix key: value` lines. `splitIntoChunks` is the greedy packing of
  sentences into chunks of about 8000 characters (`MAX_CHUNK_SIZE`), with a
  word-level fallback for over-long sentences. Because the size test does
  not count the joining space, a chunk can have 8001 characters, and a
  single word longer than 8000 characters stays whole in a chunk of its own. `chunkContent` attaches `chunkIndex`,
  `totalChunks`, `contentType` and an `originalContent` preview to every
  chunk. `splitIntoChunks` is an imperative method with the source's nested
  loops. It is proved equal to a fold over the sentences (`SplitChunks`),
  and the chunking properties are lemmas about that fold.
- **System prompt** (`Prompts`). `generateSystemPrompt` appends a format
  header, a type clause and the response instructions to a base prompt. It
  fails for a code response without a language.
- **Agent** (`Agents`). This covers:
  - model resolution;
  - the constructor's prompt rendering and logger registration;
  - post-processing of completions (JSON parsing, and stripping a Markdown
    code fence written as an explicit scan);
  - the batching loop of `saveInMemory`, with its ids and vector metadata;
  - the filter merge of `searchMemory`.

  The embedding service and the vector index are objects. Each records the
  batches it receives (`Embedder.calls`, `VectorStore.upserts`), so the
  loop's effects can be stated exactly.
- **Registry** (`Registry`). The `Laigent` class holds the agents by name in
  insertion order (a JavaScript `Map`). It rejects duplicate names and
  answers lookups.
- **Logger colours** (`Logging`). A process-wide context-to-colour table
  (the static `Logger.contextMap`, here an explicit `ColorTable` object that
  every constructor receives). Each logger context gets a colour from a
  six-colour palette: its existing one, its preferred one if free, else the
  first free one, else an arbitrary palette colour. The `Math.random`
  choice is a nondeterministic `:|`.
- **Quicksort** (`Sorting`). The example's last-element-pivot quicksort,
  with its partition loop.

`Strings` gives the JavaScript string primitives the chunker depends on:
the `\s` class, `trim`, `split(/\s+/)`, `join` and integer rendering.
`Words`, the whitespace-separated words of a text, is the reference against
which splitting and packing are stated. `Results` holds `Option` and
`Result`; an `Err(message)` stands for a thrown `Error`.

Linked in as function-typed parameters:

- the markdown reduction (`stripMarkdown`);
- `JSON.parse` (`parse`);
- the chat completion (`complete`);
- the embedding (`embed`);
- the index query (`query`).

`Date.now()` and the ISO timestamp are the parameters `now` and `timestamp`
of `SaveInMemory`.

Behaviour worth knowing, modelled as written:

- The size test in `splitIntoChunks` does not count the joining space. A
  chunk can therefore be 8001 characters long (`Chunker.SplitChunksShape`).
- Whitespace-only text gives one empty chunk (`Chunker.SplitChunksBlank`).
- An over-long first word is preceded by an empty chunk
  (`Chunker.SplitChunksLongWord`).
- The `Agent` constructor builds its `Actions` helper before its own logger.
  `Actions` registers a logger under the agent's name with no preferred
  colour, so by the time `new Logger(name, loggerColor)` runs the name is
  already in the table. `loggerColor` therefore never takes effect.
  `Agents.CreateLoggers` states the colour the agent actually gets.
- The registry constructor stops at the first bad configuration, but the
  loggers created before the failure stay in the colour table.

## Model

| member | source | states |
|---|---|---|
| Chunker.SplitIntoChunks | src/memory/chunker.ts:77-121 | the nested sentence and word loops compute exactly `SplitChunks(text)`, the fold of the sentence step over the sentence split, finished by pushing the trimmed last chunk |
| Chunker.PackLongSentence | src/memory/chunker.ts:92-107 | the word loop packs the words of an over-long sentence greedily after the chunks already finished, exactly as `PackWords` folds the word step |
| Chunker.SplitChunksKeepsWords | src/memory/chunker.ts:82-118 | ignoring whitespace, the words of the chunks, concatenated in order, are exactly the words of the text: no word is lost, split or reordered |
| Chunker.PackSentencesKeepsWords | src/memory/chunker.ts:84-114 | after any prefix of the sentences, the finished chunks and the current chunk hold exactly the words of those sentences |
| Chunker.SentenceStepKeepsWords | src/memory/chunker.ts:85-113 | one sentence iteration appends exactly the sentence's words, whichever branch (flush, word fallback, join) it takes |
| Chunker.PackWordsKeepsWords | src/memory/chunker.ts:96-103 | the word loop appends exactly the words it is given |
| Chunker.WordStepKeepsWords | src/memory/chunker.ts:97-102 | flushing the trimmed word chunk or joining with one space keeps the words in order |
| Chunker.SplitChunksShape | src/memory/chunker.ts:84-118 | every chunk is trimmed, and every chunk is at most `MAX_CHUNK_SIZE + 1` characters long unless it is a single word with no whitespace |
| Chunker.PackSentencesGood | src/memory/chunker.ts:84-114 | the sentence loop keeps its invariant: finished chunks trimmed and bounded, the current chunk within `MAX_CHUNK_SIZE + 1` or free of whitespace |
| Chunker.SentenceStepGood | src/memory/chunker.ts:85-113 | one sentence iteration preserves that invariant |
| Chunker.PackWordsGood | src/memory/chunker.ts:96-103 | the word loop keeps the current word chunk within `MAX_CHUNK_SIZE` or a single word |
| Chunker.SplitChunksEmpty | src/memory/chunker.ts:77-120 | empty text gives no chunk at all |
| Chunker.SplitChunksShort | src/memory/chunker.ts:84-118 | a non-empty text of at most `MAX_CHUNK_SIZE` characters gives exactly one chunk |
| Chunker.SplitChunksBlank | src/memory/chunker.ts:82-118 | whitespace-only text of at most `MAX_CHUNK_SIZE` characters gives the single chunk `""` |
| Chunker.SplitChunksLongWord | src/memory/chunker.ts:92-99 | a single word longer than `MAX_CHUNK_SIZE` gives `["", w]`: the empty word chunk is flushed before it |
| Chunker.SplitSentences | src/memory/chunker.ts:82 | the sentence split has at least one piece, `""` gives `[""]`, the first piece is a prefix of the text, and every piece but the last is non-empty and ends in `.`, `!` or `?` |
| Chunker.SplitSentencesRejoin | src/memory/chunker.ts:82 | the sentences rejoined with non-empty whitespace runs between them give the text back, so the pieces are the text's consecutive substrings with exactly the cut runs dropped |
| Chunker.SentencesAreMaximal | src/memory/chunker.ts:82 | no piece still contains a break (whitespace after a terminator), and no piece after the first starts with whitespace, so every maximal run was cut |
| Chunker.SplitSentencesKeepsWords | src/memory/chunker.ts:82 | splitting into sentences keeps exactly the words of the text |
| Chunker.SentencesLength | src/memory/chunker.ts:82 | the pieces plus one dropped whitespace character per cut fit in the text |
| Chunker.JsonToTextIsLines | src/memory/chunker.ts:63-75 | the flattened text `JsonToText(j, prefix)` is the leaf lines of the value joined by `\n`: primitives give `prefix + value`, array element `i` is under `prefix[i]: `, member `k` under `prefix k: `, in order |
| Chunker.JsonLinesPrefixed | src/memory/chunker.ts:63-75 | every flattened line starts with the prefix, or is the empty line of an empty container |
| Chunker.ParseJson | src/memory/chunker.ts:54-61 | fails exactly when parsing fails, with `Invalid JSON content: ` and the parse error; otherwise gives the leaf lines joined by newlines |
| Chunker.FlattenContent | src/memory/chunker.ts:13-26 | text content is split as given, markdown after the reduction; json content fails exactly when its parse fails, with `Invalid JSON content: ` and the parse error, and otherwise gives exactly the leaf lines of the parsed value joined by `\n` |
| Chunker.ChunkContent | src/memory/chunker.ts:8-43 | `chunkContent` fails exactly for json content that does not parse, with the parse error message |
| Chunker.ChunkContentNumbering | src/memory/chunker.ts:29-42 | the chunk texts are the split of the flattened content; chunk `i` has `chunkIndex = i`, `totalChunks` = the number of chunks, the content type and the preview, and every caller key not overridden |
| Chunker.ChunkContentWords | src/memory/chunker.ts:29-121 | the chunk texts hold exactly the words of the flattened content, and empty flattened content gives no chunk |
| Chunker.ChunkMetadata | src/memory/chunker.ts:35-41 | the caller's keys are kept, and `contentType`, `chunkIndex`, `totalChunks`, `originalContent` are added and override caller keys of those names |
| Chunker.Preview | src/memory/chunker.ts:40 | content of at most 100 characters is kept whole; longer content becomes its first 100 characters and `...` |
| Strings.SplitWordsKeepsWords | src/memory/chunker.ts:93 | `split(/\s+/)` neither loses nor splits a word: the words of its pieces are the words of the sentence |
| Strings.SplitWords | src/memory/chunker.ts:93 | the pieces of `split(/\s+/)` contain no whitespace, and there is at least one |
| Strings.SplitWordsRejoin | src/memory/chunker.ts:93 | the pieces rejoined with non-empty whitespace runs between them give the sentence back: the pieces are its consecutive whitespace-free substrings and only whitespace is dropped |
| Strings.SplitWordsFirst | src/memory/chunker.ts:93 | the first piece is empty exactly when the sentence is empty or starts with whitespace |
| Strings.SplitWordsLast | src/memory/chunker.ts:93 | the last piece is empty exactly when the sentence is empty or ends with whitespace |
| Strings.SplitWordsInner | src/memory/chunker.ts:93 | no piece other than the first and the last is empty, so every whitespace run is cut as a whole |
| Strings.WordsTrim | src/memory/chunker.ts:87 | `trim` keeps the words of a chunk |
| Strings.WordsJoinSpace | src/memory/chunker.ts:101-112 | joining two chunks with one space keeps their words apart and in order |
| Strings.Trim | src/memory/chunker.ts:87 | `trim` gives a substring `s[a..b]` of the string with only whitespace before `a` and after `b`, and with no whitespace at either end of the result |
| Prompts.GenerateSystemPrompt | src/prompts.ts:5-28 | fails exactly for a code response without a language, with the fixed message; otherwise starts with the base prompt, and equals it when there is no response config |
| Prompts.BasePrompt | src/prompts.ts:3-6 | an absent or empty system prompt becomes `You are a helpful AI assistant.`; any other is used as given |
| Prompts.PromptLayout | src/prompts.ts:9-25 | with a response config, the prompt is the base, the format header, the type clause (the JSON sentence, the language line, or nothing for markdown and plaintext), then the instructions as the last segment when present and non-empty |
| Prompts.PromptHeader | src/prompts.ts:10 | with a response config, the prompt starts with the base followed by the `IMPORTANT: You must provide your response in {type} format.` header |
| Prompts.PlainFormatsAddNoClause | src/prompts.ts:12-15 | markdown and plaintext without instructions add only the header |
| Prompts.AppendResponseClauses | src/prompts.ts:10-24 | the appended clauses extend the base prompt |
| Agents.ResolveModel | src/agent.ts:18-41 | the explicit model, else the purpose's model, else `gpt-4o-mini` |
| Agents.ResolveModelLarge | src/agent.ts:18-41 | `gpt-4o` is used exactly when asked for, or for reasoning when no model is given |
| Agents.NewAgent | src/agent.ts:37-51 | construction fails exactly when the prompt does not render, leaving the colour table untouched; otherwise the agent has the name, resolved model, rendered prompt and response config, its colour is its name's entry in the table, and the table is the old one after registering its name, `OpenAI` and `Pinecone` in that order with no preferred colour (`AgentLoggers`) |
| Agents.CreateLoggers | src/agent.ts:45-50 | the table after the agent's loggers is the old one after registering the agent's name, then `OpenAI`, then `Pinecone`, each with no preference, so each new one gets the colour `Chosen(table, None)` of the table at that point; the agent's colour is its name's entry, so the preferred colour plays no part |
| Agents.AgentLoggersEffect | src/agent.ts:45-50 | those registrations add exactly the name, `OpenAI` and `Pinecone` to the keys, change no earlier colour, and give a new name the colour chosen with no preference |
| Agents.CreateAdapterLoggers | src/agent.ts:48-49 | the table is the old one after registering `OpenAI` and then `Pinecone` with no preference: an existing entry is kept, a new one gets the colour `Chosen(table, None)` of the table at that point |
| Agents.StripCodeFence | src/agent.ts:82-86 | a block is found exactly when the response holds two fences at least four characters apart; the result is the trimmed content of the match at the leftmost fence at which the regex matches |
| Agents.FirstBlockIff | src/agent.ts:82-83 | the fence regex matches exactly when two fences at least four characters apart exist |
| Agents.MatchAt | src/agent.ts:82 | the match anchored at a fence is well formed and exists exactly when a later fence lies at least four characters on; its content starts after the `\w*\n` tag line when a closing fence follows that line, and right after the opening fence otherwise |
| Agents.FirstBlock | src/agent.ts:82 | the leftmost match: it is the match anchored at its own fence, it is well formed, and no earlier fence has a match |
| Agents.StripTaggedExample | src/agent.ts:82-85 | a `ts`-tagged block yields its code without the tag line or the surrounding newlines |
| Agents.NoFenceNoStrip | src/agent.ts:83-87 | a response without a backtick is not stripped |
| Agents.PostProcess | src/agent.ts:67-90 | json responses give the parsed value or `Response was not valid JSON: ` and the parse error; code responses lose their fence when they have one; anything else comes back unchanged |
| Agents.Prompt | src/agent.ts:58-95 | a completion failure is passed on; otherwise the reply is the post-processed completion |
| Agents.SaveInMemory | src/agent.ts:97-155 | fails exactly when chunking fails, with no call made; otherwise returns one id per chunk, in chunk order, and embeds and upserts the chunks in consecutive batches of 100 |
| Agents.StoreChunks | src/agent.ts:111-145 | the batch loop returns the ids of the chunks in order, and its embedding calls and upserts are exactly the batches of the texts and of the vectors |
| Agents.SavedIdsDistinct | src/agent.ts:107-119 | the stored ids are `originalId-0`, `originalId-1`, … and pairwise distinct |
| Agents.OriginalId | src/agent.ts:107 | the original id is the agent's name, `-`, and the decimal clock reading |
| Agents.OriginalIdInjective | src/agent.ts:107 | one agent's saves at different clock readings get different original ids |
| Agents.ChunkId | src/agent.ts:118 | a chunk's id starts with `originalId-`; a numeric `chunkIndex` gives `originalId-{index}` in decimal, and a missing one gives `originalId-undefined` |
| Agents.IdsOfNumberedChunks | src/agent.ts:118 | numbered chunks get ids `originalId-i`, all different |
| Agents.BatchesCount | src/agent.ts:112 | there are `ceil(n / 100)` batches, none for no chunks |
| Agents.Batches | src/agent.ts:112-113 | cutting into slices gives no batch exactly for no elements, and every batch holds between 1 and the batch size elements |
| Agents.BatchesFlatten | src/agent.ts:112-113 | the batches, in order, are the chunks again |
| Agents.VectorMetadata | src/agent.ts:124-138 | the metadata holds the built-in keys (text, timestamp, agent, contentType, chunkIndex, totalChunks, originalId) and the caller keys; caller values are stringified and override built-in keys of the same name |
| Agents.CallerText | src/agent.ts:135 | absent and null values become `''`, strings stay, numbers are rendered in decimal, booleans become `true` or `false` |
| Agents.MergeFilter | src/agent.ts:166-169 | the filter is `{agent: name}` plus the caller's keys, and the caller wins on `agent` |
| Agents.SearchMemory | src/agent.ts:157-178 | the result is the metadata of each match, in match order, for the query under the merged filter |
| Registry.Laigent.Create | src/laigent.ts:10-24 | construction fails exactly when some configuration repeats an earlier name or cannot render its prompt, with the first such error; otherwise the registry holds one agent per configuration, built from it, in configuration order, under distinct names. `Laigent` is registered first with preferred colour blue and is the registry's colour; no earlier colour changes; on success the table gains exactly `Laigent`, the agents' names and, when there is an agent, `OpenAI` and `Pinecone`, and each agent logs in its name's colour; on failure it gains those of the configurations before the failing one |
| Registry.Laigent.Add | src/laigent.ts:16-21 | keeps the names distinct; a name already present is rejected with `Duplicate agent name: {name}` and nothing changes; a prompt failure changes nothing; otherwise the agent is built and appended under its name, its loggers register its name, `OpenAI` and `Pinecone` (`AgentLoggers`), no earlier colour changes, and it logs in its name's colour |
| Registry.ConstructOkIff | src/laigent.ts:16-21 | construction succeeds exactly when the names are distinct and every prompt renders |
| Registry.DuplicateRejected | src/laigent.ts:17-19 | when every configuration before the second of two with one name renders its prompt, construction fails with a `Duplicate agent name: ` error, whatever follows |
| Registry.DuplicateFails | src/laigent.ts:16-21 | two configurations with one name always make construction fail |
| Registry.PrefixError | src/laigent.ts:16-21 | construction stops at the first error: an error on a prefix of the configurations is the error of the whole list |
| Registry.Laigent.GetAgent | src/laigent.ts:38-44 | the agent registered under the name, or `Agent "{name}" not found` exactly when it is absent |
| Registry.Find | src/laigent.ts:39 | the lookup finds nothing exactly when the name is not registered, and otherwise an agent registered under the name |
| Registry.FindRegistered | src/laigent.ts:38-44 | with distinct names, looking up the name of entry `i` gives entry `i`'s agent |
| Registry.Laigent.GetAllAgents | src/laigent.ts:46-48 | the agents, in insertion order |
| Registry.Laigent.GetAgentNames | src/laigent.ts:50-52 | the names, in insertion order |
| Logging.ColorTable.Register | src/logger.ts:28-65 | an existing context keeps its colour and the table is unchanged; a new context is added with the chosen colour, and nothing else changes |
| Logging.Logger.constructor | src/logger.ts:28-65 | after construction the context is in the table with the logger's colour, new keys are only the context, and no other context's colour changes |
| Logging.ChosenPreferred | src/logger.ts:39-46 | a preferred colour that no context holds is assigned |
| Logging.ChosenFirstFree | src/logger.ts:48-57 | otherwise the first palette colour that no context holds is assigned |
| Logging.ChosenIsFresh | src/logger.ts:39-57 | while some colour is free, a new context never shares a colour with another context |
| Logging.Chosen | src/logger.ts:39-64 | the colour chosen for a new context is held by no context, the preferred colour is chosen when no context holds it, and there is no choice (the random pick) exactly when all six colours are in use |
| Logging.FirstFree | src/logger.ts:48-52 | the first free colour is not in use, and there is none exactly when every colour is used |
| Logging.ColorTable.ContextColors | src/logger.ts:67-69 | the table's contents, entry for entry |
| Sorting.Quicksort | example/multi-agent/quicksort.ts:1-17 | an input of length at most one is returned unchanged; the result is sorted and a permutation of the input |
| Sorting.Partition | example/multi-agent/quicksort.ts:8-14 | the loop sends the elements below the pivot left and the others right, in order |
| Sorting.SidesSplit | example/multi-agent/quicksort.ts:8-14 | the sides are below and at or above the pivot, hold the elements of the input between them, and their lengths add up to the input's |
| Sorting.SortedUnique | example/multi-agent/quicksort.ts:1-17 | two sorted permutations of the same elements are equal, so the sorted result is determined |
| Sorting.ExampleSorted | example/multi-agent/quicksort.ts:20-22 | any sorted permutation of `[3, 6, 8, 10, 1, 2, 1]` is `[1, 1, 2, 3, 6, 8, 10]` |
| Sorting.SortExample | example/multi-agent/quicksort.ts:20-22 | sorting the example gives `[1, 1, 2, 3, 6, 8, 10]` |

## Left out

- String lengths and slices count code points; JavaScript's `length`, `slice` and `substring` count UTF-16 code units. The two agree for text inside the Basic Multilingual Plane. Outside it, the 8000-character bound, the 100-character preview (`Chunker.Preview`) and the size tests in the sentence and word steps measure code points where the source measures code units.
- Markdown parsing with `marked` and the regex clean-up after it (src/memory/chunker.ts:45-52). This is a foreign library, so it is the `stripMarkdown` parameter.
- `JSON.parse` (src/memory/chunker.ts:56, src/agent.ts:70). This is a built-in parser, so it is the `parse` parameter. It returns a `Json` value or an error message.
- Non-integer JSON numbers and metadata numbers. `JNumber` and `Num` hold integers, because JavaScript's float-to-string rendering is not modelled. Integers are rendered in plain decimal at any size, whereas JavaScript renders a number of magnitude at least 1e21 in exponent form (`1e+21`), and `JSON.parse` loses precision beyond 2^53.
- Object key order. `JObject` members are taken in the order given, which stands for `Object.entries` order. The integer-like-keys-first rule is not modelled.
- The OpenAI and Pinecone adapters (src/adapters/openai.ts, src/adapters/pinecone.ts). They are network calls, so they are the `complete`, `embed` and `query` parameters and the `Embedder`/`VectorStore` logs. A failure partway through the batch loop is not modelled: the model's calls always succeed. `Embedder.embed` is one fixed function, so the model assumes that the same text always gets the same vector, which a remote embedding service does not promise.
- Agents.VectorMetadata: a chunk with no `chunkIndex` or `totalChunks` gets the text `undefined` for it. The source would throw on the `chunkIndex` case and leave out the `totalChunks` key. Neither can happen, because `chunkContent` always sets both.
- `src/actions.ts` file and shell operations and their per-action loggers. They are OS I/O. Only the constructor's logger registration is modelled.
- `Laigent.initialize` and `Agent.initialize` (src/laigent.ts:26-36, src/agent.ts:53-56). These are concurrent network connects.
- Logger output: the chalk colours, timestamps and console methods (src/logger.ts:71-105). This is presentation only.
- `SystemConfig` credentials and index names. They only reach the network adapters.
- The default `limit` of 5 in `searchMemory` is the caller's `limit` argument, passed through to `query`.
- Agent getters (`getName`, `getModel`, `getSystemPrompt`), which are fields of the `Agent` datatype.
- src/index.ts (re-exports), src/utils.ts (path helpers), src/memory/types.ts (types only; they become the datatypes in `Types`), and the example and utility scripts, which are network-driven.
