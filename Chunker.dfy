/**
  The content chunker: flattening of JSON content to `key: value` lines, the
  greedy sentence/word packing of a text into bounded chunks, and the
  positional metadata attached to each chunk.
*/
module Chunker {
  import opened Results
  import opened Strings
  import opened Types

  /** Chunk size bound, in characters. */
  const MAX_CHUNK_SIZE: nat := 8000

  /** Characters of the original content kept in the `originalContent` preview. */
  const PREVIEW_LENGTH: nat := 100

  // ================================================================ JSON to text

  predicate IsPrimitive(j: Json) {
    !j.JArray? && !j.JObject?
  }

  /** Template-literal rendering of a primitive JSON value. */
  function PrimitiveText(j: Json): string
    requires IsPrimitive(j)
  {
    match j
    case JNull => "null"
    case JBool(b) => if b then "true" else "false"
    case JNumber(n) => IntToString(n)
    case JString(s) => s
  }

  function ItemPrefix(prefix: string, i: nat): string {
    prefix + "[" + IntToString(i) + "]: "
  }

  function KeyPrefix(prefix: string, key: string): string {
    prefix + key + ": "
  }

  /** Flattens a JSON value recursively into `prefix key: value` lines joined by newlines. */
  function JsonToText(j: Json, prefix: string): string
    decreases j
  {
    match j
    case JArray(items) =>
      Join(seq(|items|, i requires 0 <= i < |items| => JsonToText(items[i], ItemPrefix(prefix, i))), "\n")
    case JObject(members) =>
      Join(seq(|members|, i requires 0 <= i < |members| =>
        assert members[i] in members;
        JsonToText(members[i].value, KeyPrefix(prefix, members[i].key))), "\n")
    case _ => prefix + PrimitiveText(j)
  }

  function Flatten(xss: seq<seq<string>>): seq<string> {
    if xss == [] then [] else xss[0] + Flatten(xss[1..])
  }

  /**
    The lines of the flattened form, one per leaf: a primitive gives its prefixed
    rendering; an array or object contributes the lines of its elements in order,
    element `i` of an array under `prefix[i]: ` and the member `k` of an object
    under `prefix k: `; an empty array or object gives one empty line.
  */
  function JsonLines(j: Json, prefix: string): (r: seq<string>)
    ensures |r| >= 1
    decreases j
  {
    match j
    case JArray(items) =>
      if items == [] then [""]
      else
        var xss := seq(|items|, i requires 0 <= i < |items| => JsonLines(items[i], ItemPrefix(prefix, i)));
        FlattenNonEmpty(xss);
        Flatten(xss)
    case JObject(members) =>
      if members == [] then [""]
      else
        var xss := seq(|members|, i requires 0 <= i < |members| =>
          assert members[i] in members;
          JsonLines(members[i].value, KeyPrefix(prefix, members[i].key)));
        FlattenNonEmpty(xss);
        Flatten(xss)
    case _ => [prefix + PrimitiveText(j)]
  }

  lemma FlattenNonEmpty(xss: seq<seq<string>>)
    requires xss != [] && |xss[0]| >= 1
    ensures |Flatten(xss)| >= 1
  {
  }

  lemma {:induction false} FlattenMember(xss: seq<seq<string>>, line: string)
    requires line in Flatten(xss)
    ensures exists i :: 0 <= i < |xss| && line in xss[i]
  {
    if line !in xss[0] {
      FlattenMember(xss[1..], line);
      var i :| 0 <= i < |xss[1..]| && line in xss[1..][i];
      assert line in xss[i + 1];
    }
  }

  /** Joining flattened line groups is joining the joined groups. */
  lemma {:induction false} JoinFlatten(xss: seq<seq<string>>, sep: string)
    requires xss != []
    requires forall i :: 0 <= i < |xss| ==> |xss[i]| >= 1
    ensures Join(Flatten(xss), sep) == Join(seq(|xss|, i requires 0 <= i < |xss| => Join(xss[i], sep)), sep)
  {
    var joined := seq(|xss|, i requires 0 <= i < |xss| => Join(xss[i], sep));
    if |xss| == 1 {
      assert Flatten(xss) == xss[0] + [];
      assert xss[0] + [] == xss[0];
    } else {
      var rest := xss[1..];
      JoinFlatten(rest, sep);
      FlattenNonEmpty(rest);
      JoinAppend(xss[0], Flatten(rest), sep);
      assert joined[1..] == seq(|rest|, i requires 0 <= i < |rest| => Join(rest[i], sep));
    }
  }

  /** The flattened text is exactly the leaf lines joined by newlines. */
  lemma {:induction false} JsonToTextIsLines(j: Json, prefix: string)
    ensures JsonToText(j, prefix) == Join(JsonLines(j, prefix), "\n")
    decreases j
  {
    match j
    case JArray(items) =>
      if items != [] {
        var xss := seq(|items|, i requires 0 <= i < |items| => JsonLines(items[i], ItemPrefix(prefix, i)));
        forall i | 0 <= i < |items| ensures JsonToText(items[i], ItemPrefix(prefix, i)) == Join(xss[i], "\n") {
          JsonToTextIsLines(items[i], ItemPrefix(prefix, i));
        }
        JoinFlatten(xss, "\n");
        assert seq(|items|, i requires 0 <= i < |items| => JsonToText(items[i], ItemPrefix(prefix, i)))
            == seq(|xss|, i requires 0 <= i < |xss| => Join(xss[i], "\n"));
      }
    case JObject(members) =>
      if members != [] {
        var xss := seq(|members|, i requires 0 <= i < |members| =>
          assert members[i] in members;
          JsonLines(members[i].value, KeyPrefix(prefix, members[i].key)));
        forall i | 0 <= i < |members|
          ensures JsonToText(members[i].value, KeyPrefix(prefix, members[i].key)) == Join(xss[i], "\n")
        {
          assert members[i] in members;
          JsonToTextIsLines(members[i].value, KeyPrefix(prefix, members[i].key));
        }
        JoinFlatten(xss, "\n");
        assert seq(|members|, i requires 0 <= i < |members| =>
                  assert members[i] in members;
                  JsonToText(members[i].value, KeyPrefix(prefix, members[i].key)))
            == seq(|xss|, i requires 0 <= i < |xss| => Join(xss[i], "\n"));
      }
    case _ =>
  }

  /** Every line is the empty line of an empty container or starts with the prefix. */
  lemma {:induction false} JsonLinesPrefixed(j: Json, prefix: string)
    ensures forall line :: line in JsonLines(j, prefix) ==> line == "" || prefix <= line
    decreases j
  {
    match j
    case JArray(items) =>
      if items != [] {
        var xss := seq(|items|, i requires 0 <= i < |items| => JsonLines(items[i], ItemPrefix(prefix, i)));
        forall line | line in JsonLines(j, prefix) ensures line == "" || prefix <= line {
          FlattenMember(xss, line);
          var i :| 0 <= i < |xss| && line in xss[i];
          JsonLinesPrefixed(items[i], ItemPrefix(prefix, i));
          assert prefix <= ItemPrefix(prefix, i);
        }
      }
    case JObject(members) =>
      if members != [] {
        var xss := seq(|members|, i requires 0 <= i < |members| =>
          assert members[i] in members;
          JsonLines(members[i].value, KeyPrefix(prefix, members[i].key)));
        forall line | line in JsonLines(j, prefix) ensures line == "" || prefix <= line {
          FlattenMember(xss, line);
          var i :| 0 <= i < |xss| && line in xss[i];
          assert members[i] in members;
          JsonLinesPrefixed(members[i].value, KeyPrefix(prefix, members[i].key));
          assert prefix <= KeyPrefix(prefix, members[i].key);
        }
      }
    case _ =>
  }

  /**
    `parseJson`: `parse` stands for `JSON.parse` (its error carries the message
    of the exception it throws).
  */
  function ParseJson(content: string, parse: string -> Result<Json, string>): (r: Result<string, string>)
    ensures parse(content).Err? <==> r.Err?
    ensures r.Err? ==> r.error == "Invalid JSON content: " + parse(content).error
    ensures r.Ok? ==> r.value == Join(JsonLines(parse(content).value, ""), "\n")
  {
    match parse(content)
    case Ok(v) =>
      JsonToTextIsLines(v, "");
      Ok(JsonToText(v, ""))
    case Err(e) => Err("Invalid JSON content: " + e)
  }

  /** The text to be split for each content type; `stripMarkdown` stands for the markdown-to-text reduction. */
  function FlattenContent(content: string, contentType: ContentType,
                          stripMarkdown: string -> string,
                          parse: string -> Result<Json, string>): (r: Result<string, string>)
    ensures r.Err? <==> contentType == JsonContent && parse(content).Err?
    ensures contentType == TextContent ==> r == Ok(content)
    ensures contentType == MarkdownContent ==> r == Ok(stripMarkdown(content))
    ensures contentType == JsonContent && parse(content).Ok? ==>
              r == Ok(Join(JsonLines(parse(content).value, ""), "\n"))
    ensures r.Err? ==> r.error == "Invalid JSON content: " + parse(content).error
  {
    match contentType
    case MarkdownContent => Ok(stripMarkdown(content))
    case JsonContent => ParseJson(content, parse)
    case TextContent => Ok(content)
  }

  // ================================================================ sentences

  predicate IsTerminator(c: char) {
    c == '.' || c == '!' || c == '?'
  }

  /** Position `i` starts a whitespace run that follows a sentence terminator. */
  predicate IsBreak(s: string, i: int) {
    0 < i < |s| && IsSpace(s[i]) && IsTerminator(s[i - 1])
  }

  function FirstBreak(s: string, i: nat): (b: nat)
    requires 1 <= i <= |s|
    ensures i <= b <= |s|
    ensures b < |s| ==> IsBreak(s, b)
    ensures forall k :: i <= k < b ==> !IsBreak(s, k)
    decreases |s| - i
  {
    if i == |s| then |s| else if IsBreak(s, i) then i else FirstBreak(s, i + 1)
  }

  /**
    `text.split(/(?<=[.!?])\s+/)`: the text is cut at every maximal whitespace
    run that follows `.`, `!` or `?`, and the runs are dropped.
  */
  function SplitSentences(s: string): (r: seq<string>)
    ensures |r| >= 1
    ensures s == [] ==> r == [""]
    ensures r[0] <= s
    ensures forall k :: 0 <= k < |r| - 1 ==> r[k] != [] && IsTerminator(r[k][|r[k]| - 1])
    decreases |s|
  {
    if s == [] then [s]
    else
      var b := FirstBreak(s, 1);
      if b == |s| then [s]
      else
        assert s[b..][0] == s[b];
        var j := b + SpaceEnd(s[b..]);
        var rest := SplitSentences(s[j..]);
        TerminatedCons(s[..b], rest);
        [s[..b]] + rest
  }

  lemma TerminatedCons(x: string, rest: seq<string>)
    requires x != [] && IsTerminator(x[|x| - 1])
    requires forall k :: 0 <= k < |rest| - 1 ==> rest[k] != [] && IsTerminator(rest[k][|rest[k]| - 1])
    ensures forall k :: 0 <= k < |rest| ==> ([x] + rest)[k] != [] && IsTerminator(([x] + rest)[k][|([x] + rest)[k]| - 1])
  {
    forall k | 0 <= k < |rest| ensures ([x] + rest)[k] != [] && IsTerminator(([x] + rest)[k][|([x] + rest)[k]| - 1]) {
      if k > 0 {
        assert ([x] + rest)[k] == rest[k - 1];
      }
    }
  }

  /** One cut of the sentence split: the break `b` and the start `j` of the rest. */
  lemma SentenceCut(s: string) returns (b: nat, j: nat)
    requires s != [] && FirstBreak(s, 1) < |s|
    ensures b == FirstBreak(s, 1) && IsBreak(s, b)
    ensures b < j <= |s| && AllSpace(s[b..j])
    ensures j < |s| ==> !IsSpace(s[j])
    ensures j == b + SpaceEnd(s[b..])
    ensures SplitSentences(s) == [s[..b]] + SplitSentences(s[j..])
  {
    b := FirstBreak(s, 1);
    j := SpaceRun(s, b);
  }

  /**
    The sentences are the text's own consecutive substrings: between each two
    of them lies a non-empty whitespace run, and the sentences rejoined with
    those runs give the text back.
  */
  lemma {:induction false} SplitSentencesRejoin(s: string) returns (runs: seq<string>)
    ensures |runs| == |SplitSentences(s)| - 1
    ensures forall k :: 0 <= k < |runs| ==> runs[k] != [] && AllSpace(runs[k])
    ensures Interleave(SplitSentences(s), runs) == s
    decreases |s|
  {
    if s == [] || FirstBreak(s, 1) == |s| {
      runs := [];
    } else {
      var b, j := SentenceCut(s);
      var rest := SplitSentencesRejoin(s[j..]);
      runs := [s[b..j]] + rest;
      RunsCons(s[b..j], rest);
      assert Interleave(SplitSentences(s), runs) == s[..b] + s[b..j] + s[j..] by {
        InterleaveCons(s[..b], SplitSentences(s[j..]), s[b..j], rest);
      }
      ThreeParts(s, b, j);
    }
  }

  /** Pieces after the first never start with whitespace, and no piece still contains a break. */
  lemma {:induction false} SentencesAreMaximal(s: string)
    ensures var r := SplitSentences(s);
      && (forall k :: 1 <= k < |r| ==> r[k] == [] || !IsSpace(r[k][0]))
      && (forall k, p :: 0 <= k < |r| && 0 <= p < |r[k]| ==> !IsBreak(r[k], p))
    decreases |s|
  {
    if s != [] && FirstBreak(s, 1) < |s| {
      var b, j := SentenceCut(s);
      SentencesAreMaximal(s[j..]);
      var rest := SplitSentences(s[j..]);
      assert rest[0] == [] || !IsSpace(rest[0][0]) by {
        if rest[0] != [] {
          assert rest[0][0] == s[j..][0];
        }
      }
      assert forall p :: 0 <= p < |s[..b]| ==> !IsBreak(s[..b], p) by {
        forall p | 0 <= p < b ensures !IsBreak(s[..b], p) {
          assert IsBreak(s[..b], p) ==> IsBreak(s, p);
        }
      }
      MaximalCons(s[..b], rest);
    }
  }

  /** A first piece without a break, before pieces that are maximal and start without whitespace. */
  lemma MaximalCons(head: string, rest: seq<string>)
    requires rest != [] && (rest[0] == [] || !IsSpace(rest[0][0]))
    requires forall p :: 0 <= p < |head| ==> !IsBreak(head, p)
    requires forall k :: 1 <= k < |rest| ==> rest[k] == [] || !IsSpace(rest[k][0])
    requires forall k, p :: 0 <= k < |rest| && 0 <= p < |rest[k]| ==> !IsBreak(rest[k], p)
    ensures var r := [head] + rest;
      && (forall k :: 1 <= k < |r| ==> r[k] == [] || !IsSpace(r[k][0]))
      && (forall k, p :: 0 <= k < |r| && 0 <= p < |r[k]| ==> !IsBreak(r[k], p))
  {
    var r := [head] + rest;
    forall k | 1 <= k < |r| ensures r[k] == [] || !IsSpace(r[k][0]) {
      assert r[k] == rest[k - 1];
    }
    forall k, p | 0 <= k < |r| && 0 <= p < |r[k]| ensures !IsBreak(r[k], p) {
      if k > 0 {
        assert r[k] == rest[k - 1];
      }
    }
  }

  /** Splitting into sentences neither loses nor splits a word. */
  lemma {:induction false} SplitSentencesKeepsWords(s: string)
    ensures ConcatWords(SplitSentences(s)) == Words(s)
    decreases |s|
  {
    if s == [] {
      assert ConcatWords([""]) == Words("") + ConcatWords([]);
    } else if FirstBreak(s, 1) == |s| {
      assert ConcatWords([s]) == Words(s) + ConcatWords([]);
    } else {
      var b, j := SentenceCut(s);
      WordsAroundSpaceRun(s, b, j);
      SplitSentencesKeepsWords(s[j..]);
      var rest := SplitSentences(s[j..]);
      assert ([s[..b]] + rest)[1..] == rest;
    }
  }

  function SumLen(xs: seq<string>): nat {
    if xs == [] then 0 else |xs[0]| + SumLen(xs[1..])
  }

  lemma {:induction false} SumLenSnoc(xs: seq<string>, x: string)
    ensures SumLen(xs + [x]) == SumLen(xs) + |x|
  {
    if xs != [] {
      assert (xs + [x])[1..] == xs[1..] + [x];
      SumLenSnoc(xs[1..], x);
    } else {
      assert [x][1..] == [];
    }
  }

  /** The dropped whitespace runs are at least one character each. */
  lemma {:induction false} SentencesLength(s: string)
    ensures SumLen(SplitSentences(s)) + |SplitSentences(s)| - 1 <= |s|
    decreases |s|
  {
    if s != [] && FirstBreak(s, 1) < |s| {
      var b, j := SentenceCut(s);
      SentencesLength(s[j..]);
      var rest := SplitSentences(s[j..]);
      assert ([s[..b]] + rest)[1..] == rest;
    }
  }

  lemma SentencesOfWord(w: string)
    requires NoSpace(w)
    ensures SplitSentences(w) == [w]
  {
  }

  lemma SplitWordsOfWord(w: string)
    requires NoSpace(w)
    ensures SplitWords(w) == [w]
  {
    WordEndUnique(w, |w|);
    assert w[..|w|] == w;
  }

  // ================================================================ packing

  /** The loop state of the splitter: the finished chunks and the chunk being built. */
  datatype Packing = Packing(chunks: seq<string>, current: string)

  /** One iteration of the word loop (the long-sentence fallback). */
  function WordStep(p: Packing, word: string): Packing {
    if |p.current + " " + word| > MAX_CHUNK_SIZE then
      Packing(p.chunks + [Trim(p.current)], word)
    else
      Packing(p.chunks, p.current + (if p.current != "" then " " else "") + word)
  }

  function PackWords(p: Packing, words: seq<string>): Packing {
    if words == [] then p else WordStep(PackWords(p, words[..|words| - 1]), words[|words| - 1])
  }

  /** One iteration of the sentence loop. */
  function SentenceStep(p: Packing, sentence: string): Packing {
    if |p.current + sentence| > MAX_CHUNK_SIZE then
      var flushed := if p.current != "" then p.chunks + [Trim(p.current)] else p.chunks;
      if |sentence| > MAX_CHUNK_SIZE then
        PackWords(Packing(flushed, ""), SplitWords(sentence))
      else
        Packing(flushed, sentence)
    else
      Packing(p.chunks, p.current + (if p.current != "" then " " else "") + sentence)
  }

  function PackSentences(sentences: seq<string>): Packing {
    if sentences == [] then Packing([], "")
    else SentenceStep(PackSentences(sentences[..|sentences| - 1]), sentences[|sentences| - 1])
  }

  function Finish(p: Packing): seq<string> {
    if p.current != "" then p.chunks + [Trim(p.current)] else p.chunks
  }

  /** `splitIntoChunks` as a function of the text. */
  function SplitChunks(text: string): seq<string> {
    Finish(PackSentences(SplitSentences(text)))
  }

  /**
    The word loop of `splitIntoChunks`, for a sentence longer than a chunk:
    words are packed greedily after the finished `chunks`, starting from an
    empty chunk.
  */
  method PackLongSentence(chunks: seq<string>, words: seq<string>) returns (packed: seq<string>, wordChunk: string)
    ensures Packing(packed, wordChunk) == PackWords(Packing(chunks, ""), words)
  {
    packed, wordChunk := chunks, "";
    for k := 0 to |words|
      invariant Packing(packed, wordChunk) == PackWords(Packing(chunks, ""), words[..k])
    {
      var word := words[k];
      assert words[..k + 1][..k] == words[..k];
      if |wordChunk + " " + word| > MAX_CHUNK_SIZE {
        packed := packed + [Trim(wordChunk)];
        wordChunk := word;
      } else {
        wordChunk := wordChunk + (if wordChunk != "" then " " else "") + word;
      }
    }
    assert words[..|words|] == words;
  }

  /** `splitIntoChunks`: the imperative greedy packing of sentences, with a word-level fallback. */
  method SplitIntoChunks(text: string) returns (chunks: seq<string>)
    ensures chunks == SplitChunks(text)
  {
    chunks := [];
    var currentChunk := "";
    var sentences := SplitSentences(text);
    for i := 0 to |sentences|
      invariant Packing(chunks, currentChunk) == PackSentences(sentences[..i])
    {
      var sentence := sentences[i];
      assert PackSentences(sentences[..i + 1]) == SentenceStep(PackSentences(sentences[..i]), sentence) by {
        assert sentences[..i + 1][..i] == sentences[..i];
      }
      ghost var before := Packing(chunks, currentChunk);
      if |currentChunk + sentence| > MAX_CHUNK_SIZE {
        if currentChunk != "" {
          chunks := chunks + [Trim(currentChunk)];
          currentChunk := "";
        }
        if |sentence| > MAX_CHUNK_SIZE {
          ghost var flushed := chunks;
          var wordChunk;
          chunks, wordChunk := PackLongSentence(chunks, SplitWords(sentence));
          assert SentenceStep(before, sentence) == PackWords(Packing(flushed, ""), SplitWords(sentence));
          if wordChunk != "" {
            currentChunk := wordChunk;
          }
        } else {
          currentChunk := sentence;
        }
      } else {
        currentChunk := currentChunk + (if currentChunk != "" then " " else "") + sentence;
      }
      assert Packing(chunks, currentChunk) == SentenceStep(before, sentence);
    }
    assert sentences[..|sentences|] == sentences;
    if currentChunk != "" {
      chunks := chunks + [Trim(currentChunk)];
    }
  }

  // ---------------------------------------------------------------- words are kept

  /** The words of a packing state: those of its finished chunks, then those of the current chunk. */
  function PackedWords(p: Packing): seq<string> {
    ConcatWords(p.chunks) + Words(p.current)
  }

  lemma {:induction false} WordStepKeepsWords(p: Packing, word: string)
    ensures PackedWords(WordStep(p, word)) == PackedWords(p) + Words(word)
  {
    if |p.current + " " + word| > MAX_CHUNK_SIZE {
      ConcatWordsSnoc(p.chunks, Trim(p.current));
      WordsTrim(p.current);
    } else if p.current != "" {
      WordsJoinSpace(p.current, word);
    } else {
      assert p.current + "" + word == word;
    }
  }

  lemma {:induction false} PackWordsKeepsWords(p: Packing, words: seq<string>)
    ensures PackedWords(PackWords(p, words)) == PackedWords(p) + ConcatWords(words)
    decreases |words|
  {
    if words != [] {
      var init, last := words[..|words| - 1], words[|words| - 1];
      var q := PackWords(p, init);
      assert PackedWords(q) == PackedWords(p) + ConcatWords(init) by {
        PackWordsKeepsWords(p, init);
      }
      assert PackedWords(WordStep(q, last)) == PackedWords(q) + Words(last) by {
        WordStepKeepsWords(q, last);
      }
      assert ConcatWords(words) == ConcatWords(init) + Words(last) by {
        LastSplit(words);
        ConcatWordsSnoc(init, last);
      }
    }
  }

  lemma SentenceStepKeepsWords(p: Packing, sentence: string)
    ensures PackedWords(SentenceStep(p, sentence)) == PackedWords(p) + Words(sentence)
  {
    if |p.current + sentence| > MAX_CHUNK_SIZE {
      var flushed := if p.current != "" then p.chunks + [Trim(p.current)] else p.chunks;
      var start := Packing(flushed, "");
      assert PackedWords(start) == PackedWords(p) by {
        if p.current != "" {
          ConcatWordsSnoc(p.chunks, Trim(p.current));
          WordsTrim(p.current);
        }
      }
      if |sentence| > MAX_CHUNK_SIZE {
        var words := SplitWords(sentence);
        assert PackedWords(PackWords(start, words)) == PackedWords(start) + ConcatWords(words) by {
          PackWordsKeepsWords(start, words);
        }
        assert ConcatWords(words) == Words(sentence) by {
          SplitWordsKeepsWords(sentence);
        }
        assert SentenceStep(p, sentence) == PackWords(start, words);
      } else {
        assert SentenceStep(p, sentence) == Packing(flushed, sentence);
      }
    } else if p.current != "" {
      WordsJoinSpace(p.current, sentence);
    } else {
      assert p.current + "" + sentence == sentence;
    }
  }

  lemma {:induction false} PackSentencesKeepsWords(sentences: seq<string>)
    ensures PackedWords(PackSentences(sentences)) == ConcatWords(sentences)
    decreases |sentences|
  {
    if sentences != [] {
      var init := sentences[..|sentences| - 1];
      PackSentencesKeepsWords(init);
      SentenceStepKeepsWords(PackSentences(init), sentences[|sentences| - 1]);
      assert sentences == init + [sentences[|sentences| - 1]];
      ConcatWordsSnoc(init, sentences[|sentences| - 1]);
    }
  }

  /**
    No word is lost, added or cut: ignoring whitespace, the words of the chunks,
    in order, are the words of the text.
  */
  lemma SplitChunksKeepsWords(text: string)
    ensures ConcatWords(SplitChunks(text)) == Words(text)
  {
    var p := PackSentences(SplitSentences(text));
    PackSentencesKeepsWords(SplitSentences(text));
    SplitSentencesKeepsWords(text);
    if p.current != "" {
      ConcatWordsSnoc(p.chunks, Trim(p.current));
      WordsTrim(p.current);
    }
  }

  // ---------------------------------------------------------------- chunk shape

  /** At most one character over the limit (the uncounted joining space), unless a single word. */
  predicate Bounded(c: string) {
    |c| <= MAX_CHUNK_SIZE + 1 || NoSpace(c)
  }

  predicate GoodChunks(chunks: seq<string>) {
    forall i :: 0 <= i < |chunks| ==> IsTrimmed(chunks[i]) && Bounded(chunks[i])
  }

  predicate GoodPacking(p: Packing, limit: nat) {
    GoodChunks(p.chunks) && (|p.current| <= limit || NoSpace(p.current))
  }

  lemma TrimBounded(c: string, limit: nat)
    requires limit <= MAX_CHUNK_SIZE + 1
    requires |c| <= limit || NoSpace(c)
    ensures IsTrimmed(Trim(c)) && Bounded(Trim(c))
  {
    if NoSpace(c) {
      TrimNoSpace(c);
    }
  }

  lemma WordStepGood(p: Packing, word: string)
    requires GoodPacking(p, MAX_CHUNK_SIZE) && NoSpace(word)
    ensures GoodPacking(WordStep(p, word), MAX_CHUNK_SIZE)
  {
    if |p.current + " " + word| > MAX_CHUNK_SIZE {
      TrimBounded(p.current, MAX_CHUNK_SIZE);
    } else if p.current == "" {
      assert p.current + "" + word == word;
    }
  }

  lemma {:induction false} PackWordsGood(p: Packing, words: seq<string>)
    requires GoodPacking(p, MAX_CHUNK_SIZE)
    requires forall i :: 0 <= i < |words| ==> NoSpace(words[i])
    ensures GoodPacking(PackWords(p, words), MAX_CHUNK_SIZE)
    decreases |words|
  {
    if words != [] {
      var init := words[..|words| - 1];
      PackWordsGood(p, init);
      WordStepGood(PackWords(p, init), words[|words| - 1]);
    }
  }

  lemma SentenceStepGood(p: Packing, sentence: string)
    requires GoodPacking(p, MAX_CHUNK_SIZE + 1)
    ensures GoodPacking(SentenceStep(p, sentence), MAX_CHUNK_SIZE + 1)
  {
    if |p.current + sentence| > MAX_CHUNK_SIZE {
      if p.current != "" {
        TrimBounded(p.current, MAX_CHUNK_SIZE + 1);
      }
      var flushed := if p.current != "" then p.chunks + [Trim(p.current)] else p.chunks;
      assert GoodChunks(flushed);
      if |sentence| > MAX_CHUNK_SIZE {
        PackWordsGood(Packing(flushed, ""), SplitWords(sentence));
      }
    } else if p.current == "" {
      assert p.current + "" + sentence == sentence;
    }
  }

  lemma {:induction false} PackSentencesGood(sentences: seq<string>)
    ensures GoodPacking(PackSentences(sentences), MAX_CHUNK_SIZE + 1)
    decreases |sentences|
  {
    if sentences != [] {
      var init := sentences[..|sentences| - 1];
      PackSentencesGood(init);
      SentenceStepGood(PackSentences(init), sentences[|sentences| - 1]);
    }
  }

  /**
    Every chunk is trimmed, and a chunk longer than `MAX_CHUNK_SIZE + 1` is a
    single word (it holds no whitespace).
  */
  lemma SplitChunksShape(text: string)
    ensures forall c :: c in SplitChunks(text) ==> IsTrimmed(c) && Trim(c) == c
    ensures forall c :: c in SplitChunks(text) ==> |c| <= MAX_CHUNK_SIZE + 1 || NoSpace(c)
  {
    var p := PackSentences(SplitSentences(text));
    PackSentencesGood(SplitSentences(text));
    if p.current != "" {
      TrimBounded(p.current, MAX_CHUNK_SIZE + 1);
    }
    forall c | c in SplitChunks(text) ensures Trim(c) == c {
      TrimmedFixed(c);
    }
  }

  lemma TrimmedFixed(c: string)
    requires IsTrimmed(c)
    ensures Trim(c) == c
  {
    if c != [] {
      assert !IsSpace(c[0]) && !IsSpace(c[|c| - 1]);
    }
  }

  // ---------------------------------------------------------------- special inputs

  /** Empty text gives no chunk at all. */
  lemma SplitChunksEmpty()
    ensures SplitChunks("") == []
  {
    assert SplitSentences("") == [""];
    assert [""][..0] == [];
    assert PackSentences([""]) == SentenceStep(Packing([], ""), "");
  }

  lemma {:induction false} ShortPacking(sentences: seq<string>)
    requires sentences != []
    requires SumLen(sentences) + |sentences| - 1 <= MAX_CHUNK_SIZE
    ensures PackSentences(sentences).chunks == []
    ensures |PackSentences(sentences).current| <= SumLen(sentences) + |sentences| - 1
    ensures sentences[0] != "" ==> PackSentences(sentences).current != ""
    decreases |sentences|
  {
    var n := |sentences|;
    var init := sentences[..n - 1];
    var last := sentences[n - 1];
    LastSplit(sentences);
    SumLenSnoc(init, last);
    if init == [] {
      assert PackSentences(init) == Packing([], "");
      assert "" + "" + last == last;
    } else {
      assert init[0] == sentences[0];
      ShortPacking(init);
    }
  }

  /** A non-empty text of at most `MAX_CHUNK_SIZE` characters gives exactly one chunk. */
  lemma SplitChunksShort(text: string)
    requires text != [] && |text| <= MAX_CHUNK_SIZE
    ensures |SplitChunks(text)| == 1
  {
    var sentences := SplitSentences(text);
    SentencesLength(text);
    ShortPacking(sentences);
    assert sentences[0] != "" by {
      var b := FirstBreak(text, 1);
      if b < |text| {
        assert sentences[0] == text[..b];
      }
    }
  }

  /** Whitespace-only text of at most `MAX_CHUNK_SIZE` characters gives one empty chunk. */
  lemma SplitChunksBlank(text: string)
    requires text != [] && |text| <= MAX_CHUNK_SIZE && AllSpace(text)
    ensures SplitChunks(text) == [""]
  {
    SplitChunksShort(text);
    SplitChunksShape(text);
    SplitChunksKeepsWords(text);
    WordsAllSpace(text);
    var c := SplitChunks(text)[0];
    assert ConcatWords([c]) == Words(c) + ConcatWords([]);
    assert c in SplitChunks(text);
    WordsOfUnspacedStart(c);
  }

  lemma WordsOfUnspacedStart(c: string)
    ensures c == [] || IsSpace(c[0]) || Words(c) != []
  {
  }

  /** A single word longer than the limit is preceded by an empty chunk (the trim of the empty word chunk). */
  lemma SplitChunksLongWord(w: string)
    requires NoSpace(w) && |w| > MAX_CHUNK_SIZE
    ensures SplitChunks(w) == ["", w]
  {
    SentencesOfWord(w);
    SplitWordsOfWord(w);
    TrimNoSpace(w);
    assert [w][..0] == [];
    assert PackSentences([w]) == SentenceStep(Packing([], ""), w);
    assert PackWords(Packing([], ""), [w]) == WordStep(Packing([], ""), w);
    assert Trim("") == "";
  }

  // ================================================================ chunk metadata

  /** `originalContent`: the whole content up to 100 characters, otherwise its first 100 and `...`. */
  function Preview(content: string): (r: string)
    ensures |content| <= PREVIEW_LENGTH ==> r == content
    ensures |content| > PREVIEW_LENGTH ==> r == content[..PREVIEW_LENGTH] + "..."
  {
    if |content| > PREVIEW_LENGTH then content[..PREVIEW_LENGTH] + "..." else content
  }

  /** The built-in keys that override caller metadata. */
  function ReservedKeys(): set<string> {
    {"contentType", "chunkIndex", "totalChunks", "originalContent"}
  }

  /** `{...metadata, contentType, chunkIndex, totalChunks, originalContent}`. */
  function ChunkMetadata(metadata: Metadata, contentType: ContentType, index: nat, total: nat, content: string): (r: Metadata)
    ensures r.Keys == metadata.Keys + ReservedKeys()
    ensures forall k :: k in metadata && k !in ReservedKeys() ==> r[k] == metadata[k]
    ensures r["contentType"] == Str(ContentTypeName(contentType))
    ensures r["chunkIndex"] == Num(index) && r["totalChunks"] == Num(total)
    ensures r["originalContent"] == Str(Preview(content))
  {
    metadata + map[
      "contentType" := Str(ContentTypeName(contentType)),
      "chunkIndex" := Num(index),
      "totalChunks" := Num(total),
      "originalContent" := Str(Preview(content))]
  }

  /** `chunkContent`: flatten, split, then number the chunks. */
  function ChunkContent(content: string, contentType: ContentType, metadata: Metadata,
                        stripMarkdown: string -> string,
                        parse: string -> Result<Json, string>): (r: Result<seq<ContentChunk>, string>)
    ensures r.Err? <==> contentType == JsonContent && parse(content).Err?
    ensures r.Err? ==> r.error == "Invalid JSON content: " + parse(content).error
  {
    var text :- FlattenContent(content, contentType, stripMarkdown, parse);
    Ok(NumberChunks(SplitChunks(text), metadata, contentType, content))
  }

  /** Each piece with its metadata: its index, the number of pieces, the content's type and preview. */
  function NumberChunks(pieces: seq<string>, metadata: Metadata, contentType: ContentType, content: string): (r: seq<ContentChunk>)
    ensures |r| == |pieces|
    ensures forall i :: 0 <= i < |r| ==> r[i] == ContentChunk(pieces[i], ChunkMetadata(metadata, contentType, i, |pieces|, content))
  {
    seq(|pieces|, i requires 0 <= i < |pieces| =>
      ContentChunk(pieces[i], ChunkMetadata(metadata, contentType, i, |pieces|, content)))
  }

  function Texts(chunks: seq<ContentChunk>): seq<string> {
    seq(|chunks|, i requires 0 <= i < |chunks| => chunks[i].text)
  }

  /**
    The chunk texts are the split of the flattened content, and chunk `i`
    carries `chunkIndex = i`, `totalChunks` = the number of chunks, the
    content preview, the content type, and every caller key not overridden.
  */
  lemma ChunkContentNumbering(content: string, contentType: ContentType, metadata: Metadata,
                              stripMarkdown: string -> string, parse: string -> Result<Json, string>)
    requires ChunkContent(content, contentType, metadata, stripMarkdown, parse).Ok?
    ensures var chunks := ChunkContent(content, contentType, metadata, stripMarkdown, parse).value;
      var text := FlattenContent(content, contentType, stripMarkdown, parse).value;
      && Texts(chunks) == SplitChunks(text)
      && (forall i :: 0 <= i < |chunks| ==>
            && chunks[i].metadata["chunkIndex"] == Num(i)
            && chunks[i].metadata["totalChunks"] == Num(|chunks|)
            && chunks[i].metadata["contentType"] == Str(ContentTypeName(contentType))
            && chunks[i].metadata["originalContent"] == Str(Preview(content))
            && (forall k :: k in metadata && k !in ReservedKeys() ==> chunks[i].metadata[k] == metadata[k]))
  {
    var pieces := SplitChunks(FlattenContent(content, contentType, stripMarkdown, parse).value);
    var chunks := NumberChunks(pieces, metadata, contentType, content);
    assert ChunkContent(content, contentType, metadata, stripMarkdown, parse).value == chunks;
    assert Texts(chunks) == pieces;
  }

  /** Ignoring whitespace, the chunk texts hold exactly the words of the flattened content; empty text gives no chunk. */
  lemma ChunkContentWords(content: string, contentType: ContentType, metadata: Metadata,
                          stripMarkdown: string -> string, parse: string -> Result<Json, string>)
    requires ChunkContent(content, contentType, metadata, stripMarkdown, parse).Ok?
    ensures var chunks := ChunkContent(content, contentType, metadata, stripMarkdown, parse).value;
      var text := FlattenContent(content, contentType, stripMarkdown, parse).value;
      && ConcatWords(Texts(chunks)) == Words(text)
      && (text == "" ==> chunks == [])
  {
    var text := FlattenContent(content, contentType, stripMarkdown, parse).value;
    ChunkContentNumbering(content, contentType, metadata, stripMarkdown, parse);
    SplitChunksKeepsWords(text);
    if text == "" {
      SplitChunksEmpty();
    }
  }
}
