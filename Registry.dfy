/** The agent registry: agents built from their configurations, kept by name in insertion order. */
module Registry {
  import opened Results
  import opened Types
  import opened Prompts
  import opened Logging
  import opened Agents

  /** One entry of the registry's map, in insertion order. */
  datatype Entry = Entry(name: string, agent: Agent)

  function Names(configs: seq<AgentConfig>): (r: seq<string>)
    ensures |r| == |configs| && forall i :: 0 <= i < |configs| ==> r[i] == configs[i].name
  {
    seq(|configs|, i requires 0 <= i < |configs| => configs[i].name)
  }

  function EntryNames(entries: seq<Entry>): (r: seq<string>)
    ensures |r| == |entries| && forall i :: 0 <= i < |entries| ==> r[i] == entries[i].name
  {
    seq(|entries|, i requires 0 <= i < |entries| => entries[i].name)
  }

  lemma NamesSnoc(configs: seq<AgentConfig>, i: nat)
    requires i < |configs|
    ensures Names(configs[..i + 1]) == Names(configs[..i]) + [configs[i].name]
  {
  }

  lemma EntryNamesSnoc(entries: seq<Entry>)
    requires entries != []
    ensures EntryNames(entries) == EntryNames(entries[..|entries| - 1]) + [entries[|entries| - 1].name]
  {
  }

  predicate Distinct(xs: seq<string>) {
    forall i, j :: 0 <= i < j < |xs| ==> xs[i] != xs[j]
  }

  lemma DistinctSnoc(xs: seq<string>, x: string)
    requires Distinct(xs) && x !in xs
    ensures Distinct(xs + [x])
  {
    forall i, j | 0 <= i < j < |xs| + 1 ensures (xs + [x])[i] != (xs + [x])[j] {
      if j < |xs| {
        assert (xs + [x])[i] == xs[i] && (xs + [x])[j] == xs[j];
      } else {
        assert (xs + [x])[i] == xs[i];
      }
    }
  }

  function DuplicateError(name: string): string {
    "Duplicate agent name: " + name
  }

  function NotFoundError(name: string): string {
    "Agent \"" + name + "\" not found"
  }

  /**
    The error the constructor stops with, if any: configurations are taken in
    order, and the first one whose name is already registered, or whose prompt
    cannot be rendered, ends construction.
  */
  function ConstructError(configs: seq<AgentConfig>): Option<string>
    decreases |configs|
  {
    if configs == [] then None
    else
      var init := configs[..|configs| - 1];
      var last := configs[|configs| - 1];
      if ConstructError(init).Some? then ConstructError(init)
      else if last.name in Names(init) then Some(DuplicateError(last.name))
      else if MissingLanguage(last) then Some(LANGUAGE_ERROR)
      else None
  }

  /** Construction succeeds exactly when the names are distinct and every prompt renders. */
  lemma {:induction false} ConstructOkIff(configs: seq<AgentConfig>)
    ensures ConstructError(configs).None? <==>
      Distinct(Names(configs)) && forall i :: 0 <= i < |configs| ==> !MissingLanguage(configs[i])
    decreases |configs|
  {
    if configs != [] {
      var n := |configs|;
      var init := configs[..n - 1];
      ConstructOkIff(init);
      assert Names(init) == Names(configs)[..n - 1];
      if Distinct(Names(configs)) {
        assert Distinct(Names(init));
        assert configs[n - 1].name !in Names(init) by {
          forall k | 0 <= k < n - 1 ensures Names(init)[k] != configs[n - 1].name {
            assert Names(configs)[k] != Names(configs)[n - 1];
          }
        }
      }
      if Distinct(Names(init)) && configs[n - 1].name !in Names(init) {
        forall i, j | 0 <= i < j < n ensures Names(configs)[i] != Names(configs)[j] {
          if j < n - 1 {
            assert Names(init)[i] != Names(init)[j];
          } else {
            assert Names(init)[i] == Names(configs)[i];
          }
        }
      }
    }
  }

  lemma {:induction false} PrefixErrorIs(configs: seq<AgentConfig>, k: nat, e: string)
    requires k <= |configs| && ConstructError(configs[..k]) == Some(e)
    ensures ConstructError(configs) == Some(e)
  {
    PrefixError(configs, k);
  }

  lemma {:induction false} DuplicateStep(configs: seq<AgentConfig>, i: nat, j: nat)
    requires i < j < |configs| && configs[i].name == configs[j].name
    requires ConstructError(configs[..j]).None?
    ensures ConstructError(configs[..j + 1]) == Some(DuplicateError(configs[j].name))
  {
    ConstructStep(configs, j);
    NameRegistered(configs[..j], i, configs[j].name);
  }

  lemma NameRegistered(configs: seq<AgentConfig>, i: nat, name: string)
    requires i < |configs| && configs[i].name == name
    ensures name in Names(configs)
  {
    assert Names(configs)[i] == name;
  }

  /** Two configurations of one name always make construction fail. */
  lemma {:induction false} DuplicateFails(configs: seq<AgentConfig>, i: nat, j: nat)
    requires i < j < |configs| && configs[i].name == configs[j].name
    ensures ConstructError(configs).Some?
  {
    if ConstructError(configs[..j]).Some? {
      PrefixError(configs, j);
    } else {
      DuplicateStep(configs, i, j);
      PrefixErrorIs(configs, j + 1, DuplicateError(configs[j].name));
    }
  }

  /**
    When every configuration before the second of two of one name renders its
    prompt, construction fails with a duplicate-name error, whatever follows.
  */
  lemma {:induction false} DuplicateRejected(configs: seq<AgentConfig>, i: nat, j: nat)
    requires i < j < |configs| && configs[i].name == configs[j].name
    requires forall k :: 0 <= k < j ==> !MissingLanguage(configs[k])
    ensures ConstructError(configs).Some?
    ensures "Duplicate agent name: " <= ConstructError(configs).value
  {
    if ConstructError(configs[..j]).Some? {
      PrefixError(configs, j);
      NoLanguageErrorThenDuplicate(configs[..j]);
    } else {
      DuplicateStep(configs, i, j);
      PrefixErrorIs(configs, j + 1, DuplicateError(configs[j].name));
    }
  }

  /** Without a prompt failure, any construction error is a duplicate-name error. */
  lemma {:induction false} NoLanguageErrorThenDuplicate(configs: seq<AgentConfig>)
    requires forall k :: 0 <= k < |configs| ==> !MissingLanguage(configs[k])
    ensures ConstructError(configs).Some? ==> "Duplicate agent name: " <= ConstructError(configs).value
    decreases |configs|
  {
    if configs != [] {
      NoLanguageErrorThenDuplicate(configs[..|configs| - 1]);
    }
  }

  /** First entry registered under `name`. */
  function Find(entries: seq<Entry>, name: string): (r: Option<Agent>)
    ensures r.None? <==> name !in EntryNames(entries)
    ensures r.Some? ==> exists i :: 0 <= i < |entries| && entries[i].name == name && entries[i].agent == r.value
  {
    if entries == [] then None
    else if entries[0].name == name then Some(entries[0].agent)
    else
      var rest := Find(entries[1..], name);
      assert EntryNames(entries) == [entries[0].name] + EntryNames(entries[1..]);
      if rest.Some? then
        var i :| 0 <= i < |entries[1..]| && entries[1..][i].name == name && entries[1..][i].agent == rest.value;
        assert entries[i + 1].name == name && entries[i + 1].agent == rest.value;
        rest
      else rest
  }

  /** With distinct names, looking up the name of entry `i` finds entry `i`'s agent. */
  lemma {:induction false} FindRegistered(entries: seq<Entry>, i: nat)
    requires i < |entries| && Distinct(EntryNames(entries))
    ensures Find(entries, entries[i].name) == Some(entries[i].agent)
  {
    var r := Find(entries, entries[i].name);
    var k :| 0 <= k < |entries| && entries[k].name == entries[i].name && entries[k].agent == r.value;
    if k != i {
      assert EntryNames(entries)[k] == EntryNames(entries)[i];
    }
  }

  /** The contexts the agents' loggers add: each agent's name, and the two adapters' once there is an agent. */
  function AgentContexts(configs: seq<AgentConfig>): set<string> {
    (set i | 0 <= i < |configs| :: configs[i].name) + (if configs == [] then {} else {"OpenAI", "Pinecone"})
  }

  lemma AgentContextsSnoc(configs: seq<AgentConfig>, i: nat)
    requires i < |configs|
    ensures AgentContexts(configs[..i + 1]) == AgentContexts(configs[..i]) + {configs[i].name, "OpenAI", "Pinecone"}
  {
    var p := configs[..i + 1];
    assert (set k | 0 <= k < |p| :: p[k].name) == (set k | 0 <= k < i :: configs[..i][k].name) + {configs[i].name} by {
      assert p[i].name == configs[i].name;
    }
  }

  /**
    What construction has done after the first `i` configurations: one entry
    built from each, in order, colours already in `start` unchanged, and each
    agent's loggers added to the table.
  */
  ghost predicate BuiltUpTo(configs: seq<AgentConfig>, i: nat, entries: seq<Entry>,
                            start: map<string, LogColor>, contexts: map<string, LogColor>)
  {
    && i <= |configs| && |entries| == i
    && EntryNames(entries) == Names(configs[..i])
    && (forall k :: 0 <= k < i ==> BuiltFrom(entries[k].agent, configs[k]))
    && (forall k :: k in start ==> k in contexts && contexts[k] == start[k])
    && contexts.Keys == start.Keys + AgentContexts(configs[..i])
    && (forall k :: 0 <= k < i ==> configs[k].name in contexts && entries[k].agent.logColor == contexts[configs[k].name])
  }

  /** An accepted configuration extends what construction has done by one agent. */
  lemma BuiltStep(configs: seq<AgentConfig>, i: nat, before: seq<Entry>, after: seq<Entry>,
                  start: map<string, LogColor>, colorsBefore: map<string, LogColor>, colorsAfter: map<string, LogColor>)
    requires BuiltUpTo(configs, i, before, start, colorsBefore) && i < |configs|
    requires |after| == i + 1 && after[..i] == before
    requires after[i].name == configs[i].name && BuiltFrom(after[i].agent, configs[i])
    requires configs[i].name in colorsAfter && after[i].agent.logColor == colorsAfter[configs[i].name]
    requires colorsAfter.Keys == colorsBefore.Keys + {configs[i].name, "OpenAI", "Pinecone"}
    requires forall k :: k in colorsBefore ==> k in colorsAfter && colorsAfter[k] == colorsBefore[k]
    ensures BuiltUpTo(configs, i + 1, after, start, colorsAfter)
  {
    CreateStep(configs, i, before, after);
    AgentContextsSnoc(configs, i);
    forall k | 0 <= k < i + 1
      ensures configs[k].name in colorsAfter && after[k].agent.logColor == colorsAfter[configs[k].name]
    {
      if k < i {
        assert after[k] == before[k];
      }
    }
  }

  /** The agent was built from the configuration. */
  predicate BuiltFrom(agent: Agent, cfg: AgentConfig) {
    && agent.name == cfg.name
    && agent.model == ResolveModel(cfg)
    && GenerateSystemPrompt(cfg) == Ok(agent.systemPrompt)
    && agent.response == cfg.response
  }

  class Laigent {
    /** The `agents` map, as its entries in insertion order. */
    var entries: seq<Entry>
    /** The colour of the registry's own logger. */
    const logColor: LogColor

    ghost predicate Valid()
      reads this
    {
      Distinct(EntryNames(entries))
    }

    constructor Empty(logColor: LogColor)
      ensures entries == [] && this.logColor == logColor && Valid()
    {
      entries := [];
      this.logColor := logColor;
    }

    /**
      The `Laigent` constructor: its own logger first, then one agent per
      configuration, in order, rejecting a name already registered.
      Loggers created before a failure stay in the colour table.
    */
    static method Create(configs: seq<AgentConfig>, colors: ColorTable) returns (r: Result<Laigent, string>)
      modifies colors
      ensures r.Err? <==> ConstructError(configs).Some?
      ensures r.Err? ==> r.error == ConstructError(configs).value
      ensures r.Ok? ==> fresh(r.value) && r.value.Valid()
      ensures r.Ok? ==> EntryNames(r.value.entries) == Names(configs)
      ensures r.Ok? ==> forall i :: 0 <= i < |configs| ==> BuiltFrom(r.value.entries[i].agent, configs[i])
      ensures "Laigent" in colors.contexts
      ensures Registers(old(colors.contexts), old(colors.contexts)["Laigent" := colors.contexts["Laigent"]], "Laigent", Some(Blue))
      ensures forall k :: k in old(colors.contexts) ==> k in colors.contexts && colors.contexts[k] == old(colors.contexts)[k]
      ensures r.Ok? ==> r.value.logColor == colors.contexts["Laigent"]
      ensures r.Ok? ==> colors.contexts.Keys == old(colors.contexts).Keys + {"Laigent"} + AgentContexts(configs)
      ensures r.Ok? ==> forall i :: 0 <= i < |configs| ==>
                configs[i].name in colors.contexts && r.value.entries[i].agent.logColor == colors.contexts[configs[i].name]
      ensures r.Err? ==>
        exists i :: (0 <= i < |configs| && ConstructError(configs[..i]).None? && ConstructError(configs[..i + 1]).Some? &&
                     colors.contexts.Keys == old(colors.contexts).Keys + {"Laigent"} + AgentContexts(configs[..i]))
    {
      var logger := new Logger(colors, "Laigent", Some(Blue));
      ghost var start := colors.contexts;
      assert start == old(colors.contexts)["Laigent" := start["Laigent"]];
      assert start.Keys == old(colors.contexts).Keys + {"Laigent"};
      var registry := new Laigent.Empty(logger.color);
      for i := 0 to |configs|
        invariant ConstructError(configs[..i]).None?
        invariant registry.Valid() && registry.logColor == start["Laigent"]
        invariant BuiltUpTo(configs, i, registry.entries, start, colors.contexts)
      {
        ConstructStep(configs, i);
        ghost var before := registry.entries;
        ghost var colorsBefore := colors.contexts;
        var err := registry.Add(configs[i], colors);
        if err.Some? {
          PrefixError(configs, i + 1);
          return Err(err.value);
        }
        BuiltStep(configs, i, before, registry.entries, start, colorsBefore, colors.contexts);
      }
      assert configs[..|configs|] == configs;
      ConstructOkIff(configs);
      return Ok(registry);
    }

    /**
      One iteration of the constructor's loop: reject a name already in the
      map, otherwise build the agent and insert it under its name.
    */
    method Add(cfg: AgentConfig, colors: ColorTable) returns (err: Option<string>)
      requires Valid()
      modifies this, colors
      ensures Valid()
      ensures cfg.name in EntryNames(old(entries)) ==> err == Some(DuplicateError(cfg.name))
      ensures cfg.name !in EntryNames(old(entries)) && MissingLanguage(cfg) ==> err == Some(LANGUAGE_ERROR)
      ensures err.None? <==> cfg.name !in EntryNames(old(entries)) && !MissingLanguage(cfg)
      ensures err.Some? ==> entries == old(entries) && colors.contexts == old(colors.contexts)
      ensures err.None? ==>
        && |entries| == |old(entries)| + 1
        && entries[..|old(entries)|] == old(entries)
        && entries[|old(entries)|].name == cfg.name
        && BuiltFrom(entries[|old(entries)|].agent, cfg)
        && cfg.name in colors.contexts
        && entries[|old(entries)|].agent.logColor == colors.contexts[cfg.name]
      ensures err.None? ==> AgentLoggers(old(colors.contexts), colors.contexts, cfg.name)
      ensures err.None? ==> colors.contexts.Keys == old(colors.contexts).Keys + {cfg.name, "OpenAI", "Pinecone"}
      ensures forall k :: k in old(colors.contexts) ==> k in colors.contexts && colors.contexts[k] == old(colors.contexts)[k]
    {
      if cfg.name in EntryNames(entries) {
        return Some(DuplicateError(cfg.name));
      }
      var agent := NewAgent(cfg, colors);
      if agent.Err? {
        return Some(agent.error);
      }
      DistinctSnoc(EntryNames(entries), cfg.name);
      entries := entries + [Entry(cfg.name, agent.value)];
      EntryNamesSnoc(entries);
      assert entries[..|entries| - 1] == old(entries);
      return None;
    }

    /** `getAgent`: the agent registered under `name`, or a not-found error. */
    function GetAgent(name: string): (r: Result<Agent, string>)
      reads this
      ensures r.Ok? <==> name in EntryNames(entries)
      ensures r.Err? ==> r.error == NotFoundError(name)
      ensures r.Ok? ==> exists i :: 0 <= i < |entries| && entries[i].name == name && entries[i].agent == r.value
    {
      match Find(entries, name)
      case Some(a) => Ok(a)
      case None => Err(NotFoundError(name))
    }

    /** `getAllAgents`: the agents in insertion order. */
    function GetAllAgents(): (r: seq<Agent>)
      reads this
      ensures |r| == |entries| && forall i :: 0 <= i < |entries| ==> r[i] == entries[i].agent
    {
      var es := entries;
      seq(|es|, i requires 0 <= i < |es| => es[i].agent)
    }

    /** `getAgentNames`: the names in insertion order. */
    function GetAgentNames(): (r: seq<string>)
      reads this
      ensures r == EntryNames(entries)
    {
      EntryNames(entries)
    }
  }

  /** One step of construction: the next configuration is rejected by name, by prompt, or accepted. */
  lemma ConstructStep(configs: seq<AgentConfig>, i: nat)
    requires i < |configs| && ConstructError(configs[..i]).None?
    ensures ConstructError(configs[..i + 1]) ==
      if configs[i].name in Names(configs[..i]) then Some(DuplicateError(configs[i].name))
      else if MissingLanguage(configs[i]) then Some(LANGUAGE_ERROR)
      else None
  {
    assert configs[..i + 1][..i] == configs[..i];
  }

  /** An accepted configuration extends the entries built so far by the entry built from it. */
  lemma CreateStep(configs: seq<AgentConfig>, i: nat, before: seq<Entry>, after: seq<Entry>)
    requires i < |configs| && |before| == i && EntryNames(before) == Names(configs[..i])
    requires forall k :: 0 <= k < i ==> BuiltFrom(before[k].agent, configs[k])
    requires |after| == i + 1 && after[..i] == before
    requires after[i].name == configs[i].name && BuiltFrom(after[i].agent, configs[i])
    ensures EntryNames(after) == Names(configs[..i + 1])
    ensures forall k :: 0 <= k < i + 1 ==> BuiltFrom(after[k].agent, configs[k])
  {
    NamesSnoc(configs, i);
    EntryNamesSnoc(after);
    forall k | 0 <= k < i + 1 ensures BuiltFrom(after[k].agent, configs[k]) {
      if k < i {
        assert after[k] == before[k];
      }
    }
  }

  /** A construction error on a prefix is the construction error of the whole list. */
  lemma {:induction false} PrefixError(configs: seq<AgentConfig>, k: nat)
    requires k <= |configs|
    ensures ConstructError(configs[..k]).Some? ==> ConstructError(configs) == ConstructError(configs[..k])
    decreases |configs| - k
  {
    if k < |configs| {
      var n := |configs|;
      assert configs[..n - 1][..k] == configs[..k];
      PrefixError(configs[..n - 1], k);
      assert configs[..n] == configs;
    } else {
      assert configs[..k] == configs;
    }
  }
}
