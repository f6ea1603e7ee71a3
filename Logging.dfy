/**
  Logger colour assignment. Every logger context is given one colour of a
  six-colour palette, recorded in a table shared by all loggers of the process.
*/
module Logging {
  import opened Results
  import opened Types

  /** The palette, in the order in which free colours are handed out. */
  const AVAILABLE_COLORS: seq<LogColor> := [Blue, Green, Teal, Yellow, Orange, Purple]

  lemma PaletteComplete(c: LogColor)
    ensures c in AVAILABLE_COLORS
  {
  }

  /** The index of the first palette colour not in `used`, or the palette length when all are used. */
  function FirstFreeIndex(used: set<LogColor>, i: nat): (k: nat)
    requires i <= |AVAILABLE_COLORS|
    ensures i <= k <= |AVAILABLE_COLORS|
    ensures forall j :: i <= j < k ==> AVAILABLE_COLORS[j] in used
    ensures k < |AVAILABLE_COLORS| ==> AVAILABLE_COLORS[k] !in used
    decreases |AVAILABLE_COLORS| - i
  {
    if i == |AVAILABLE_COLORS| || AVAILABLE_COLORS[i] !in used then i
    else FirstFreeIndex(used, i + 1)
  }

  /** The first palette colour not in `used`, if there is one. */
  function FirstFree(used: set<LogColor>): (r: Option<LogColor>)
    ensures r.Some? ==> r.value !in used
    ensures r.None? <==> forall c: LogColor :: c in used
  {
    var k := FirstFreeIndex(used, 0);
    if k < |AVAILABLE_COLORS| then Some(AVAILABLE_COLORS[k])
    else
      assert forall c: LogColor :: c in used by {
        forall c: LogColor ensures c in used {
          PaletteComplete(c);
        }
      }
      None
  }

  /**
    The colour a context not yet in the table receives: the preferred colour
    when no context holds it, otherwise the first free palette colour; `None`
    when all six are taken and the choice is arbitrary.
  */
  function Chosen(contexts: map<string, LogColor>, preferred: Option<LogColor>): (r: Option<LogColor>)
    ensures r.Some? ==> r.value !in contexts.Values
    ensures r.None? <==> forall c: LogColor :: c in contexts.Values
    ensures preferred.Some? && preferred.value !in contexts.Values ==> r == preferred
  {
    if preferred.Some? && preferred.value !in contexts.Values then preferred
    else FirstFree(contexts.Values)
  }

  /** A preferred colour that no context holds is the one assigned. */
  lemma ChosenPreferred(contexts: map<string, LogColor>, c: LogColor)
    requires forall k :: k in contexts ==> contexts[k] != c
    ensures Chosen(contexts, Some(c)) == Some(c)
  {
    assert c !in contexts.Values;
  }

  /** Otherwise the first palette colour that no context holds is assigned. */
  lemma ChosenFirstFree(contexts: map<string, LogColor>, preferred: Option<LogColor>, k: nat)
    requires preferred.None? || preferred.value in contexts.Values
    requires k < |AVAILABLE_COLORS| && AVAILABLE_COLORS[k] !in contexts.Values
    requires forall j :: 0 <= j < k ==> AVAILABLE_COLORS[j] in contexts.Values
    ensures Chosen(contexts, preferred) == Some(AVAILABLE_COLORS[k])
  {
  }

  /** While some colour is free, a new context never shares a colour with another context. */
  lemma ChosenIsFresh(contexts: map<string, LogColor>, preferred: Option<LogColor>, free: LogColor)
    requires forall k :: k in contexts ==> contexts[k] != free
    ensures Chosen(contexts, preferred).Some?
    ensures forall k :: k in contexts ==> contexts[k] != Chosen(contexts, preferred).value
  {
    assert free !in contexts.Values;
  }

  /**
    `after` is the table once a logger for `context`, preferring `preferred`,
    has been constructed on `before`: a known context leaves the table as it
    is; a new one is added, and nothing else changes, with the chosen colour
    whenever the choice is not arbitrary.
  */
  predicate Registers(before: map<string, LogColor>, after: map<string, LogColor>,
                      context: string, preferred: Option<LogColor>) {
    if context in before then after == before
    else
      && context in after && after == before[context := after[context]]
      && (Chosen(before, preferred).Some? ==> after[context] == Chosen(before, preferred).value)
  }

  /** The process-wide context-to-colour table (`Logger.contextMap`). */
  class ColorTable {
    var contexts: map<string, LogColor>

    constructor()
      ensures contexts == map[]
    {
      contexts := map[];
    }

    /**
      The colour-assignment part of the `Logger` constructor: an existing context
      keeps its colour; a new one is added with the chosen colour, or an
      arbitrary palette colour when all six are taken.
    */
    method Register(context: string, preferred: Option<LogColor>) returns (color: LogColor)
      modifies this
      ensures context in old(contexts) ==> color == old(contexts)[context] && contexts == old(contexts)
      ensures context !in old(contexts) ==> contexts == old(contexts)[context := color]
      ensures context !in old(contexts) && Chosen(old(contexts), preferred).Some? ==>
                color == Chosen(old(contexts), preferred).value
      ensures contexts[context] == color
      ensures Registers(old(contexts), contexts, context, preferred)
    {
      if context in contexts {
        color := contexts[context];
        return;
      }
      if preferred.Some? && preferred.value !in contexts.Values {
        color := preferred.value;
        contexts := contexts[context := color];
        return;
      }
      var available := FirstFree(contexts.Values);
      if available.Some? {
        color := available.value;
      } else {
        color :| color in AVAILABLE_COLORS;
      }
      contexts := contexts[context := color];
    }

    /** `getContextColors`: the table's contents, entry for entry. */
    function ContextColors(): (r: map<string, LogColor>)
      reads this
      ensures r.Keys == contexts.Keys
      ensures forall k :: k in r ==> r[k] == contexts[k]
    {
      contexts
    }
  }

  /** A logger: its context and the colour the table gave it. */
  class Logger {
    const context: string
    const color: LogColor

    constructor(table: ColorTable, context: string, preferred: Option<LogColor>)
      modifies table
      ensures this.context == context && context in table.contexts && color == table.contexts[context]
      ensures context in old(table.contexts) ==> table.contexts == old(table.contexts)
      ensures context !in old(table.contexts) ==> table.contexts == old(table.contexts)[context := color]
      ensures context !in old(table.contexts) && Chosen(old(table.contexts), preferred).Some? ==>
                color == Chosen(old(table.contexts), preferred).value
      ensures table.contexts.Keys == old(table.contexts).Keys + {context}
      ensures forall k :: k in old(table.contexts) ==> table.contexts[k] == old(table.contexts)[k]
      ensures Registers(old(table.contexts), table.contexts, context, preferred)
    {
      this.context := context;
      var c := table.Register(context, preferred);
      color := c;
    }
  }
}
