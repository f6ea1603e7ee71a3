/**
  The JavaScript string primitives the core relies on: the `\s` character class
  (which `trim` also uses), `trim`, `split(/\s+/)`, `Array.prototype.join` and
  the decimal rendering of an integer. `Words` is the specification-level view
  of a text as its whitespace-separated words; the splitting lemmas are stated
  against it.
*/
module Strings {

  /** ECMAScript WhiteSpace and LineTerminator code points: what `\s` matches and `trim` removes. */
  predicate IsSpace(c: char) {
    || c == ' ' || c == '\t' || c == '\n' || c == '\r'
    || c == '\U{000B}' || c == '\U{000C}' || c == '\U{00A0}' || c == '\U{1680}'
    || ('\U{2000}' <= c <= '\U{200A}')
    || c == '\U{2028}' || c == '\U{2029}' || c == '\U{202F}' || c == '\U{205F}'
    || c == '\U{3000}' || c == '\U{FEFF}'
  }

  predicate NoSpace(s: string) {
    forall i :: 0 <= i < |s| ==> !IsSpace(s[i])
  }

  predicate AllSpace(s: string) {
    forall i :: 0 <= i < |s| ==> IsSpace(s[i])
  }

  /** A string that neither starts nor ends with whitespace. */
  predicate IsTrimmed(s: string) {
    s == [] || (!IsSpace(s[0]) && !IsSpace(s[|s| - 1]))
  }

  // ---------------------------------------------------------------- trim

  /** Index just past the trailing non-whitespace part: `s[..k]` is `s` without its trailing whitespace. */
  function TrimEndIndex(s: string): (k: nat)
    ensures k <= |s| && AllSpace(s[k..]) && (k > 0 ==> !IsSpace(s[k - 1]))
  {
    if s != [] && IsSpace(s[|s| - 1]) then
      var k := TrimEndIndex(s[..|s| - 1]);
      assert s[k..] == s[..|s| - 1][k..] + [s[|s| - 1]];
      k
    else
      |s|
  }

  /** `String.prototype.trimStart`. */
  function TrimStart(s: string): (r: string)
    ensures r == [] || !IsSpace(r[0])
  {
    s[SpaceEnd(s)..]
  }

  /** `String.prototype.trimEnd`. */
  function TrimEnd(s: string): (r: string)
    ensures r == [] || !IsSpace(r[|r| - 1])
  {
    s[..TrimEndIndex(s)]
  }

  /** `String.prototype.trim`: removes the leading and the trailing whitespace run, and nothing else. */
  function Trim(s: string): (r: string)
    ensures IsTrimmed(r)
    ensures |r| <= |s|
    ensures exists a, b :: 0 <= a <= b <= |s| && r == s[a..b] && AllSpace(s[..a]) && AllSpace(s[b..])
  {
    var a := SpaceEnd(s);
    var t := s[a..];
    var k := TrimEndIndex(t);
    assert t[..k] == s[a..a + k] && t[k..] == s[a + k..];
    TrimEnd(TrimStart(s))
  }

  lemma TrimNoSpace(s: string)
    requires NoSpace(s)
    ensures Trim(s) == s
  {
    if s != [] {
      assert !IsSpace(s[0]) && !IsSpace(s[|s| - 1]);
    }
    assert TrimStart(s) == s;
  }

  // ---------------------------------------------------------------- words

  /** Length of the leading run of non-whitespace characters. */
  function WordEnd(s: string): (k: nat)
    ensures k <= |s| && NoSpace(s[..k]) && (k < |s| ==> IsSpace(s[k]))
  {
    if s == [] || IsSpace(s[0]) then 0 else 1 + WordEnd(s[1..])
  }

  /** Length of the leading run of whitespace characters. */
  function SpaceEnd(s: string): (k: nat)
    ensures k <= |s| && AllSpace(s[..k]) && (k < |s| ==> !IsSpace(s[k]))
    ensures s != [] && IsSpace(s[0]) ==> k >= 1
  {
    if s != [] && IsSpace(s[0]) then 1 + SpaceEnd(s[1..]) else 0
  }

  /** The maximal runs of non-whitespace characters of `s`, in order. */
  function Words(s: string): seq<string>
    decreases |s|
  {
    if s == [] then []
    else if IsSpace(s[0]) then Words(s[1..])
    else
      var k := WordEnd(s);
      [s[..k]] + Words(s[k..])
  }

  /** The words of each string of `xs`, concatenated in order. */
  function ConcatWords(xs: seq<string>): seq<string> {
    if xs == [] then [] else Words(xs[0]) + ConcatWords(xs[1..])
  }

  /** Indexing into a prefix; unconditional so that it can be used to rule out a case. */
  lemma PrefixAt(s: string, k: nat, i: nat)
    ensures i < k <= |s| ==> s[..k][i] == s[i]
  {
  }

  lemma {:induction false} WordEndUnique(s: string, k: nat)
    requires k <= |s| && NoSpace(s[..k]) && (k < |s| ==> IsSpace(s[k]))
    ensures WordEnd(s) == k
  {
    if s != [] && !IsSpace(s[0]) {
      assert k > 0;
      assert s[1..][..k - 1] == s[..k][1..];
      WordEndUnique(s[1..], k - 1);
    } else if s != [] {
      PrefixAt(s, k, 0);
    }
  }

  lemma {:induction false} WordsAllSpace(s: string)
    requires AllSpace(s)
    ensures Words(s) == []
  {
    if s != [] {
      WordsAllSpace(s[1..]);
    }
  }

  lemma WordsOfNoSpace(w: string)
    requires NoSpace(w)
    ensures Words(w) == if w == [] then [] else [w]
  {
    if w != [] {
      WordEndUnique(w, |w|);
      assert w[..|w|] == w;
    }
  }

  /** Leading whitespace of `a` is dropped from the words of `a + b` as from those of `a`. */
  lemma WordsConcatSpaceStep(a: string, b: string)
    requires a != [] && IsSpace(a[0])
    requires Words(a[1..] + b) == Words(a[1..]) + Words(b)
    ensures Words(a + b) == Words(a) + Words(b)
  {
    assert (a + b)[1..] == a[1..] + b;
  }

  /** A leading word of `a` that ends inside `a` is the leading word of `a + b`. */
  lemma WordsConcatWordStep(a: string, b: string, k: nat)
    requires a != [] && !IsSpace(a[0]) && k == WordEnd(a) < |a|
    requires Words(a[k..] + b) == Words(a[k..]) + Words(b)
    ensures Words(a + b) == Words(a) + Words(b)
  {
    assert (a + b)[..k] == a[..k];
    WordEndUnique(a + b, k);
    assert (a + b)[k..] == a[k..] + b;
  }

  /** A word making up all of `a` stays a word of its own before a whitespace start of `b`. */
  lemma WordsConcatLastWord(a: string, b: string)
    requires a != [] && !IsSpace(a[0]) && WordEnd(a) == |a| && b != [] && IsSpace(b[0])
    ensures Words(a + b) == Words(a) + Words(b)
  {
    var k, ab := |a|, a + b;
    assert Words(a) == [a] by {
      assert a[..k] == a;
      assert a[k..] == [];
    }
    assert ab[..k] == a;
    WordEndUnique(ab, k);
    assert ab[k..] == b;
    assert Words(ab) == [a] + Words(b);
  }

  /** Words do not merge across a whitespace boundary. */
  lemma {:induction false} WordsConcat(a: string, b: string)
    requires a == [] || b == [] || IsSpace(a[|a| - 1]) || IsSpace(b[0])
    ensures Words(a + b) == Words(a) + Words(b)
    decreases |a|
  {
    if a == [] {
      assert a + b == b;
    } else if b == [] {
      assert a + b == a;
    } else if IsSpace(a[0]) {
      WordsConcat(a[1..], b);
      WordsConcatSpaceStep(a, b);
    } else if WordEnd(a) < |a| {
      var k := WordEnd(a);
      WordsConcat(a[k..], b);
      WordsConcatWordStep(a, b, k);
    } else {
      WordsConcatLastWord(a, b);
    }
  }

  lemma WordsSkipSpace(x: string, y: string)
    requires AllSpace(x)
    ensures Words(x + y) == Words(y)
  {
    WordsAllSpace(x);
    WordsConcat(x, y);
  }

  /** Joining two strings with one space keeps their words apart. */
  lemma WordsJoinSpace(a: string, b: string)
    ensures Words(a + " " + b) == Words(a) + Words(b)
  {
    assert a + " " + b == a + (" " + b);
    WordsConcat(a, " " + b);
    WordsSkipSpace(" ", b);
  }

  lemma WordsTrimStart(s: string)
    ensures Words(TrimStart(s)) == Words(s)
  {
    var k := SpaceEnd(s);
    assert s == s[..k] + s[k..];
    WordsSkipSpace(s[..k], s[k..]);
  }

  lemma WordsTrimEnd(s: string)
    ensures Words(TrimEnd(s)) == Words(s)
  {
    var k := TrimEndIndex(s);
    assert s == s[..k] + s[k..];
    WordsConcat(s[..k], s[k..]);
    WordsAllSpace(s[k..]);
  }

  /** Trimming never changes the words of a string. */
  lemma WordsTrim(s: string)
    ensures Words(Trim(s)) == Words(s)
  {
    WordsTrimStart(s);
    WordsTrimEnd(TrimStart(s));
  }

  lemma {:induction false} ConcatWordsAppend(xs: seq<string>, ys: seq<string>)
    ensures ConcatWords(xs + ys) == ConcatWords(xs) + ConcatWords(ys)
  {
    if xs == [] {
      assert xs + ys == ys;
    } else {
      assert (xs + ys)[0] == xs[0];
      assert (xs + ys)[1..] == xs[1..] + ys;
      ConcatWordsAppend(xs[1..], ys);
    }
  }

  lemma ConcatWordsSnoc(xs: seq<string>, x: string)
    ensures ConcatWords(xs + [x]) == ConcatWords(xs) + Words(x)
  {
    ConcatWordsAppend(xs, [x]);
    assert ConcatWords([x]) == Words(x) + ConcatWords([]);
  }

  // ---------------------------------------------------------------- split(/\s+/)

  /**
    `s.split(/\s+/)`: the pieces of `s` between maximal whitespace runs. A
    leading (trailing) run gives an empty first (last) piece, and `""` gives `[""]`.
  */
  function SplitWords(s: string): (r: seq<string>)
    ensures |r| >= 1
    ensures forall i :: 0 <= i < |r| ==> NoSpace(r[i])
    decreases |s|
  {
    var i := WordEnd(s);
    if i == |s| then
      assert s[..i] == s;
      [s]
    else
      var j := i + SpaceEnd(s[i..]);
      [s[..i]] + SplitWords(s[j..])
  }

  /** The whitespace run starting at `b` ends at `j`. */
  lemma SpaceRun(s: string, b: nat) returns (j: nat)
    requires b < |s| && IsSpace(s[b])
    ensures j == b + SpaceEnd(s[b..])
    ensures b < j <= |s| && AllSpace(s[b..j])
    ensures j < |s| ==> !IsSpace(s[j])
  {
    var t := s[b..];
    var k := SpaceEnd(t);
    assert t[0] == s[b];
    j := b + k;
    assert s[b..j] == t[..k];
    assert k < |t| ==> t[k] == s[j];
  }

  /** One cut of `split(/\s+/)`: the first piece ends at `i`, the run after it at `j`. */
  lemma SplitCut(s: string) returns (i: nat, j: nat)
    requires WordEnd(s) < |s|
    ensures i == WordEnd(s) && i < j <= |s| && AllSpace(s[i..j]) && IsSpace(s[i])
    ensures j < |s| ==> !IsSpace(s[j])
    ensures SplitWords(s) == [s[..i]] + SplitWords(s[j..])
  {
    i := WordEnd(s);
    j := SpaceRun(s, i);
  }

  /** `pieces[0] + seps[0] + pieces[1] + … + pieces[n]`: pieces put back together with what was cut out between them. */
  function Interleave(pieces: seq<string>, seps: seq<string>): string
    requires |pieces| == |seps| + 1
    decreases |seps|
  {
    if seps == [] then pieces[0] else pieces[0] + seps[0] + Interleave(pieces[1..], seps[1..])
  }

  /** A non-empty sequence is its initial part followed by its last element. */
  lemma LastSplit<T>(xs: seq<T>)
    requires xs != []
    ensures xs == xs[..|xs| - 1] + [xs[|xs| - 1]]
  {
  }

  lemma ThreeParts(s: string, i: nat, j: nat)
    requires i <= j <= |s|
    ensures s == s[..i] + s[i..j] + s[j..]
  {
  }

  lemma InterleaveCons(p: string, pieces: seq<string>, sep: string, seps: seq<string>)
    requires |pieces| == |seps| + 1
    ensures Interleave([p] + pieces, [sep] + seps) == p + sep + Interleave(pieces, seps)
  {
    assert ([p] + pieces)[1..] == pieces && ([sep] + seps)[1..] == seps;
  }

  lemma RunsCons(run: string, runs: seq<string>)
    requires run != [] && AllSpace(run)
    requires forall k :: 0 <= k < |runs| ==> runs[k] != [] && AllSpace(runs[k])
    ensures forall k :: 0 <= k < |[run] + runs| ==> ([run] + runs)[k] != [] && AllSpace(([run] + runs)[k])
  {
    forall k | 0 < k < |[run] + runs| ensures ([run] + runs)[k] == runs[k - 1] {}
  }

  /**
    The pieces of `split(/\s+/)` are the text's own consecutive substrings:
    between each two of them lies a non-empty whitespace run, and the pieces
    rejoined with those runs give the text back.
  */
  lemma {:induction false} SplitWordsRejoin(s: string) returns (runs: seq<string>)
    ensures |runs| == |SplitWords(s)| - 1
    ensures forall k :: 0 <= k < |runs| ==> runs[k] != [] && AllSpace(runs[k])
    ensures Interleave(SplitWords(s), runs) == s
    decreases |s|
  {
    if WordEnd(s) == |s| {
      assert s[..|s|] == s;
      runs := [];
    } else {
      var i, j := SplitCut(s);
      var rest := SplitWordsRejoin(s[j..]);
      runs := [s[i..j]] + rest;
      RunsCons(s[i..j], rest);
      assert Interleave(SplitWords(s), runs) == s[..i] + s[i..j] + s[j..] by {
        InterleaveCons(s[..i], SplitWords(s[j..]), s[i..j], rest);
      }
      ThreeParts(s, i, j);
    }
  }

  /** The first piece of `split(/\s+/)` is empty exactly when the text is empty or starts with whitespace. */
  lemma SplitWordsFirst(s: string)
    ensures SplitWords(s)[0] == [] <==> s == [] || IsSpace(s[0])
  {
    if WordEnd(s) == |s| {
      assert s[..|s|] == s;
    } else {
      var i, j := SplitCut(s);
      PrefixAt(s, i, 0);
    }
  }

  /** The last of the pieces `r` of `s` is empty exactly when `s` is empty or ends with whitespace. */
  predicate LastEmptyIffSpaceEnd(s: string, r: seq<string>)
    requires r != []
  {
    r[|r| - 1] == [] <==> s == [] || IsSpace(s[|s| - 1])
  }

  lemma SplitWordsLastStep(s: string, i: nat, j: nat, r: seq<string>, rest: seq<string>)
    requires i < j <= |s| && AllSpace(s[i..j]) && rest != []
    requires r == [s[..i]] + rest
    requires LastEmptyIffSpaceEnd(s[j..], rest)
    ensures LastEmptyIffSpaceEnd(s, r)
  {
    assert r[|r| - 1] == rest[|rest| - 1];
    if j < |s| {
      assert s[j..][|s[j..]| - 1] == s[|s| - 1];
    } else {
      assert s[i..j][j - i - 1] == s[|s| - 1];
    }
  }

  /** The last piece of `split(/\s+/)` is empty exactly when the text is empty or ends with whitespace. */
  lemma {:induction false} SplitWordsLast(s: string)
    ensures LastEmptyIffSpaceEnd(s, SplitWords(s))
    decreases |s|
  {
    if WordEnd(s) == |s| {
      assert SplitWords(s) == [s] by {
        assert s[..|s|] == s;
      }
      if s != [] {
        assert s[..|s|][|s| - 1] == s[|s| - 1];
      }
    } else {
      var i, j := SplitCut(s);
      SplitWordsLast(s[j..]);
      SplitWordsLastStep(s, i, j, SplitWords(s), SplitWords(s[j..]));
    }
  }

  /** No inner piece of `split(/\s+/)` is empty: every whitespace run is cut as a whole. */
  lemma {:induction false} SplitWordsInner(s: string)
    ensures InnerNonEmpty(SplitWords(s))
    decreases |s|
  {
    if WordEnd(s) < |s| {
      var i, j := SplitCut(s);
      var rest := SplitWords(s[j..]);
      assert InnerNonEmpty(rest) by {
        SplitWordsInner(s[j..]);
      }
      if |rest| >= 2 {
        SplitWordsFirst(s[j..]);
        assert s[j..] != [] && s[j..][0] == s[j];
      }
      InnerNonEmptyCons(s[..i], rest);
    }
  }

  /** Every piece but the first and the last is non-empty. */
  predicate InnerNonEmpty(r: seq<string>) {
    forall k :: 0 < k < |r| - 1 ==> r[k] != []
  }

  lemma InnerNonEmptyCons(x: string, rest: seq<string>)
    requires InnerNonEmpty(rest) && (|rest| >= 2 ==> rest[0] != [])
    ensures InnerNonEmpty([x] + rest)
  {
    var r := [x] + rest;
    forall k | 0 < k < |r| - 1 ensures r[k] != [] {
      assert r[k] == rest[k - 1];
    }
  }

  /** A string is its first piece, a whitespace run, and the rest. */
  lemma {:induction false} WordsAroundSpaceRun(s: string, i: nat, j: nat)
    requires i < j <= |s| && AllSpace(s[i..j]) && IsSpace(s[i])
    ensures Words(s) == Words(s[..i]) + Words(s[j..])
  {
    var head, run, tail := s[..i], s[i..j], s[j..];
    assert s == head + (run + tail) by {
      ThreeParts(s, i, j);
    }
    assert Words(run + tail) == Words(tail) by {
      WordsSkipSpace(run, tail);
    }
    assert Words(head + (run + tail)) == Words(head) + Words(run + tail) by {
      assert (run + tail)[0] == s[i];
      WordsConcat(head, run + tail);
    }
  }

  /** Splitting at whitespace neither loses nor splits a word. */
  lemma {:induction false} SplitWordsKeepsWords(s: string)
    ensures ConcatWords(SplitWords(s)) == Words(s)
    decreases |s|
  {
    var i := WordEnd(s);
    if i == |s| {
      assert s[..i] == s;
      WordsOfNoSpace(s);
      assert ConcatWords([s]) == Words(s) + ConcatWords([]);
    } else {
      var i, j := SplitCut(s);
      var rest := SplitWords(s[j..]);
      assert ConcatWords(rest) == Words(s[j..]) by {
        SplitWordsKeepsWords(s[j..]);
      }
      assert Words(s) == Words(s[..i]) + Words(s[j..]) by {
        WordsAroundSpaceRun(s, i, j);
      }
      assert ConcatWords([s[..i]] + rest) == Words(s[..i]) + ConcatWords(rest) by {
        assert ([s[..i]] + rest)[1..] == rest;
      }
    }
  }

  // ---------------------------------------------------------------- join

  /** `Array.prototype.join(sep)`. */
  function Join(xs: seq<string>, sep: string): (r: string)
    ensures xs == [] ==> r == []
    ensures |xs| == 1 ==> r == xs[0]
  {
    if xs == [] then []
    else if |xs| == 1 then xs[0]
    else xs[0] + sep + Join(xs[1..], sep)
  }

  lemma {:induction false} JoinAppend(xs: seq<string>, ys: seq<string>, sep: string)
    requires xs != [] && ys != []
    ensures Join(xs + ys, sep) == Join(xs, sep) + sep + Join(ys, sep)
  {
    if |xs| == 1 {
      assert (xs + ys)[0] == xs[0];
      assert (xs + ys)[1..] == ys;
    } else {
      assert (xs + ys)[0] == xs[0];
      assert (xs + ys)[1..] == xs[1..] + ys;
      JoinAppend(xs[1..], ys, sep);
    }
  }

  // ---------------------------------------------------------------- numbers

  function DigitChar(d: nat): (c: char)
    requires d < 10
    ensures '0' <= c <= '9'
  {
    "0123456789"[d]
  }

  predicate IsDigits(s: string) {
    forall i :: 0 <= i < |s| ==> '0' <= s[i] <= '9'
  }

  /** Decimal rendering of a natural number: what `String(n)` gives for a non-negative integer. */
  function NatToString(n: nat): (r: string)
    ensures |r| >= 1 && IsDigits(r)
    ensures (n < 10) == (|r| == 1)
  {
    if n < 10 then [DigitChar(n)] else NatToString(n / 10) + [DigitChar(n % 10)]
  }

  /** `String(n)` for an integer-valued number. */
  function IntToString(n: int): (r: string)
    ensures |r| >= 1 && NoSpace(r)
    ensures n >= 0 ==> IsDigits(r)
    ensures n < 0 ==> r[0] == '-' && IsDigits(r[1..])
  {
    if n < 0 then "-" + NatToString(-n) else NatToString(n)
  }

  lemma DigitCharInjective(a: nat, b: nat)
    requires a < 10 && b < 10 && DigitChar(a) == DigitChar(b)
    ensures a == b
  {
  }

  /** Distinct numbers render differently. */
  lemma {:induction false} NatToStringInjective(a: nat, b: nat)
    requires NatToString(a) == NatToString(b)
    ensures a == b
  {
    var s := NatToString(a);
    if a >= 10 && b >= 10 {
      assert s[|s| - 1] == DigitChar(a % 10) && s[|s| - 1] == DigitChar(b % 10);
      DigitCharInjective(a % 10, b % 10);
      assert s[..|s| - 1] == NatToString(a / 10) && s[..|s| - 1] == NatToString(b / 10);
      NatToStringInjective(a / 10, b / 10);
    } else if a < 10 && b < 10 {
      DigitCharInjective(a, b);
    }
  }

  lemma IntToStringInjective(a: int, b: int)
    requires IntToString(a) == IntToString(b)
    ensures a == b
  {
    var s := IntToString(a);
    if a < 0 && b < 0 {
      assert s[1..] == NatToString(-a) && s[1..] == NatToString(-b);
      NatToStringInjective(-a, -b);
    } else if a >= 0 && b >= 0 {
      NatToStringInjective(a, b);
    }
  }
}
