/** The sentence assembly of `src/sentence.py`: the rejection gate around the
    chain, the space join, and the ordered pipeline of named text filters. */
module Sentences {
  import opened Outcomes
  import opened Dicts
  import opened Text
  import opened Markov

  /** `MAX_WORD_OCCURRENCE`. */
  const MaxWordOccurrence: nat := 2

  /** The filter names `_apply_filters` knows, in the default order. */
  const DefaultFilters: seq<string> := [
    "trailing_conjunction",
    "trailing_commas",
    "punctuation_whitespace",
    "punctuation_capitalization",
    "random_trailing_punctuation"
  ]

  /** The choices of `_random_trailing_punctuation`, three of five a full stop. */
  const Punctuations: seq<char> := ['.', '.', '.', '!', '?']

  predicate IsTerminal(c: char)
  {
    c == '.' || c == '!' || c == '?'
  }

  /** The word contains `.`, `!` or `?`. */
  predicate HasTerminal(w: string)
  {
    '.' in w || '!' in w || '?' in w
  }

  /** `values.count(w)`. */
  function Occurrences(values: seq<Word>, w: Word): (n: nat)
    ensures n == multiset(values)[w]
  {
    if values == [] then 0
    else
      assert values == [values[0]] + values[1..];
      (if values[0] == w then 1 else 0) + Occurrences(values[1..], w)
  }

  /** The gate lets a chain through: no word occurs more than `MAX_WORD_OCCURRENCE` times. */
  ghost predicate Acceptable(values: seq<Word>)
  {
    forall i :: 0 <= i < |values| ==> Occurrences(values, values[i]) <= MaxWordOccurrence
  }

  /** What one call of `chain.generate` leaves: the chain in `values`, and whether it raised. */
  type Outcome = (seq<Word>, Status)

  /** The outcome of each attempt in turn, were `chain.generate` called once per attempt. */
  ghost function AttemptOutcomes(corpus: seq<Word>, m: Model, steps: nat, attempts: seq<Draws>): (r: seq<Outcome>)
    requires WellFormed(m)
    requires forall j :: 0 <= j < |attempts| ==> DrawsFit(corpus, steps, attempts[j])
    ensures |r| == |attempts|
    decreases |attempts|
  {
    if attempts == [] then []
    else [Attempt(corpus, m, steps, attempts[0])] + AttemptOutcomes(corpus, m, steps, attempts[1..])
  }

  /** The outcome at `j` is that of the `j`-th attempt. */
  lemma {:induction false} AttemptOutcomesAt(corpus: seq<Word>, m: Model, steps: nat, attempts: seq<Draws>, j: nat)
    requires WellFormed(m)
    requires forall j :: 0 <= j < |attempts| ==> DrawsFit(corpus, steps, attempts[j])
    requires j < |attempts|
    ensures AttemptOutcomes(corpus, m, steps, attempts)[j] == Attempt(corpus, m, steps, attempts[j])
    decreases j
  {
    if j > 0 {
      AttemptOutcomesAt(corpus, m, steps, attempts[1..], j - 1);
    }
  }

  /** An attempt ends `generate`'s loop: `chain.generate` returned without raising and the
      chain it left passes the gate. */
  ghost predicate Passes(outcome: Outcome)
  {
    outcome.1.Done? && Acceptable(outcome.0)
  }

  /** The index of the first outcome from `i` on that ends `generate`'s loop, if any. */
  ghost function FirstPassing(outcomes: seq<Outcome>, i: nat): (r: Option<nat>)
    requires i <= |outcomes|
    ensures r.Some? ==> i <= r.value < |outcomes|
    decreases |outcomes| - i
  {
    if i == |outcomes| then None
    else if Passes(outcomes[i]) then Some(i)
    else FirstPassing(outcomes, i + 1)
  }

  /** `FirstPassing` finds the least passing index, and finds none exactly when no outcome passes. */
  /** One step of the search: the attempt at `i` passes, or the search moves on. */
  lemma FirstPassingStep(outcomes: seq<Outcome>, i: nat)
    requires i < |outcomes|
    ensures FirstPassing(outcomes, i) == if Passes(outcomes[i]) then Some(i) else FirstPassing(outcomes, i + 1)
  {
  }

  lemma {:induction false} FirstPassingIsFirst(outcomes: seq<Outcome>, i: nat)
    requires i <= |outcomes|
    ensures var r := FirstPassing(outcomes, i);
            && (r.Some? ==> Passes(outcomes[r.value]) && forall j :: i <= j < r.value ==> !Passes(outcomes[j]))
            && (r.None? <==> forall j :: i <= j < |outcomes| ==> !Passes(outcomes[j]))
    decreases |outcomes| - i
  {
    if i < |outcomes| && !Passes(outcomes[i]) {
      FirstPassingIsFirst(outcomes, i + 1);
    }
  }

  /** A chain that passes has every word `chain.generate` promises, and no more than two of each. */
  lemma PassesShape(corpus: seq<Word>, m: Model, steps: nat, draws: Draws)
    requires m == ModelOf(MakePairs(corpus)) && WellFormed(m) && DrawsFit(corpus, steps, draws)
    requires Passes(Attempt(corpus, m, steps, draws))
    ensures var values := Attempt(corpus, m, steps, draws).0;
            |values| == steps + 1 && Acceptable(values) && !IsLower(values[0])
            && forall t :: 0 <= t < |values| - 1 ==> Adjacent(corpus, values[t], values[t + 1])
  {
    AttemptShape(corpus, m, steps, draws);
  }

  /** The gate bounds the multiplicity of every word, including words not in the chain. */
  lemma AcceptableBoundsEveryWord(values: seq<Word>)
    ensures Acceptable(values) <==> forall w :: multiset(values)[w] <= MaxWordOccurrence
  {
    if Acceptable(values) {
      forall w ensures multiset(values)[w] <= MaxWordOccurrence {
        if w in values {
          var i :| 0 <= i < |values| && values[i] == w;
          assert Occurrences(values, values[i]) <= MaxWordOccurrence;
        }
      }
    }
  }

  /** The scan in `generate`: stop at the first word that occurs too often. */
  method TooManyOccurrences(values: seq<Word>) returns (tooMany: bool)
    ensures tooMany <==> !Acceptable(values)
  {
    tooMany := false;
    var i := 0;
    while i < |values|
      invariant 0 <= i <= |values|
      invariant forall j :: 0 <= j < i ==> Occurrences(values, values[j]) <= MaxWordOccurrence
    {
      var countOccurrences := Occurrences(values, values[i]);
      if countOccurrences > MaxWordOccurrence {
        tooMany := true;
        break;
      }
      i := i + 1;
    }
  }

  /** `_trailing_conjunction` on the word list: drop the last word when it is one
      of the conjunctions; `words[-1]` raises on an empty list. */
  function WithoutTrailingConjunction(words: seq<Word>, conjunctions: seq<string>): (r: Result<seq<Word>>)
    ensures words == [] <==> r == Raised(IndexError)
    ensures r.Ok? ==> r.value <= words
    ensures r.Ok? ==> |words| - |r.value| == if words[|words| - 1] in conjunctions then 1 else 0
  {
    if words == [] then Raised(IndexError)
    else if words[|words| - 1] in conjunctions then Ok(words[..|words| - 1])
    else Ok(words)
  }

  /** `_trailing_commas`: a final comma removes the last two characters
      (`string[:-2]`, empty for a string of one character). */
  function WithoutTrailingComma(text: string): (r: Result<string>)
    ensures text == [] <==> r == Raised(IndexError)
    ensures r.Ok? ==> r.value <= text
    ensures r.Ok? ==> |r.value| == if text[|text| - 1] == ',' then (if |text| >= 2 then |text| - 2 else 0) else |text|
  {
    if text == [] then Raised(IndexError)
    else if text[|text| - 1] == ',' then Ok(if |text| >= 2 then text[..|text| - 2] else [])
    else Ok(text)
  }

  /** `\w` for ASCII: letters, digits and the underscore. */
  predicate IsWordChar(c: char)
  {
    IsLetter(c) || IsDigit(c) || c == '_'
  }

  /** The look-behind class `[.,!?()]`. */
  predicate IsMark(c: char)
  {
    c == '.' || c == ',' || c == '!' || c == '?' || c == '(' || c == ')'
  }

  /** Position `i` matches the pattern of `_punctuation_whitespace`: a word
      character right after a mark and not itself followed by a space. */
  predicate Site(s: string, i: nat)
    requires i < |s|
  {
    0 < i && IsMark(s[i - 1]) && IsWordChar(s[i]) && (i + 1 == |s| || s[i + 1] != ' ')
  }

  /** The substitution from position `i` on: every match `c` becomes the
      replacement `\0 \1`, that is NUL, a space and `c`. */
  function Spaced(s: string, i: nat): string
    requires i <= |s|
    decreases |s| - i
  {
    if i == |s| then []
    else (if Site(s, i) then ['\0', ' ', s[i]] else [s[i]]) + Spaced(s, i + 1)
  }

  /** The number of matches from position `i` on; none exactly when no position matches. */
  function SiteCount(s: string, i: nat): (n: nat)
    requires i <= |s|
    ensures n == 0 <==> forall j :: i <= j < |s| ==> !Site(s, j)
    decreases |s| - i
  {
    if i == |s| then 0 else (if Site(s, i) then 1 else 0) + SiteCount(s, i + 1)
  }

  /** The substitution adds exactly two characters, the NUL and the space, per match. */
  lemma {:induction false} SpacedLength(s: string, i: nat)
    requires i <= |s|
    ensures |Spaced(s, i)| == |s| - i + 2 * SiteCount(s, i)
    decreases |s| - i
  {
    if i < |s| {
      SpacedLength(s, i + 1);
    }
  }

  lemma {:induction false} SpacedWithoutSites(s: string, i: nat)
    requires i <= |s|
    ensures (forall j :: i <= j < |s| ==> !Site(s, j)) ==> Spaced(s, i) == s[i..]
    decreases |s| - i
  {
    if i < |s| {
      SpacedWithoutSites(s, i + 1);
      assert s[i..] == [s[i]] + s[i + 1..];
    }
  }

  /** The substitution from position `i` starts with the NUL of an inserted pair
      at a match and with the character itself elsewhere, and no position after
      its first is a match. */
  lemma {:induction false} SpacedSitesFrom(s: string, i: nat)
    requires i < |s|
    ensures var t := Spaced(s, i);
      && t[0] == (if Site(s, i) then '\0' else s[i])
      && forall j :: 1 <= j < |t| ==> !Site(t, j)
    decreases |s| - i
  {
    var t := Spaced(s, i);
    var piece := if Site(s, i) then ['\0', ' ', s[i]] else [s[i]];
    var u := Spaced(s, i + 1);
    var n := |piece|;
    assert t == piece + u;
    if i + 1 < |s| {
      SpacedSitesFrom(s, i + 1);
      if i + 2 < |s| {
        SpacedSitesFrom(s, i + 2);
        if !Site(s, i + 1) {
          assert u == [s[i + 1]] + Spaced(s, i + 2);
        }
      }
    }
    forall j | 1 <= j < |t|
      ensures !Site(t, j)
    {
      if j > n {
        assert t[j - 1] == u[j - n - 1] && t[j] == u[j - n];
        assert j + 1 < |t| ==> t[j + 1] == u[j - n + 1];
        assert !Site(u, j - n);
      } else if j == n {
        assert t[j - 1] == s[i] && t[j] == u[0];
        assert j + 1 < |t| ==> t[j + 1] == u[1];
      }
    }
  }

  /** `_punctuation_whitespace` puts a space after each match: no position of the
      substituted text is a match. */
  lemma SpacedLeavesNoSites(s: string)
    ensures forall j :: 0 <= j < |Spaced(s, 0)| ==> !Site(Spaced(s, 0), j)
  {
    if s != [] {
      SpacedSitesFrom(s, 0);
    }
  }

  /** Deletes every NUL-space pair of `t`. */
  function WithoutInserted(t: string): string
  {
    if |t| >= 2 && t[0] == '\0' && t[1] == ' ' then WithoutInserted(t[2..])
    else if t == [] then []
    else [t[0]] + WithoutInserted(t[1..])
  }

  /** The substitution only inserts: on a text holding no NUL, deleting the
      NUL-space pairs it put in front of the matches gives the text back. */
  lemma {:induction false} SpacedOnlyInserts(s: string, i: nat)
    requires i <= |s|
    requires '\0' !in s
    ensures WithoutInserted(Spaced(s, i)) == s[i..]
    decreases |s| - i
  {
    if i < |s| {
      var rest := Spaced(s, i + 1);
      SpacedOnlyInserts(s, i + 1);
      assert s[i] != '\0';
      var kept := [s[i]] + rest;
      assert kept[1..] == rest;
      assert WithoutInserted(kept) == [s[i]] + s[i + 1..];
      if Site(s, i) {
        var inserted := ['\0', ' ', s[i]] + rest;
        assert inserted[2..] == kept;
        assert Spaced(s, i) == inserted;
      } else {
        assert Spaced(s, i) == kept;
      }
      assert s[i..] == [s[i]] + s[i + 1..];
    }
  }

  /** `_punctuation_whitespace`: the substitution followed by `strip()`. A text
      with no match is only stripped. */
  function SpacedAfterPunctuation(text: string): (r: string)
    ensures r == [] || (!IsSpace(r[0]) && !IsSpace(r[|r| - 1]))
    ensures (forall i :: 0 <= i < |text| ==> !Site(text, i)) ==> r == Strip(text)
  {
    SpacedWithoutSites(text, 0);
    Strip(Spaced(text, 0))
  }

  /** Token `i` after `_punctuation_capitalization`'s loop: title-cased when its
      predecessor holds `.`, `!` or `?`. */
  function CapitalizedAt(tokens: seq<string>, i: nat): string
    requires i < |tokens|
  {
    if i > 0 && HasTerminal(tokens[i - 1]) then Title(tokens[i]) else tokens[i]
  }

  function Capitalized(tokens: seq<string>): seq<string>
  {
    seq(|tokens|, i requires 0 <= i < |tokens| => CapitalizedAt(tokens, i))
  }

  /** `_punctuation_capitalization`'s result. */
  function CapitalizedAfterPunctuation(text: string): string
  {
    Join(Capitalized(Split(text)))
  }

  lemma TitleKeepsTerminal(w: string)
    ensures HasTerminal(Title(w)) == HasTerminal(w)
  {
    TitleKeepsNonLetters(w, '.');
    TitleKeepsNonLetters(w, '!');
    TitleKeepsNonLetters(w, '?');
  }

  lemma CapitalizedAreTokens(tokens: seq<string>)
    requires AllTokens(tokens)
    ensures AllTokens(Capitalized(tokens))
  {
    forall i | 0 <= i < |tokens| ensures IsToken(Capitalized(tokens)[i]) {
      TitleKeepsToken(tokens[i]);
    }
  }

  /** `_punctuation_capitalization` keeps the whitespace-separated tokens, joined
      by single spaces; the first token never changes, and a later one changes
      only by title-casing, and only after a token holding `.`, `!` or `?`. */
  lemma CapitalizationKeepsTokens(text: string)
    ensures var before, after := Split(text), Split(CapitalizedAfterPunctuation(text));
      && |after| == |before|
      && CapitalizedAfterPunctuation(text) == Join(after)
      && (|before| > 0 ==> after[0] == before[0])
      && forall i :: 0 < i < |before| ==>
           after[i] == (if HasTerminal(before[i - 1]) then Title(before[i]) else before[i])
  {
    CapitalizedAreTokens(Split(text));
    SplitJoin(Capitalized(Split(text)));
  }

  lemma CapitalizedIdempotent(tokens: seq<string>)
    ensures Capitalized(Capitalized(tokens)) == Capitalized(tokens)
  {
    var once := Capitalized(tokens);
    var twice := Capitalized(once);
    forall i | 0 <= i < |tokens| ensures twice[i] == once[i] {
      if i > 0 {
        TitleKeepsTerminal(tokens[i - 1]);
        assert HasTerminal(once[i - 1]) == HasTerminal(tokens[i - 1]);
        if HasTerminal(tokens[i - 1]) {
          TitleIdempotent(tokens[i]);
        }
      }
    }
  }

  /** Capitalising a second time changes nothing. */
  lemma CapitalizationIdempotent(text: string)
    ensures CapitalizedAfterPunctuation(CapitalizedAfterPunctuation(text)) == CapitalizedAfterPunctuation(text)
  {
    var once := Capitalized(Split(text));
    CapitalizedAreTokens(Split(text));
    SplitJoin(once);
    assert Split(Join(once)) == once;
    CapitalizedIdempotent(Split(text));
  }

  /** `_random_trailing_punctuation` with `randint(0, 4)` drawn as `k`: append
      `Punctuations[k]` unless the text already ends in `.`, `!` or `?`. */
  function WithTrailingPunctuation(text: string, k: nat): (r: Result<string>)
    requires k < |Punctuations|
    ensures text == [] <==> r == Raised(IndexError)
    ensures r.Ok? ==> r.value != [] && IsTerminal(r.value[|r.value| - 1])
    ensures r.Ok? && IsTerminal(text[|text| - 1]) ==> r.value == text
    ensures r.Ok? && !IsTerminal(text[|text| - 1]) ==> r.value == text + [Punctuations[k]]
  {
    if text == [] then Raised(IndexError)
    else if text[|text| - 1] !in Punctuations then Ok(text + [Punctuations[k]])
    else Ok(text)
  }

  /** The attributes the filters read and write: `words` and `string`. */
  datatype State = State(words: seq<Word>, text: string)

  /** The state the pipeline left and whether a filter raised. */
  datatype Run = Run(state: State, status: Status)

  /** The bound methods `filter_functions` maps names to. */
  datatype Filter =
    | TrailingConjunctionFilter
    | TrailingCommasFilter
    | PunctuationWhitespaceFilter
    | PunctuationCapitalizationFilter
    | RandomTrailingPunctuationFilter

  /** The key of a filter in `filter_functions`. */
  function Name(f: Filter): string
  {
    match f
    case TrailingConjunctionFilter => "trailing_conjunction"
    case TrailingCommasFilter => "trailing_commas"
    case PunctuationWhitespaceFilter => "punctuation_whitespace"
    case PunctuationCapitalizationFilter => "punctuation_capitalization"
    case RandomTrailingPunctuationFilter => "random_trailing_punctuation"
  }

  /** `filter_functions[name]`: `None` where the lookup raises `KeyError`. */
  function Lookup(name: string): (f: Option<Filter>)
    ensures f.Some? <==> name in DefaultFilters
    ensures f.Some? ==> Name(f.value) == name
  {
    if name == "trailing_conjunction" then Some(TrailingConjunctionFilter)
    else if name == "trailing_commas" then Some(TrailingCommasFilter)
    else if name == "punctuation_whitespace" then Some(PunctuationWhitespaceFilter)
    else if name == "punctuation_capitalization" then Some(PunctuationCapitalizationFilter)
    else if name == "random_trailing_punctuation" then Some(RandomTrailingPunctuationFilter)
    else None
  }

  /** Every filter is found under its own name. */
  lemma LookupName(f: Filter)
    ensures Lookup(Name(f)) == Some(f)
  {
  }

  /** One filter applied to the state. */
  function ApplyFilter(f: Filter, st: State, conjunctions: seq<string>, k: nat): (r: Result<State>)
    requires k < |Punctuations|
    ensures r.Ok? && f != TrailingConjunctionFilter ==> r.value.words == st.words
    ensures r.Ok? && f == TrailingConjunctionFilter ==> r.value.text == st.text
    ensures r.Ok? && f == RandomTrailingPunctuationFilter ==>
              r.value.text != [] && IsTerminal(r.value.text[|r.value.text| - 1])
    ensures r.Raised? ==> r.error == IndexError
  {
    match f
    case TrailingConjunctionFilter =>
      (match WithoutTrailingConjunction(st.words, conjunctions)
       case Ok(ws) => Ok(st.(words := ws))
       case Raised(e) => Raised(e))
    case TrailingCommasFilter =>
      (match WithoutTrailingComma(st.text)
       case Ok(t) => Ok(st.(text := t))
       case Raised(e) => Raised(e))
    case PunctuationWhitespaceFilter =>
      Ok(st.(text := SpacedAfterPunctuation(st.text)))
    case PunctuationCapitalizationFilter =>
      Ok(st.(text := CapitalizedAfterPunctuation(st.text)))
    case RandomTrailingPunctuationFilter =>
      (match WithTrailingPunctuation(st.text, k)
       case Ok(t) => Ok(st.(text := t))
       case Raised(e) => Raised(e))
  }

  /** `_apply_filters`: look each name up and call its filter, in list order; the
      first lookup or filter that raises stops the pipeline, leaving the state
      its predecessors produced. */
  function RunFilters(names: seq<string>, st: State, conjunctions: seq<string>, k: nat): (r: Run)
    requires k < |Punctuations|
    ensures names == [] ==> r == Run(st, Done)
    ensures names != [] && names[0] !in DefaultFilters ==> r == Run(st, Failed(KeyError(names[0])))
    ensures (exists i :: 0 <= i < |names| && names[i] !in DefaultFilters) ==> r.status.Failed?
    ensures "trailing_conjunction" !in names ==> r.state.words == st.words
    decreases |names|
  {
    if names == [] then Run(st, Done)
    else
      match Lookup(names[0])
      case None => Run(st, Failed(KeyError(names[0])))
      case Some(f) =>
        match ApplyFilter(f, st, conjunctions, k)
        case Raised(e) => Run(st, Failed(e))
        case Ok(next) =>
          var r := RunFilters(names[1..], next, conjunctions, k);
          assert forall i :: 1 <= i < |names| ==> names[i] == names[1..][i - 1];
          r
  }

  /** Without `trailing_conjunction` in the list the text a pipeline produces, and
      whether it raises, do not depend on the word list. */
  lemma {:induction false} TextIgnoresWords(names: seq<string>, st1: State, st2: State, conjunctions: seq<string>, k: nat)
    requires k < |Punctuations|
    requires "trailing_conjunction" !in names
    requires st1.text == st2.text
    ensures RunFilters(names, st1, conjunctions, k).state.text == RunFilters(names, st2, conjunctions, k).state.text
    ensures RunFilters(names, st1, conjunctions, k).status == RunFilters(names, st2, conjunctions, k).status
  {
    if names != [] {
      var tail := names[1..];
      assert "trailing_conjunction" !in tail;
      var f := Lookup(names[0]);
      if f.Some? {
        assert f.value != TrailingConjunctionFilter;
        var r1 := ApplyFilter(f.value, st1, conjunctions, k);
        var r2 := ApplyFilter(f.value, st2, conjunctions, k);
        assert r1.Ok? <==> r2.Ok?;
        if r1.Ok? {
          assert r1.value.text == r2.value.text;
          TextIgnoresWords(tail, r1.value, r2.value, conjunctions, k);
        }
      }
    }
  }

  /** `_trailing_conjunction` edits `words` after `string` was joined, so on a
      non-empty chain the default pipeline yields the same text, and raises or
      not alike, with or without it. */
  lemma ConjunctionFilterLeavesText(st: State, conjunctions: seq<string>, k: nat)
    requires k < |Punctuations|
    requires st.words != []
    ensures RunFilters(DefaultFilters, st, conjunctions, k).state.text == RunFilters(DefaultFilters[1..], st, conjunctions, k).state.text
    ensures RunFilters(DefaultFilters, st, conjunctions, k).status == RunFilters(DefaultFilters[1..], st, conjunctions, k).status
  {
    LookupName(TrailingConjunctionFilter);
    var next := ApplyFilter(TrailingConjunctionFilter, st, conjunctions, k);
    assert next.Ok?;
    assert "trailing_conjunction" !in DefaultFilters[1..];
    TextIgnoresWords(DefaultFilters[1..], next.value, st, conjunctions, k);
  }

  /** A pipeline that ends with `random_trailing_punctuation` and raises nothing
      ends its text in `.`, `!` or `?`; the default list is one. */
  lemma {:induction false} PipelineEndsInTerminal(names: seq<string>, st: State, conjunctions: seq<string>, k: nat)
    requires k < |Punctuations|
    requires names != [] && names[|names| - 1] == "random_trailing_punctuation"
    ensures var r := RunFilters(names, st, conjunctions, k);
      r.status.Done? ==> r.state.text != [] && IsTerminal(r.state.text[|r.state.text| - 1])
  {
    match Lookup(names[0])
    case None =>
    case Some(f) =>
      match ApplyFilter(f, st, conjunctions, k)
      case Raised(_) =>
      case Ok(next) =>
        if |names| == 1 {
          assert f == RandomTrailingPunctuationFilter;
        } else {
          var tail := names[1..];
          assert tail[|tail| - 1] == names[|names| - 1];
          PipelineEndsInTerminal(tail, next, conjunctions, k);
        }
  }

  /** The `Sentence` object. */
  class Sentence {
    const chain: Chain
    var words: seq<Word>
    var text: string
    const maxCharacters: nat
    const filters: seq<string>
    const conjunctions: seq<string>

    /** `__init__`, given the lines of `conjunctions.txt`; `filters` is `None`
        for the default list. */
    constructor (chain: Chain, maxCharacters: nat, filters: Option<seq<string>>, conjunctions: seq<string>)
      ensures this.chain == chain && this.maxCharacters == maxCharacters
      ensures this.filters == if filters.Some? then filters.value else DefaultFilters
      ensures this.conjunctions == conjunctions
      ensures words == [] && text == ""
    {
      this.chain := chain;
      this.maxCharacters := maxCharacters;
      this.filters := if filters.Some? then filters.value else DefaultFilters;
      this.conjunctions := conjunctions;
      words := [];
      text := "";
    }

    /** `generate`: run the chain (with `max_characters` steps) attempt after
        attempt, skipping attempts that raise or that the gate rejects; join the
        accepted words and filter them. `accepted` is false when every given
        attempt was skipped, where `generate` would keep drawing. */
    method Generate(attempts: seq<Draws>, k: nat) returns (accepted: bool, status: Status)
      requires chain.Valid()
      requires k < |Punctuations|
      requires forall i :: 0 <= i < |attempts| ==> DrawsFit(chain.corpus, maxCharacters, attempts[i])
      modifies this`words, this`text, chain`values
      ensures chain.Valid()
      ensures var outcomes := AttemptOutcomes(chain.corpus, chain.model, maxCharacters, attempts);
              && (accepted <==> exists i :: 0 <= i < |attempts| && Passes(outcomes[i]))
              && (accepted ==> exists i :: 0 <= i < |attempts| && Passes(outcomes[i])
                                 && (forall j :: 0 <= j < i ==> !Passes(outcomes[j]))
                                 && chain.values == outcomes[i].0)
              && (!accepted && attempts != [] ==> chain.values == outcomes[|attempts| - 1].0)
      ensures attempts == [] ==> chain.values == old(chain.values)
      ensures accepted ==> |chain.values| == maxCharacters + 1 && Acceptable(chain.values)
      ensures accepted ==> !IsLower(chain.values[0])
      ensures accepted ==> forall t :: 0 <= t < |chain.values| - 1 ==>
                             Adjacent(chain.corpus, chain.values[t], chain.values[t + 1])
      ensures accepted ==>
        Run(State(words, text), status) == RunFilters(filters, State(chain.values, Join(chain.values)), conjunctions, k)
      ensures !accepted ==> words == old(words) && text == old(text) && status == Done
    {
      accepted := Retry(attempts);
      ghost var outcomes := AttemptOutcomes(chain.corpus, chain.model, maxCharacters, attempts);
      FirstPassingIsFirst(outcomes, 0);
      if !accepted {
        return accepted, Done;
      }
      ghost var first := FirstPassing(outcomes, 0).value;
      AttemptOutcomesAt(chain.corpus, chain.model, maxCharacters, attempts, first);
      PassesShape(chain.corpus, chain.model, maxCharacters, attempts[first]);
      words := chain.values;
      text := Join(words);
      status := ApplyFilters(k);
    }

    /** `generate`'s loop: generate chains until one passes the gate, at most once per attempt. */
    method Retry(attempts: seq<Draws>) returns (accepted: bool)
      requires chain.Valid()
      requires forall i :: 0 <= i < |attempts| ==> DrawsFit(chain.corpus, maxCharacters, attempts[i])
      modifies chain`values
      ensures chain.Valid()
      ensures var outcomes := AttemptOutcomes(chain.corpus, chain.model, maxCharacters, attempts);
              && (accepted <==> FirstPassing(outcomes, 0).Some?)
              && (accepted ==> chain.values == outcomes[FirstPassing(outcomes, 0).value].0)
              && (!accepted && attempts != [] ==> chain.values == outcomes[|attempts| - 1].0)
      ensures attempts == [] ==> chain.values == old(chain.values)
    {
      ghost var corpus, m := chain.corpus, chain.model;
      ghost var outcomes := AttemptOutcomes(corpus, m, maxCharacters, attempts);
      var tooManyWordOccurrences := true;
      var i := 0;
      while tooManyWordOccurrences && i < |attempts|
        invariant 0 <= i <= |attempts|
        invariant chain.Valid() && chain.corpus == corpus && chain.model == m
        invariant i == 0 ==> chain.values == old(chain.values)
        invariant i > 0 ==> chain.values == outcomes[i - 1].0
        invariant tooManyWordOccurrences ==> FirstPassing(outcomes, i) == FirstPassing(outcomes, 0)
        invariant !tooManyWordOccurrences ==> i > 0 && FirstPassing(outcomes, 0) == Some(i - 1)
        decreases |attempts| - i
      {
        var passes := GenerateOnce(attempts, i, outcomes);
        FirstPassingStep(outcomes, i);
        tooManyWordOccurrences := !passes;
        i := i + 1;
      }
      accepted := !tooManyWordOccurrences;
    }

    /** One pass of `generate`'s loop: `chain.generate`, whose exception is caught, then the gate. */
    method GenerateOnce(attempts: seq<Draws>, i: nat, ghost outcomes: seq<Outcome>) returns (passes: bool)
      requires chain.Valid()
      requires forall j :: 0 <= j < |attempts| ==> DrawsFit(chain.corpus, maxCharacters, attempts[j])
      requires i < |attempts| && outcomes == AttemptOutcomes(chain.corpus, chain.model, maxCharacters, attempts)
      modifies chain`values
      ensures chain.Valid()
      ensures chain.values == outcomes[i].0
      ensures passes <==> Passes(outcomes[i])
    {
      AttemptOutcomesAt(chain.corpus, chain.model, maxCharacters, attempts, i);
      var outcome := chain.Generate(maxCharacters, attempts[i]);
      if outcome.Failed? {
        return false;
      }
      var tooMany := TooManyOccurrences(chain.values);
      passes := !tooMany;
    }

    /** `_apply_filters`: dispatch each name of `filters` to its method. */
    method ApplyFilters(k: nat) returns (status: Status)
      requires k < |Punctuations|
      modifies this`words, this`text
      ensures Run(State(words, text), status) == RunFilters(filters, State(old(words), old(text)), conjunctions, k)
    {
      var i := 0;
      while i < |filters|
        invariant 0 <= i <= |filters|
        invariant RunFilters(filters[i..], State(words, text), conjunctions, k)
               == RunFilters(filters, State(old(words), old(text)), conjunctions, k)
      {
        var name := filters[i];
        assert filters[i..][0] == name && filters[i..][1..] == filters[i + 1..];
        var filter := Lookup(name);
        if filter.None? {
          return Failed(KeyError(name));
        }
        status := Call(filter.value, k);
        if status.Failed? {
          return;
        }
        i := i + 1;
      }
      status := Done;
    }

    /** Call the bound method `filter_functions` holds for `f`. */
    method Call(f: Filter, k: nat) returns (status: Status)
      requires k < |Punctuations|
      modifies this`words, this`text
      ensures status.Done? ==> ApplyFilter(f, State(old(words), old(text)), conjunctions, k) == Ok(State(words, text))
      ensures status.Failed? ==> ApplyFilter(f, State(old(words), old(text)), conjunctions, k) == Raised(status.error)
                                 && words == old(words) && text == old(text)
    {
      match f {
        case TrailingConjunctionFilter =>
          status := TrailingConjunction();
        case TrailingCommasFilter =>
          status := TrailingCommas();
        case PunctuationWhitespaceFilter =>
          PunctuationWhitespace();
          status := Done;
        case PunctuationCapitalizationFilter =>
          PunctuationCapitalization();
          status := Done;
        case RandomTrailingPunctuationFilter =>
          status := RandomTrailingPunctuation(k);
      }
    }

    method TrailingConjunction() returns (status: Status)
      modifies this`words
      ensures status.Done? ==> WithoutTrailingConjunction(old(words), conjunctions) == Ok(words)
      ensures status.Failed? ==> WithoutTrailingConjunction(old(words), conjunctions) == Raised(status.error)
                                 && words == old(words)
    {
      if words == [] {
        return Failed(IndexError);
      }
      if words[|words| - 1] in conjunctions {
        words := words[..|words| - 1];
      }
      status := Done;
    }

    method TrailingCommas() returns (status: Status)
      modifies this`text
      ensures status.Done? ==> WithoutTrailingComma(old(text)) == Ok(text)
      ensures status.Failed? ==> WithoutTrailingComma(old(text)) == Raised(status.error) && text == old(text)
    {
      if text == [] {
        return Failed(IndexError);
      }
      if text[|text| - 1] == ',' {
        text := if |text| >= 2 then text[..|text| - 2] else [];
      }
      status := Done;
    }

    method PunctuationWhitespace()
      modifies this`text
      ensures text == SpacedAfterPunctuation(old(text))
    {
      text := SpacedAfterPunctuation(text);
    }

    /** `_punctuation_capitalization`: title-case, in place in the token list,
        each token that follows one holding `.`, `!` or `?`. */
    method PunctuationCapitalization()
      modifies this`text
      ensures text == CapitalizedAfterPunctuation(old(text))
    {
      var tokens := Split(text);
      ghost var original := tokens;
      var idx := 0;
      while idx + 1 < |tokens|
        invariant |tokens| == |original|
        invariant 0 <= idx && (idx < |tokens| || idx == 0)
        invariant forall j :: 0 <= j <= idx && j < |tokens| ==> tokens[j] == CapitalizedAt(original, j)
        invariant forall j :: idx < j < |tokens| ==> tokens[j] == original[j]
      {
        TitleKeepsTerminal(original[idx]);
        assert HasTerminal(tokens[idx]) == HasTerminal(original[idx]);
        if |tokens[idx]| > 0 {
          if HasTerminal(tokens[idx]) {
            tokens := tokens[idx + 1 := Title(tokens[idx + 1])];
          }
        }
        idx := idx + 1;
      }
      assert tokens == Capitalized(original);
      text := Join(tokens);
    }

    method RandomTrailingPunctuation(k: nat) returns (status: Status)
      requires k < |Punctuations|
      modifies this`text
      ensures status.Done? ==> WithTrailingPunctuation(old(text), k) == Ok(text)
      ensures status.Failed? ==> WithTrailingPunctuation(old(text), k) == Raised(status.error) && text == old(text)
    {
      if text == [] {
        return Failed(IndexError);
      }
      if text[|text| - 1] !in Punctuations {
        text := text + [Punctuations[k]];
      }
      status := Done;
    }
  }
}
