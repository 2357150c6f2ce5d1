/** The bigram Markov chain of `src/chain.py`: the corpus, its adjacent word
    pairs, the nested count table `word -> {next_word -> count}`, the weighted
    choice of a successor and the walk that produces a chain of words. */
module Markov {
  import opened Outcomes
  import opened Dicts
  import opened Text

  type Word = string

  type Pair = (Word, Word)

  /** `{next_word: count}`, in the order the successors were first seen. */
  type Distribution = Dict<nat>

  /** `{word: distribution}`, in the order the words were first seen. */
  type Model = Dict<Distribution>

  /** `make_pairs`: the adjacent pairs of the corpus, in corpus order. */
  function MakePairs(corpus: seq<Word>): (pairs: seq<Pair>)
    ensures |pairs| == if |corpus| == 0 then 0 else |corpus| - 1
    ensures forall i {:trigger pairs[i]} :: 0 <= i < |pairs| ==> pairs[i] == (corpus[i], corpus[i + 1])
  {
    if |corpus| < 2 then [] else [(corpus[0], corpus[1])] + MakePairs(corpus[1..])
  }

  /** The inner update of `instantiate_model`'s loop: raise the count of `w` by
      one, or enter `w` with count 1. */
  function Bump(d: Distribution, w: Word): (r: Distribution)
    ensures Keys(r) == Keys(d) + {w}
    ensures Get(r, w) == Some(GetOr(d, w, 0) + 1)
    ensures forall b :: b != w ==> Get(r, b) == Get(d, b)
    ensures SumValues(r) == SumValues(d) + 1
    ensures DistinctKeys(d) ==> DistinctKeys(r)
    ensures (forall e :: e in d ==> e.1 >= 1) ==> forall e :: e in r ==> e.1 >= 1
  {
    match Get(d, w)
    case Some(c) =>
      PutSum(d, w, c + 1);
      PutEntries(d, w, c + 1);
      Put(d, w, c + 1)
    case None =>
      PutSum(d, w, 1);
      PutEntries(d, w, 1);
      Put(d, w, 1)
  }

  /** One iteration of `instantiate_model`'s loop: bump `p.1` in the inner
      dictionary of `p.0`, creating that dictionary when `p.0` is new. */
  function AddPair(m: Model, p: Pair): Model
  {
    match Get(m, p.0)
    case Some(next) => Put(m, p.0, Bump(next, p.1))
    case None => Put(m, p.0, [(p.1, 1)])
  }

  /** The table `instantiate_model` builds from `pairs`, processing them in order. */
  function ModelOf(pairs: seq<Pair>): Model
  {
    if |pairs| == 0 then [] else AddPair(ModelOf(pairs[..|pairs| - 1]), pairs[|pairs| - 1])
  }

  /** `model[a][b]`, or 0 where either lookup fails. */
  function Count(m: Model, a: Word, b: Word): nat
  {
    match Get(m, a)
    case Some(next) => GetOr(next, b, 0)
    case None => 0
  }

  /** A distribution `walk` can normalise: distinct, positive counts, at least one. */
  predicate WellFormedDistribution(d: Distribution)
  {
    |d| > 0 && DistinctKeys(d) && forall e :: e in d ==> e.1 >= 1
  }

  /** No stored count is 0 and no inner dictionary is empty. */
  predicate WellFormed(m: Model)
  {
    DistinctKeys(m) && forall e :: e in m ==> WellFormedDistribution(e.1)
  }

  /** The sum of all counts in the table. */
  function ModelTotal(m: Model): nat
  {
    if |m| == 0 then 0 else SumValues(m[0].1) + ModelTotal(m[1..])
  }

  /** `a` is immediately followed by `b` somewhere in the corpus. */
  ghost predicate Adjacent(corpus: seq<Word>, a: Word, b: Word)
  {
    exists i, j :: 0 <= i && j == i + 1 && j < |corpus| && corpus[i] == a && corpus[j] == b
  }

  lemma WellFormedLookup(m: Model, w: Word)
    requires WellFormed(m) && w in Keys(m)
    ensures WellFormedDistribution(Get(m, w).value)
  {
  }

  lemma PositiveTotal(d: Distribution)
    requires WellFormedDistribution(d)
    ensures SumValues(d) >= 1
  {
  }

  /** A count of an entry that exists is the count stored for it. */
  lemma GetOrPositive(d: Distribution, w: Word)
    requires WellFormedDistribution(d)
    ensures GetOr(d, w, 0) >= 1 <==> w in Keys(d)
  {
    if w in Keys(d) {
      var i :| 0 <= i < |d| && d[i] == (w, Get(d, w).value);
    }
  }

  /** Adding a pair raises its own count by one and leaves every other count. */
  lemma AddPairCount(m: Model, p: Pair, a: Word, b: Word)
    ensures Count(AddPair(m, p), a, b) == Count(m, a, b) + (if p == (a, b) then 1 else 0)
  {
    var m' := AddPair(m, p);
    if a != p.0 {
      assert Get(m', a) == Get(m, a);
    } else {
      match Get(m, p.0)
      case Some(next) =>
        assert Get(m', a) == Some(Bump(next, p.1));
      case None =>
        assert Get(m', a) == Some([(p.1, 1)]);
        assert Get([(p.1, 1)], b) == if b == p.1 then Some(1) else None;
    }
  }

  lemma PutWellFormed(m: Model, k: Word, d: Distribution)
    requires WellFormed(m) && WellFormedDistribution(d)
    ensures WellFormed(Put(m, k, d))
  {
    PutEntries(m, k, d);
  }

  lemma AddPairWellFormed(m: Model, p: Pair)
    requires WellFormed(m)
    ensures WellFormed(AddPair(m, p))
  {
    match Get(m, p.0)
    case Some(next) =>
      WellFormedLookup(m, p.0);
      assert |Bump(next, p.1)| > 0;
      PutWellFormed(m, p.0, Bump(next, p.1));
    case None =>
      assert [(p.1, 1)][0] == (p.1, 1);
      PutWellFormed(m, p.0, [(p.1, 1)]);
  }

  /** After `instantiate_model`, `model[a][b]` is the number of times the pair
      `(a, b)` was processed. */
  lemma {:induction false} ModelCounts(pairs: seq<Pair>, a: Word, b: Word)
    ensures Count(ModelOf(pairs), a, b) == multiset(pairs)[(a, b)]
  {
    if |pairs| > 0 {
      var n := |pairs| - 1;
      assert pairs == pairs[..n] + [pairs[n]];
      ModelCounts(pairs[..n], a, b);
      AddPairCount(ModelOf(pairs[..n]), pairs[n], a, b);
    }
  }

  /** Every stored count is at least 1 and no inner dictionary is empty. */
  lemma {:induction false} ModelWellFormed(pairs: seq<Pair>)
    ensures WellFormed(ModelOf(pairs))
  {
    if |pairs| > 0 {
      ModelWellFormed(pairs[..|pairs| - 1]);
      AddPairWellFormed(ModelOf(pairs[..|pairs| - 1]), pairs[|pairs| - 1]);
    }
  }

  /** The outer keys are exactly the first words of the processed pairs. */
  lemma {:induction false} ModelKeys(pairs: seq<Pair>)
    ensures Keys(ModelOf(pairs)) == set p | p in pairs :: p.0
  {
    if |pairs| > 0 {
      var n := |pairs| - 1;
      assert pairs == pairs[..n] + [pairs[n]];
      ModelKeys(pairs[..n]);
    }
  }

  lemma PairsFirstWords(corpus: seq<Word>, w: Word)
    ensures w in (set p | p in MakePairs(corpus) :: p.0) <==> exists i :: 0 <= i < |corpus| - 1 && corpus[i] == w
  {
    var pairs := MakePairs(corpus);
    if w in set p | p in pairs :: p.0 {
      var p :| p in pairs && p.0 == w;
      var i :| 0 <= i < |pairs| && pairs[i] == p;
      assert pairs[i] == (corpus[i], corpus[i + 1]);
    }
    if exists i :: 0 <= i < |corpus| - 1 && corpus[i] == w {
      var i :| 0 <= i < |corpus| - 1 && corpus[i] == w;
      assert pairs[i] in pairs;
    }
  }

  /** The outer keys of the corpus model are the words at every position but the last. */
  lemma CorpusKeys(corpus: seq<Word>, w: Word)
    ensures w in Keys(ModelOf(MakePairs(corpus))) <==> exists i :: 0 <= i < |corpus| - 1 && corpus[i] == w
  {
    ModelKeys(MakePairs(corpus));
    PairsFirstWords(corpus, w);
  }

  /** The pairs of the corpus are exactly its adjacent words. */
  lemma PairsAreAdjacent(corpus: seq<Word>, a: Word, b: Word)
    ensures (a, b) in MakePairs(corpus) <==> Adjacent(corpus, a, b)
  {
    var pairs := MakePairs(corpus);
    if Adjacent(corpus, a, b) {
      var i, j :| 0 <= i && j == i + 1 && j < |corpus| && corpus[i] == a && corpus[j] == b;
      assert pairs[i] == (a, b);
    }
    if (a, b) in pairs {
      var i :| 0 <= i < |pairs| && pairs[i] == (a, b);
      assert pairs[i] == (corpus[i], corpus[i + 1]);
      assert Adjacent(corpus, a, b) by { assert corpus[i] == a && corpus[i + 1] == b; }
    }
  }

  /** A word follows another in the model exactly when it follows it in the corpus. */
  lemma ObservedSuccessor(corpus: seq<Word>, a: Word, b: Word)
    ensures Count(ModelOf(MakePairs(corpus)), a, b) >= 1 <==> Adjacent(corpus, a, b)
  {
    ModelCounts(MakePairs(corpus), a, b);
    PairsAreAdjacent(corpus, a, b);
  }

  lemma {:induction false} PutTotal(m: Model, k: Word, d: Distribution)
    ensures ModelTotal(Put(m, k, d)) + SumValues(GetOr(m, k, [])) == ModelTotal(m) + SumValues(d)
  {
    if |m| != 0 && m[0].0 != k {
      PutTotal(m[1..], k, d);
    }
  }

  lemma AddPairTotal(m: Model, p: Pair)
    ensures ModelTotal(AddPair(m, p)) == ModelTotal(m) + 1
  {
    match Get(m, p.0)
    case Some(next) =>
      PutTotal(m, p.0, Bump(next, p.1));
    case None =>
      PutTotal(m, p.0, [(p.1, 1)]);
      assert SumValues([(p.1, 1)]) == 1;
  }

  /** The counts in the table add up to the number of pairs processed. */
  lemma {:induction false} ModelTotalIsPairCount(pairs: seq<Pair>)
    ensures ModelTotal(ModelOf(pairs)) == |pairs|
  {
    if |pairs| > 0 {
      ModelTotalIsPairCount(pairs[..|pairs| - 1]);
      AddPairTotal(ModelOf(pairs[..|pairs| - 1]), pairs[|pairs| - 1]);
    }
  }

  /** For a corpus of at least one word the counts add up to `len(corpus) - 1`. */
  lemma CorpusTotal(corpus: seq<Word>)
    requires |corpus| >= 1
    ensures ModelTotal(ModelOf(MakePairs(corpus))) == |corpus| - 1
  {
    ModelTotalIsPairCount(MakePairs(corpus));
  }

  /** The counts depend only on the multiset of pairs, not on their order:
      tables built from two orderings agree on every count and on their keys. */
  lemma OrderInsensitive(pairs1: seq<Pair>, pairs2: seq<Pair>)
    requires multiset(pairs1) == multiset(pairs2)
    ensures forall a, b :: Count(ModelOf(pairs1), a, b) == Count(ModelOf(pairs2), a, b)
    ensures Keys(ModelOf(pairs1)) == Keys(ModelOf(pairs2))
  {
    forall a, b ensures Count(ModelOf(pairs1), a, b) == Count(ModelOf(pairs2), a, b) {
      ModelCounts(pairs1, a, b);
      ModelCounts(pairs2, a, b);
    }
    ModelKeys(pairs1);
    ModelKeys(pairs2);
    assert forall p :: p in pairs1 <==> p in multiset(pairs1);
    assert forall p :: p in pairs2 <==> p in multiset(pairs2);
  }

  /** `walk`: the successor whose slice of `[0, sum(counts))` contains the draw
      `r`, slices laid out in the distribution's order. */
  function Walk(d: Distribution, r: nat): (w: Word)
    requires r < SumValues(d)
    ensures w in Keys(d)
  {
    if r < d[0].1 then
      assert d[0] in d;
      d[0].0
    else
      assert Keys(d[1..]) <= Keys(d) by {
        forall i | 0 <= i < |d| - 1 ensures d[1..][i].0 in Keys(d) { assert d[1..][i] == d[i + 1]; }
      }
      Walk(d[1..], r - d[0].1)
  }

  /** The number of draws in `[0, n)` for which `walk` picks `w`. */
  function Hits(d: Distribution, w: Word, n: nat): nat
    requires n <= SumValues(d)
  {
    if n == 0 then 0 else Hits(d, w, n - 1) + (if Walk(d, n - 1) == w then 1 else 0)
  }

  lemma {:induction false} HitsHead(d: Distribution, w: Word, n: nat)
    requires |d| > 0 && n <= d[0].1
    ensures Hits(d, w, n) == if w == d[0].0 then n else 0
  {
    if n > 0 {
      HitsHead(d, w, n - 1);
    }
  }

  lemma {:induction false} HitsTail(d: Distribution, w: Word, k: nat)
    requires |d| > 0 && k <= SumValues(d[1..])
    ensures Hits(d, w, d[0].1 + k) == Hits(d, w, d[0].1) + Hits(d[1..], w, k)
  {
    if k > 0 {
      HitsTail(d, w, k - 1);
    }
  }

  /** `walk` is proportional to the counts: of the `sum(counts)` equally likely
      draws, exactly `count(w)` select `w`. */
  lemma {:induction false} WalkProportional(d: Distribution, w: Word)
    requires DistinctKeys(d)
    ensures Hits(d, w, SumValues(d)) == GetOr(d, w, 0)
  {
    if |d| > 0 {
      var tail := d[1..];
      HitsHead(d, w, d[0].1);
      HitsTail(d, w, SumValues(tail));
      WalkProportional(tail, w);
    }
  }

  /** One step of `generate`'s loop: `walk(model[w])` with the draw reduced to
      the distribution's total, or `None` where `model[w]` raises `KeyError`. */
  function Step(m: Model, w: Word, r: nat): (next: Option<Word>)
    requires WellFormed(m)
    ensures next.Some? <==> w in Keys(m)
    ensures next.Some? ==> Count(m, w, next.value) >= 1
  {
    match Get(m, w)
    case None => None
    case Some(d) =>
      WellFormedLookup(m, w);
      PositiveTotal(d);
      var next := Walk(d, r % SumValues(d));
      GetOrPositive(d, next);
      Some(next)
  }

  /** A chain of words the model's steps produced is a chain of corpus neighbours. */
  lemma ChainIsObserved(corpus: seq<Word>, m: Model, values: seq<Word>, draws: seq<nat>)
    requires m == ModelOf(MakePairs(corpus)) && WellFormed(m)
    requires |values| <= |draws| + 1
    requires forall i :: 0 <= i < |values| - 1 ==> Step(m, values[i], draws[i]) == Some(values[i + 1])
    ensures forall i :: 0 <= i < |values| - 1 ==> Adjacent(corpus, values[i], values[i + 1])
  {
    forall i | 0 <= i < |values| - 1 ensures Adjacent(corpus, values[i], values[i + 1]) {
      assert Step(m, values[i], draws[i]) == Some(values[i + 1]);
      ObservedSuccessor(corpus, values[i], values[i + 1]);
    }
  }

  /** The draws one call of `generate` consumes: corpus indices for the first
      word, retried while the word is all lower case, and one draw per step. */
  datatype Draws = Draws(firstDraws: seq<nat>, stepDraws: seq<nat>)

  /** The draws let `generate(steps)` finish its first-word loop and its steps. */
  predicate DrawsFit(corpus: seq<Word>, steps: nat, draws: Draws)
  {
    && (forall i :: 0 <= i < |draws.firstDraws| ==> draws.firstDraws[i] < |corpus|)
    && (exists i :: 0 <= i < |draws.firstDraws| && !IsLower(corpus[draws.firstDraws[i]]))
    && |draws.stepDraws| >= steps
  }

  /** The first-word loop of `generate` as a function: from the `j`-th draw on,
      the first drawn word that is not all lower case. */
  function FirstChoice(corpus: seq<Word>, firstDraws: seq<nat>, j: nat): (w: Word)
    requires forall i :: 0 <= i < |firstDraws| ==> firstDraws[i] < |corpus|
    requires exists i :: j <= i < |firstDraws| && !IsLower(corpus[firstDraws[i]])
    ensures !IsLower(w)
    ensures exists i :: j <= i < |firstDraws| && w == corpus[firstDraws[i]]
                        && forall k :: j <= k < i ==> IsLower(corpus[firstDraws[k]])
    decreases |firstDraws| - j
  {
    if !IsLower(corpus[firstDraws[j]]) then corpus[firstDraws[j]]
    else
      assert exists i :: j + 1 <= i < |firstDraws| && !IsLower(corpus[firstDraws[i]]) by {
        var i :| j <= i < |firstDraws| && !IsLower(corpus[firstDraws[i]]);
        assert i != j;
      }
      FirstChoice(corpus, firstDraws, j + 1)
  }

  /** The loop that draws the first word: the draws are tried in order until a
      word is not all lower case. */
  method FirstWord(corpus: seq<Word>, firstDraws: seq<nat>) returns (firstWord: Word)
    requires forall i :: 0 <= i < |firstDraws| ==> firstDraws[i] < |corpus|
    requires exists i :: 0 <= i < |firstDraws| && !IsLower(corpus[firstDraws[i]])
    ensures firstWord == FirstChoice(corpus, firstDraws, 0)
    ensures !IsLower(firstWord)
    ensures exists j :: 0 <= j < |firstDraws| && firstWord == corpus[firstDraws[j]]
                        && forall k :: 0 <= k < j ==> IsLower(corpus[firstDraws[k]])
  {
    ghost var w :| 0 <= w < |firstDraws| && !IsLower(corpus[firstDraws[w]]);
    var j := 0;
    firstWord := corpus[firstDraws[0]];
    while IsLower(firstWord)
      invariant 0 <= j <= w
      invariant firstWord == corpus[firstDraws[j]]
      invariant FirstChoice(corpus, firstDraws, j) == FirstChoice(corpus, firstDraws, 0)
      decreases w - j
    {
      j := j + 1;
      firstWord := corpus[firstDraws[j]];
    }
  }

  /** The steps of `generate` from step `i` on, `values` holding the words so
      far: the words and the outcome once `steps` steps are taken, or once
      `self.model[self.values[-1]]` raises `KeyError`. */
  function WalkFrom(m: Model, values: seq<Word>, stepDraws: seq<nat>, i: nat, steps: nat): (seq<Word>, Status)
    requires WellFormed(m) && values != [] && i <= steps <= |stepDraws|
    decreases steps - i
  {
    if i == steps then (values, Done)
    else
      match Step(m, values[|values| - 1], stepDraws[i])
      case None => (values, Failed(KeyError(values[|values| - 1])))
      case Some(next) => WalkFrom(m, values + [next], stepDraws, i + 1, steps)
  }

  /** The steps only append: each appended word is the step from the word
      before it; the outcome is `Done` exactly when all `steps` steps were taken,
      and otherwise the last word has no entry in the model. */
  lemma {:induction false} WalkFromShape(m: Model, values: seq<Word>, stepDraws: seq<nat>, i: nat, steps: nat)
    requires WellFormed(m) && |values| == i + 1 && i <= steps <= |stepDraws|
    requires forall t :: 0 <= t < i ==> Step(m, values[t], stepDraws[t]) == Some(values[t + 1])
    ensures var (vs, status) := WalkFrom(m, values, stepDraws, i, steps);
      && |values| <= |vs| <= steps + 1
      && vs[..|values|] == values
      && (forall t :: 0 <= t < |vs| - 1 ==> Step(m, vs[t], stepDraws[t]) == Some(vs[t + 1]))
      && (status.Done? <==> |vs| == steps + 1)
      && (status.Failed? ==> status.error == KeyError(vs[|vs| - 1]) && vs[|vs| - 1] !in Keys(m))
    decreases steps - i
  {
    if i < steps {
      var next := Step(m, values[|values| - 1], stepDraws[i]);
      if next.Some? {
        var longer := values + [next.value];
        forall t | 0 <= t < i + 1
          ensures Step(m, longer[t], stepDraws[t]) == Some(longer[t + 1])
        {
          if t < i {
            assert longer[t] == values[t] && longer[t + 1] == values[t + 1];
          }
        }
        WalkFromShape(m, longer, stepDraws, i + 1, steps);
        var vs := WalkFrom(m, longer, stepDraws, i + 1, steps).0;
        assert vs[..|values|] == longer[..|values|] == values;
      }
    }
  }

  /** What one call of `generate(steps)` leaves in `values`, and whether it
      raised, for the given draws. */
  function Attempt(corpus: seq<Word>, m: Model, steps: nat, draws: Draws): (seq<Word>, Status)
    requires WellFormed(m) && DrawsFit(corpus, steps, draws)
  {
    WalkFrom(m, [FirstChoice(corpus, draws.firstDraws, 0)], draws.stepDraws, 0, steps)
  }

  /** One call of `generate(steps)`: the first word is the first drawn word that
      is not all lower case, every later word is the step from the one before
      and follows it in the corpus, and the call raises `KeyError` exactly when
      it stops short of `steps + 1` words, at a word with no entry. */
  lemma AttemptShape(corpus: seq<Word>, m: Model, steps: nat, draws: Draws)
    requires m == ModelOf(MakePairs(corpus)) && WellFormed(m)
    requires DrawsFit(corpus, steps, draws)
    ensures var (values, status) := Attempt(corpus, m, steps, draws);
      && 1 <= |values| <= steps + 1
      && values[0] == FirstChoice(corpus, draws.firstDraws, 0)
      && !IsLower(values[0])
      && (forall i :: 0 <= i < |values| - 1 ==> Step(m, values[i], draws.stepDraws[i]) == Some(values[i + 1]))
      && (forall i :: 0 <= i < |values| - 1 ==> Adjacent(corpus, values[i], values[i + 1]))
      && (status.Done? <==> |values| == steps + 1)
      && (status.Failed? ==> status.error == KeyError(values[|values| - 1]) && values[|values| - 1] !in Keys(m))
  {
    var first := [FirstChoice(corpus, draws.firstDraws, 0)];
    WalkFromShape(m, first, draws.stepDraws, 0, steps);
    var values := Attempt(corpus, m, steps, draws).0;
    assert values[..1] == first;
    assert values[0] == first[0];
    ChainIsObserved(corpus, m, values, draws.stepDraws);
  }

  /** The `Chain` object: its corpus, pairs, model and the last generated words. */
  class Chain {
    var corpus: seq<Word>
    var corpusPairs: seq<Pair>
    var model: Model
    var values: seq<Word>

    /** The model is the one built from the corpus. */
    ghost predicate Valid()
      reads this`corpus, this`corpusPairs, this`model
    {
      corpusPairs == MakePairs(corpus) && model == ModelOf(corpusPairs) && WellFormed(model)
    }

    constructor ()
      ensures Valid()
      ensures corpus == [] && model == [] && values == []
    {
      corpus, corpusPairs, model, values := [], [], [], [];
    }

    /** `build_model`, given the text the file held. */
    method BuildModel(txt: string)
      modifies this
      ensures Valid()
      ensures corpus == Split(txt)
      ensures values == old(values)
    {
      corpus := Split(txt);
      corpusPairs := MakePairs(corpus);
      model := InstantiateModel();
    }

    /** `instantiate_model`: the count table of `corpusPairs`, built in place. */
    method InstantiateModel() returns (m: Model)
      ensures m == ModelOf(corpusPairs)
      ensures WellFormed(m)
      ensures forall a, b :: Count(m, a, b) == multiset(corpusPairs)[(a, b)]
    {
      m := [];
      var i := 0;
      while i < |corpusPairs|
        invariant 0 <= i <= |corpusPairs|
        invariant m == ModelOf(corpusPairs[..i])
      {
        assert corpusPairs[..i + 1][..i] == corpusPairs[..i];
        m := AddPair(m, corpusPairs[i]);
        i := i + 1;
      }
      assert corpusPairs[..i] == corpusPairs;
      ModelWellFormed(corpusPairs);
      forall a, b ensures Count(m, a, b) == multiset(corpusPairs)[(a, b)] {
        ModelCounts(corpusPairs, a, b);
      }
    }

    /** `generate(steps)`: a first word that is not all lower case, then `steps`
        walk steps. On `KeyError` the words chosen so far stay in `values`. */
    method Generate(steps: nat, draws: Draws) returns (status: Status)
      requires Valid()
      requires DrawsFit(corpus, steps, draws)
      modifies this`values
      ensures Valid()
      ensures 1 <= |values| <= steps + 1
      ensures exists j :: 0 <= j < |draws.firstDraws| && values[0] == corpus[draws.firstDraws[j]]
                          && forall k :: 0 <= k < j ==> IsLower(corpus[draws.firstDraws[k]])
      ensures !IsLower(values[0])
      ensures forall i :: 0 <= i < |values| - 1 ==> Step(model, values[i], draws.stepDraws[i]) == Some(values[i + 1])
      ensures forall i :: 0 <= i < |values| - 1 ==> Adjacent(corpus, values[i], values[i + 1])
      ensures status.Done? <==> |values| == steps + 1
      ensures status.Failed? ==> status.error == KeyError(values[|values| - 1])
                                 && values[|values| - 1] !in Keys(model)
      ensures (values, status) == Attempt(corpus, model, steps, draws)
    {
      ghost var outcome := Attempt(corpus, model, steps, draws);
      AttemptShape(corpus, model, steps, draws);
      var firstWord := FirstWord(corpus, draws.firstDraws);
      values := [firstWord];
      status := TakeSteps(steps, draws.stepDraws);
      assert (values, status) == outcome;
    }

    /** The `for` loop of `generate`: append `walk(self.model[self.values[-1]])`
        `steps` times, stopping where the lookup raises `KeyError`. */
    method TakeSteps(steps: nat, stepDraws: seq<nat>) returns (status: Status)
      requires Valid() && |values| == 1 && steps <= |stepDraws|
      modifies this`values
      ensures Valid()
      ensures (values, status) == WalkFrom(model, old(values), stepDraws, 0, steps)
    {
      for i := 0 to steps
        invariant |values| == i + 1
        invariant WalkFrom(model, values, stepDraws, i, steps) == WalkFrom(model, old(values), stepDraws, 0, steps)
      {
        var current := values[|values| - 1];
        var next := Step(model, current, stepDraws[i]);
        if next.None? {
          return Failed(KeyError(current));
        }
        values := values + [next.value];
      }
      status := Done;
    }
  }
}
