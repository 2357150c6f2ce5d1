# Word-level Markov sentence generator

A Dafny model of the sentence generator of `sapp_bot`. It has two parts.

- **The chain** (`src/chain.py`, module `Markov` in `markov.dfy`). The corpus is
  split on whitespace. `make_pairs` lists its adjacent word pairs.
  `instantiate_model` folds the pairs into a nested count table
  `word -> {next_word -> count}`. `walk` picks a successor with probability
  proportional to its count. `generate(steps)` draws a first word that is not all
  lower case and then takes `steps` walk steps.
- **The sentence** (`src/sentence.py`, module `Sentences` in `sentences.dfy`).
  `generate` reruns the chain until no word occurs more than
  `MAX_WORD_OCCURRENCE` (2) times. It then joins the words with single spaces and
  runs the named filters in list order.

Three helper modules carry the Python semantics the core relies on:

- `Outcomes` (`outcomes.dfy`) holds `Option`, the two exceptions the model
  represents (`KeyError`, `IndexError`), and the `Result`/`Status` of an operation
  that may raise.
- `Dicts` (`dicts.dfy`) holds insertion-ordered dictionaries.
- `Text` (`text.dfy`) holds `str.split()`, `' '.join`, `strip()`, `title()` and
  `islower()`, restricted to ASCII.

Randomness is an explicit input:

- the corpus indices `np.random.choice(self.corpus)` returns, in order;
- one natural number per walk step, reduced modulo the distribution's total;
- the index `randint(0, 4)` returns for the trailing punctuation;
- for `Sentence.generate`, the list of draws for each attempt.

Python dictionaries keep insertion order, and the word `walk` picks for a given
draw depends on that order. So a dictionary is modelled as its list of entries
(`Dicts.Dict`). Assigning to a new key appends an entry; assigning to an existing
key updates it in place.

Facts about the code that shape the model:

- The chain is a bigram model: the next word depends on the current word only,
  through the counts of the words that followed it in the corpus.
- `_trailing_conjunction` removes at most one word, and only from `words`, after
  `string` was already joined. It therefore never changes the output text
  (`Sentences.ConjunctionFilterLeavesText`).
- `_trailing_commas` drops two characters (`string[:-2]`), and the model keeps
  that.
- The filter names are exactly the five keys of `filter_functions`; any other
  name in `filters` raises `KeyError` when the filters run.
- The retry loop of `Sentence.generate` runs until a chain passes; it counts no
  attempts.
- `Sentence.generate` passes `max_characters` to `Chain.generate` as the number
  of walk steps. The chain then has `max_characters + 1` words, so it is not a
  bound on characters.

## Model

| member | source | states |
|---|---|---|
| Markov.MakePairs | src/chain.py:71-75 | yields `max(len(corpus) - 1, 0)` pairs, pair `i` being `(corpus[i], corpus[i+1])` |
| Markov.Bump | src/chain.py:57-61 | the inner update raises the successor's count by one (1 for a new one), adds it to the keys, leaves every other count, raises the sum by one and keeps counts positive and keys distinct |
| Markov.AddPair | src/chain.py:57-63 | definition of one pass of the loop: bump the count of `word_2` in the inner dictionary of `word_1`, or enter `word_1` with `{word_2: 1}`; `Markov.AddPairCount` states its effect on the counts |
| Markov.AddPairCount | src/chain.py:57-63 | one pass raises the count of its own pair by one and leaves every other count |
| Markov.ModelOf | src/chain.py:55-63 | definition of the table the loop builds: `AddPair` folded over the pairs in order from an empty dictionary; `Markov.ModelCounts`, `Markov.ModelWellFormed` and `Markov.ModelKeys` state its contents |
| Markov.Chain.InstantiateModel | src/chain.py:50-63 | the loop builds the table of the pairs processed in order; every count `model[a][b]` is the multiplicity of `(a, b)` among the pairs; the table is well formed |
| Markov.ModelCounts | src/chain.py:56-63 | `model[a][b]` equals the number of processed pairs equal to `(a, b)`, 0 where either lookup fails |
| Markov.ModelWellFormed | src/chain.py:58-63 | every stored count is at least 1, no inner dictionary is empty, keys are distinct (a key is created together with its first successor) |
| Markov.ModelTotalIsPairCount | src/chain.py:56-63 | the sum of all counts equals the number of pairs |
| Markov.CorpusTotal | src/chain.py:56-63 | for a non-empty corpus the counts add up to `len(corpus) - 1` |
| Markov.ModelKeys | src/chain.py:56-63 | the outer keys are exactly the first words of the pairs |
| Markov.CorpusKeys | src/chain.py:56-63 | a word is an outer key exactly when it occurs at some position other than the last |
| Markov.ObservedSuccessor | src/chain.py:56-63 | `model[a][b] >= 1` exactly when `b` immediately follows `a` somewhere in the corpus |
| Markov.OrderInsensitive | src/chain.py:56-63 | two orderings of the same multiset of pairs give the same counts and the same keys |
| Markov.Chain.BuildModel | src/chain.py:14-24 | the corpus is `txt.split()`, the pairs and the model are built from it, and `values` is left as it was |
| Markov.Chain.constructor | src/chain.py:8-12 | a chain starts with no corpus, model or values |
| Markov.Walk | src/chain.py:77-94 | given a draw below the total count, returns a key of the distribution |
| Markov.WalkProportional | src/chain.py:83-92 | of the `sum(counts)` equally likely draws, exactly `count(w)` pick `w`: selection is proportional to the counts |
| Markov.Step | src/chain.py:44 | one step fails (`KeyError`) exactly when the current word is no outer key, and otherwise yields an observed successor |
| Markov.FirstChoice | src/chain.py:37-40 | from a given draw on, the first drawn word that is not all lower case: it is not all lower case, it is one of the drawn words, and every draw before it is all lower case |
| Markov.FirstWord | src/chain.py:37-40 | the first-word loop returns the first drawn word that is not all lower case, every earlier draw being all lower case |
| Markov.WalkFrom | src/chain.py:43-44 | definition of the remaining steps of the `for` loop: stop with `Done` after `steps` steps, stop with `KeyError` on the last word when it has no entry, and otherwise append the walk step and go on; `Markov.WalkFromShape` states its shape |
| Markov.WalkFromShape | src/chain.py:43-44 | the steps only append; each appended word is the walk step from the word before it; the outcome is `Done` exactly when all `steps` steps were taken, and otherwise the step raised `KeyError` on the last word, which is no key |
| Markov.Attempt | src/chain.py:34-44 | definition of one call of `generate(steps)`: the first drawn word that is not all lower case, then the walk steps from it; `Markov.AttemptShape` states its shape |
| Markov.AttemptShape | src/chain.py:34-44 | one call of `generate(steps)` leaves between 1 and `steps + 1` words, starting with the first drawn word that is not all lower case, each next word being the walk step of the previous one and adjacent to it in the corpus; `Done` exactly when it has `steps + 1` words, otherwise `KeyError` on the last word |
| Markov.Chain.TakeSteps | src/chain.py:43-44 | the `for` loop leaves in `values` and in its outcome exactly what the step function gives from the first word |
| Markov.ChainIsObserved | src/chain.py:42-44 | every pair of consecutive words a walk produced is adjacent in the corpus |
| Markov.Chain.Generate | src/chain.py:34-44 | `values` and the outcome are those of one attempt with the given draws (`Attempt`); on success `values` has `steps + 1` words; the first is not all lower case; each next word is the walk step of the previous one and follows it in the corpus; on `KeyError` the last word is no key and the words so far remain |
| Sentences.Acceptable | src/sentence.py:40-44 | definition of the gate: every word of the chain occurs at most `MAX_WORD_OCCURRENCE` times in it; `Sentences.TooManyOccurrences` and `Sentences.AcceptableBoundsEveryWord` relate it to the scan and to word multiplicities |
| Sentences.Occurrences | src/sentence.py:41 | `values.count(w)` is the multiplicity of `w` in the chain |
| Sentences.TooManyOccurrences | src/sentence.py:38-44 | the scan reports too many occurrences exactly when some word occurs more than twice |
| Sentences.AcceptableBoundsEveryWord | src/sentence.py:40-44 | the gate accepts exactly when every word, in the chain or not, occurs at most `MAX_WORD_OCCURRENCE` times |
| Sentences.Sentence.constructor | src/sentence.py:10-26 | `filters` defaults to the five names in order; the conjunctions are given as a list |
| Sentences.FirstPassingIsFirst | src/sentence.py:31-44 | the index the retry loop stops at is the least one whose attempt passes, and there is none exactly when no attempt passes |
| Sentences.PassesShape | src/sentence.py:33-44 | a passing attempt left `max_characters + 1` words that pass the gate, start with a word that is not all lower case and are corpus neighbours |
| Sentences.Sentence.GenerateOnce | src/sentence.py:33-44 | one pass of the loop leaves the words of attempt `i` in `chain.values` and reports whether that attempt neither raised nor failed the gate |
| Sentences.Sentence.Retry | src/sentence.py:31-44 | the retry loop accepts exactly when some attempt passes, and then `chain.values` is the chain of the first passing attempt; otherwise it holds the last attempt's words |
| Sentences.Sentence.Generate | src/sentence.py:29-48 | accepts exactly when some attempt neither raises nor fails the gate; an accepted state comes from the first such attempt, whose chain has `max_characters + 1` words, passes the gate, starts with a word that is not all lower case and consists of corpus neighbours; the state is then the filter pipeline applied to the words and their space join; when nothing is accepted `chain.values` holds the last attempt's words and `words`/`string` are unchanged |
| Sentences.Lookup | src/sentence.py:56-62 | a name is found exactly when it is one of the five filter names, and it is found under that name |
| Sentences.LookupName | src/sentence.py:56-62 | every filter is found under its own name |
| Sentences.ApplyFilter | src/sentence.py:69-96 | only `trailing_conjunction` changes `words`, and it leaves the text; a completed `random_trailing_punctuation` ends the text in `.`, `!` or `?`; the only error a filter raises is `IndexError` |
| Sentences.RunFilters | src/sentence.py:54-66 | no names leave the state as it is; an unknown first name raises `KeyError` on that name before any filter runs; an unknown name anywhere makes the run fail; without `trailing_conjunction` the words are untouched |
| Sentences.Sentence.ApplyFilters | src/sentence.py:54-66 | the dispatch loop leaves the state and outcome of running the filters in order |
| Sentences.Sentence.Call | src/sentence.py:66 | calling the looked-up filter changes the state as that filter does, and leaves it unchanged when the filter raises |
| Sentences.WithoutTrailingConjunction | src/sentence.py:69-72 | on a non-empty word list, removes exactly one last word, and only when it is a conjunction; an empty list raises `IndexError` |
| Sentences.Sentence.TrailingConjunction | src/sentence.py:69-72 | the method edits `words` as the function says and nothing else |
| Sentences.TextIgnoresWords | src/sentence.py:74-96 | without `trailing_conjunction`, the text and outcome of a pipeline do not depend on `words` |
| Sentences.ConjunctionFilterLeavesText | src/sentence.py:46-72 | on a non-empty chain the default pipeline gives the same text and outcome with or without `trailing_conjunction` |
| Sentences.WithoutTrailingComma | src/sentence.py:74-77 | a text ending in `,` becomes its prefix two characters shorter (empty for one character); any other text is unchanged; empty text raises `IndexError` |
| Sentences.Sentence.TrailingCommas | src/sentence.py:74-77 | the method edits `string` as the function says |
| Sentences.SpacedWithoutSites | src/sentence.py:81 | the substitution changes nothing where the pattern has no match |
| Sentences.SiteCount | src/sentence.py:81 | counts the matches of the pattern; the count is 0 exactly when no position matches |
| Sentences.Spaced | src/sentence.py:81 | definition of the substitution: each matching character `c` becomes NUL, space, `c`; every other character is copied |
| Sentences.SpacedLeavesNoSites | src/sentence.py:81 | after the substitution no position matches the pattern: every matched word character is now preceded by a space |
| Sentences.SpacedLength | src/sentence.py:81 | the substitution adds exactly two characters, the NUL and the space, per match |
| Sentences.SpacedOnlyInserts | src/sentence.py:81 | the substitution only inserts NUL-space pairs; deleting them gives back a NUL-free text |
| Sentences.SpacedAfterPunctuation | src/sentence.py:79-81 | the result starts and ends with a non-space character; a text with no match is only stripped |
| Sentences.Sentence.PunctuationWhitespace | src/sentence.py:79-81 | the method sets `string` to the filtered text |
| Sentences.CapitalizedAfterPunctuation | src/sentence.py:83-90 | definition of the filter: split the text, title-case each token whose predecessor holds `.`, `!` or `?`, and join with single spaces; `Sentences.CapitalizationKeepsTokens` states its effect |
| Sentences.CapitalizationKeepsTokens | src/sentence.py:83-90 | the filter keeps the number of tokens and joins them with single spaces; the first token is unchanged; a later token changes only by title-casing, and only after a token holding `.`, `!` or `?` |
| Sentences.CapitalizationIdempotent | src/sentence.py:83-90 | applying the filter twice gives the same text as once |
| Sentences.Sentence.PunctuationCapitalization | src/sentence.py:83-90 | the in-place index loop over the token list computes the filter |
| Sentences.WithTrailingPunctuation | src/sentence.py:92-96 | text already ending in `.`, `!` or `?` is unchanged; otherwise exactly the chosen one of `[".", ".", ".", "!", "?"]` is appended; either way the result ends in terminal punctuation; empty text raises `IndexError` |
| Sentences.Sentence.RandomTrailingPunctuation | src/sentence.py:92-96 | the method edits `string` as the function says |
| Sentences.PipelineEndsInTerminal | src/sentence.py:19-23 | a pipeline whose last filter is `random_trailing_punctuation`, the default one among them, ends its text in `.`, `!` or `?` when nothing raised |
| Text.IsLower | src/chain.py:39 | definition of `islower()`: some character is a lower-case letter and none is an upper-case one; `Text.IsLowerChars` states it character by character |
| Text.IsLowerChars | src/chain.py:39 | `islower()` holds exactly when some character is a lower-case letter and no character is an upper-case letter |
| Text.Join | src/sentence.py:47 | definition of `' '.join`: the strings in order with one space between each two; `Text.SplitJoin` is its inverse on tokens |
| Text.Split | src/chain.py:19 | `split()` yields non-empty tokens without whitespace |
| Text.SplitLeadingSpace | src/chain.py:19 | a leading whitespace character, of any kind, does not change what `split()` returns |
| Text.SplitToken | src/chain.py:19 | `split()` on a token, any whitespace character and more text gives the token followed by the split of the rest |
| Text.SplitAllSpace | src/chain.py:19 | `split()` of a text of whitespace only is empty |
| Text.SplitJoin | src/sentence.py:85-90 | splitting the space join of tokens gives the tokens back |
| Text.TitleFrom | src/sentence.py:89 | `title()` keeps the length and which characters are letters, and changes no other character; a letter is upper-cased exactly when the character before it (or, at the start, the preceding context) is not a letter, and lower-cased otherwise |
| Text.TitleIdempotent | src/sentence.py:89 | title-casing a title-cased word changes nothing |
| Text.Strip | src/sentence.py:81 | `strip()` leaves no whitespace at either end |
| Dicts.DistinctKeysPairwise | src/chain.py:55-63 | `DistinctKeys` holds exactly when the keys at any two positions differ |
| Dicts.Get | src/chain.py:44 | `d[k]` finds a value exactly when `k` is a key, and the value is stored under `k` |
| Dicts.Put | src/chain.py:58-63 | `d[k] = v` adds `k` to the keys, maps it to `v`, leaves other keys, keeps existing entries in place and appends a new key at the end |

## Left out

- Reading the corpus file and `conjunctions.txt` is left out. The text and the
  conjunction list are parameters.
- The dump of the model to `models/markov_dict.txt` is left out. It is write-only
  output.
- `Chain.load_model` is left out. Its body is only `pass`.
- `Sentence.__str__` is left out. It only returns `string`.
- numpy's `random.choice` and the floating-point normaliser in `walk` are
  replaced by integer cumulative-count selection. The draw is a parameter, and
  `Markov.WalkProportional` states the resulting distribution.
- Markov.Chain.Generate: requires the first-word draws to be valid corpus
  indices that include a word that is not all lower case. With no such draw,
  `generate` keeps drawing forever. An empty corpus makes numpy raise
  `ValueError`, which `Sentence.generate` then retries forever.
- Sentences.Sentence.Generate: models a finite list of attempts. When every
  attempt raises or fails the gate, it returns `accepted == false`. `words` and
  `string` are then unchanged, and `chain.values` holds the last attempt's words.
  `generate` would instead keep drawing without end.
- `str.split`, `strip`, `isspace`, `title`, `islower` and the regex class `\w`
  are modelled for ASCII only. Unicode letters, digits and whitespace are not
  modelled.
- In `_punctuation_whitespace`, the `\0` of the replacement is modelled as a NUL
  character, which is how the Python regex engine reads it. Python's
  left-to-right regex scan is modelled as a position-wise match on the original
  text. This equivalence holds because each match is one character wide and the
  look-behind and look-ahead only read the original text.
- `self.corpus_pairs` is a one-shot generator in the source. The model stores it
  as the list of pairs it yields.
- `Chain.corpus`, `Chain.model` and `Chain.values` start as `None` in the
  source. The model starts them as empty; `build_model` and `generate` set them
  before they are read.
- `Sentence.words` starts as `None` in the source. The model starts it as the
  empty list; no filter runs before `generate` sets it.
- `src/twitter_bot.py`, `src/wiki_scraper.py`, `src/base.py` and `main.py` are
  left out. They cover scheduling, posting, scraping, logging and a driver that
  appends trailing punctuation again. These are I/O around the core.
