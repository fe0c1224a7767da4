# Résumé classifier: text logic

A Dafny model of the text handling in `app.py`, a Streamlit page that
classifies uploaded PDF résumés and writes a short comment for each. Four
parts are modelled:

- **`clean_text`** (`clean.dfy`, module `Cleaning`). This is the seven-stage
  rewrite pipeline applied before classification. Each `re.sub`, the
  `lower()` call and the final `translate` are separate functions, composed
  in source order.
- **The comment synthesiser** (`comments.dfy`, module `Comments`). It covers
  `get_class_specific_comment`, `enhance_comment_with_text` and the normal
  path of `generate_comment`:
  - a base sentence per class;
  - four keyword categories searched in the lowercased first 1000 characters;
  - the matches shuffled, and at most two of their sentences appended.
- **`extract_key_words`** (`keywords.dfy`, module `Keywords`).
- **The per-file rule of `main`**, in two files:
  - `batch.dfy`, module `Batch`: skip a file whose cleaned text is empty; pick
    the relevance value; build the record.
  - `batching.dfy`, module `Batching`: the loop that collects records in
    upload order, independent of what is done to each file.

`seqs.dfy` (module `Seqs`) and `chars.dfy` (module `CharClasses`) hold the
shared vocabulary:
- `Option`, duplicate-freedom, shuffles as permutations of indices, and
  substring occurrence (Python's `in` on strings);
- the character classes.

Three things the Python code does not determine are made explicit:

- **Python's Unicode tables.** `\w`, `\d`, `\s` and `str.lower` are a
  parameter `Tables`. Its ghost `Valid()` states only ASCII facts that
  Python's tables satisfy:
  - space is whitespace and not a digit;
  - `_` is a word character, and neither a digit nor whitespace;
  - ASCII digits are `\d`;
  - `lower` maps `A`–`Z` to `a`–`z` and leaves other ASCII alone.
- **Randomness.**
  - `random.choice` becomes an index `choice < 3`.
  - `random.shuffle` becomes a permutation `order` of the matched list.
  - The iteration order of the `set` in `extract_key_words` becomes a
    permutation of the distinct long words.

  Every property is therefore proved for every possible random outcome.
- **The classifier.** It is an opaque function from the cleaned text to
  `Option<Prediction>`. `None` stands for an exception raised anywhere in the
  `try` block (app.py:202-226), after which the file gets no record.
  Probabilities are values of an abstract type `P`. The 0.5 fallback is the
  constructor `DefaultHalf`.

Two properties one might expect of `clean_text` and of the comment
synthesiser do not hold. The model follows the code and proves that they fail:

- **Cleaning is not idempotent.** `_` is a word character, so app.py:22 keeps
  it. It is deleted only at app.py:28, after the whitespace collapse at
  app.py:26. So `" _ "` cleans to two spaces, and cleaning again gives one
  (`Cleaning.CleanTextNotIdempotent`).
- **A detected experience indicator does not guarantee the experience
  sentence.** The sentence always appears when at most two categories match
  (`Comments.ExperienceKeptWhenFewMatch`). With three or more matches, some
  shuffle drops it (`Comments.ExperienceMayBeDropped`).

## Model

| member | source | states |
|---|---|---|
| Seqs.Identity | app.py:149 | the unshuffled arrangement is a valid shuffle outcome for any length |
| Seqs.PermutationIsOnto | app.py:149 | a shuffle outcome reaches every index, so no item is lost |
| Seqs.Permute | app.py:149 | a shuffled list has the same length, holds exactly the original items, and stays duplicate-free |
| Seqs.Take | app.py:105 | a slice `s[:n]` is a prefix of length min(n, \|s\|) |
| Seqs.Occurs | app.py:122 | `pat in s` as a scan: an occurrence is never longer than the text; the empty pattern and the text itself occur |
| Seqs.OccursIffSomePosition | app.py:122 | `pat in s` holds exactly when `pat` occurs as a block at some position of `s`, in both directions |
| CharClasses.AsciiLower | app.py:27 | lowercasing an ASCII capital gives its own small letter: the letter in `a`–`z` at the same offset from `a` as the capital's from `A` |
| CharClasses.IsPunctuation | app.py:28 | membership in the 32-character `string.punctuation` constant |
| CharClasses.PunctuationIsAsciiSymbols | app.py:28 | `string.punctuation` is exactly the printable ASCII characters that are not letters, digits or space |
| Cleaning.BlankOut | app.py:22-25 | a single-character-class substitution keeps the length; every class character becomes a space; every other character is kept |
| Cleaning.BlankOutFixpoint | app.py:22-25 | a blanking stage changes nothing exactly when every class character in the text already is a space |
| Cleaning.CollapseRuns | app.py:23-26 | a run substitution never lengthens the text; no two class characters end up adjacent; every non-space output character comes from the input and is outside the class |
| Cleaning.CollapseRunsOfRun | app.py:23-26 | a non-empty run made only of class characters becomes exactly one space |
| Cleaning.CollapseRunsAppend | app.py:23-26 | where a character outside the class stands next to a cut, each side is collapsed on its own and the results are concatenated; together with the previous row, every maximal run becomes one space in its place and every other character stays |
| Cleaning.CollapseRunsKeepsContent | app.py:26 | collapsing runs keeps every character outside the class (other than spaces), in order, with nothing added |
| Cleaning.CollapseRunsFixpoint | app.py:26 | with the space in the class, collapsing changes nothing exactly when the text's class characters are isolated single spaces |
| Cleaning.CollapseRunsIdempotent | app.py:26 | collapsing whitespace twice is the same as once |
| Cleaning.MaskSymbols | app.py:22 | the length is kept; at each position, a character that is neither a word character nor whitespace becomes a space and every other character is kept |
| Cleaning.StripDigits | app.py:23 | a non-empty text stays non-empty; no `\d` character survives; the characters other than digits and spaces are kept in order, with nothing added |
| Cleaning.JoinLines | app.py:24 | the length is kept; at each position a newline becomes a space and any other character is unchanged |
| Cleaning.StripLatin | app.py:25 | the length is kept; at each position an `[a-zA-Z]` letter becomes a space and any other character is unchanged |
| Cleaning.CollapseSpaces | app.py:26 | a non-empty text stays non-empty; no two whitespace characters are adjacent; every whitespace character is a plain space; the non-whitespace characters are kept in order, with nothing added |
| Cleaning.Lower | app.py:27 | the empty text stays empty; a single character lowercases to its table image; a longer text's lower case starts with the lower case of its first character |
| Cleaning.LowerAppend | app.py:27 | per-code-point lowercasing distributes over concatenation; with the one-character case of `Cleaning.Lower` it fixes the whole result (Python's `str.lower` itself does not distribute at a final capital sigma) |
| Cleaning.LowerFixesAsciiNonCapitals | app.py:27 | text made of ASCII non-capitals is its own lower-case form |
| Cleaning.DeletePunctuation | app.py:28 | no punctuation survives; every other character of the input survives; nothing new appears; a single character is deleted exactly when it is punctuation and kept otherwise |
| Cleaning.DeletePunctuationAppend | app.py:28 | deletion distributes over concatenation; with the one-character case, every other character is kept in order and with its multiplicity |
| Cleaning.DeletePunctuationFixpoint | app.py:28 | deleting punctuation changes nothing exactly when the text has none |
| Cleaning.Normalize | app.py:22-26 | the first five stages never empty a non-empty text, and leave no two whitespace characters adjacent |
| Cleaning.CleanText | app.py:19-29 | `None` and the empty string both clean to the empty string; the result holds no ASCII punctuation, not even `_` |
| Cleaning.NormalizedText | app.py:22-26 | before lowercasing, the text has no ASCII digit, newline, Latin letter or `\d` character; its only whitespace is single spaces; no two whitespace characters are adjacent |
| Cleaning.NormalizeSpacedUnderscore | app.py:22-26 | `" _ "` passes the first five stages unchanged |
| Cleaning.NormalizeDoubleSpace | app.py:22-26 | two spaces leave the first five stages as one |
| Cleaning.LowerSpacedUnderscore | app.py:27 | lowercasing leaves `" _ "` alone |
| Cleaning.LowerSingleSpace | app.py:27 | lowercasing leaves a single space alone |
| Cleaning.DeleteSpacedUnderscore | app.py:28 | the final translate turns `" _ "` into two spaces |
| Cleaning.DeleteSingleSpace | app.py:28 | the final translate leaves a single space alone |
| Cleaning.CleanSpacedUnderscore | app.py:19-29 | `" _ "` cleans to two spaces |
| Cleaning.CleanDoubleSpace | app.py:19-29 | two spaces clean to one |
| Cleaning.CleanTextNotIdempotent | app.py:22-28 | cleaning a cleaned text can change it again |
| Keywords.WordLength | app.py:101 | the leading word ends at the first whitespace character |
| Keywords.Split | app.py:101 | `str.split()` yields non-empty words free of whitespace, each occurring in the text |
| Keywords.WordLengthBeforeSpace | app.py:101 | a word ends at the first whitespace character, whatever follows it |
| Keywords.SplitAtSpace | app.py:101 | a whitespace character separates: the words of `a + c + b` are the words of `a` followed by the words of `b` |
| Keywords.SplitOfWord | app.py:101 | a non-empty run without whitespace is a single word; with the previous row, the words are exactly the maximal non-whitespace runs |
| Keywords.OccursInLonger | app.py:101 | a word found in a suffix of the text is found in the text |
| Seqs.WithoutAppend | app.py:101 | dropping whitespace (or any class of characters) distributes over concatenation |
| Seqs.WithoutKeepsAll | app.py:101 | dropping whitespace leaves a word without whitespace alone |
| Keywords.SplitKeepsText | app.py:101 | the words, glued together, are exactly the text's non-whitespace characters in order |
| Keywords.LongWords | app.py:103 | a word is kept exactly when it is one of the words and has more than 4 characters |
| Keywords.Dedup | app.py:103 | like `set(...)`: no duplicates, and exactly the same members |
| Keywords.Candidates | app.py:103 | the candidates are duplicate-free and are exactly the words of the text longer than 4 characters |
| Keywords.ExtractKeyWords | app.py:96-105 | at most 20 words (exactly min(20, number of distinct long words)); pairwise distinct; each longer than 4 and a token of the text; with at most 20 candidates, every long token is returned |
| Keywords.KeyWordsOccurInText | app.py:96-105 | every key word occurs in the text, whatever order the set yields |
| Comments.ClassSentences | app.py:80-91 | the three recommended sentences for class 1 and the three not-recommended sentences for any other class, as literals |
| Comments.ClassComment | app.py:78-93 | class 1 gets one of the three "recommended" sentences; any other class gets one of the three "not recommended" sentences |
| Comments.ClassCommentRevealsClass | app.py:80-91 | the chosen sentence is in the recommended list exactly when the class is 1, and in the other list exactly when it is not |
| Comments.ClassCommentReachesAll | app.py:93 | every sentence of the class's list can be drawn |
| Comments.ClassSentenceLengths | app.py:81-91 | each base sentence has 52 to 70 characters |
| Comments.Indicators | app.py:120-141 | the four indicator lists (experience, education, skills, sales), as literals |
| Comments.Enhancement | app.py:123-144 | the sentence each category appends, as literals |
| Comments.EnhancementInjective | app.py:123-144 | two categories contribute the same sentence exactly when they are the same category |
| Comments.EnhancementSize | app.py:123-144 | the four sentences have 30, 33, 45 and 26 characters |
| Comments.EnhancementLength | app.py:123-144 | every category sentence has at least 26 characters |
| Comments.Detected | app.py:119-145 | a category is detected when some indicator of its list occurs in the sample |
| Comments.ScanIndicators | app.py:121-124 | an indicator loop appends exactly when some indicator of its list occurs in the sample |
| Comments.Contribution | app.py:119-145 | a category contributes itself once or not at all, and once exactly when it is detected, thanks to the `break` |
| Comments.Matched | app.py:117-145 | the enhancement list has at most four entries, no repeats, and holds exactly the detected categories |
| Comments.ContributionsDistinct | app.py:117-145 | the four loops together never report a category twice |
| Comments.ContributionsReportDetected | app.py:117-145 | the four loops together report a category exactly when it is detected |
| Comments.OnlyEducationAndSales | app.py:117-145 | with only education and sales detected, the list is education then sales, in loop order |
| Comments.FirstIndicatorDetects | app.py:127-145 | "высшее образование" in the sample detects education; "продаж" detects sales |
| Comments.ExperienceScannedFirst | app.py:119-124 | a detected experience category heads the list |
| Comments.Chosen | app.py:148-150 | exactly min(2, number matched) categories are kept; they are pairwise distinct and each is detected |
| Comments.Sentences | app.py:151 | one sentence per kept category, in the same order |
| Comments.SentencesDistinct | app.py:151 | distinct categories give distinct sentences |
| Comments.AppendedSentencesDistinct | app.py:117-151 | the appended sentences are pairwise distinct, and each belongs to a category with an indicator in the sample |
| Comments.JoinSpaces | app.py:151 | `" ".join` starts with its first part; it is that part alone when there is one, and the two parts with one space between them when there are two, the most the comment ever joins |
| Comments.EffectiveBase | app.py:110-111 | a non-empty base is kept; an empty base is replaced by a class sentence |
| Comments.Extend | app.py:148-154 | the result starts with the base; it equals the base exactly when nothing is appended; otherwise it is the base, a space and the joined sentences |
| Comments.EnhanceComment | app.py:108-154 | the result starts with the (possibly replaced) base; it equals that base exactly when no category matches; otherwise it is the base, a space and the kept sentences |
| Comments.NothingMatchedIffNothingDetected | app.py:117-148 | the enhancement list is empty exactly when no category is detected |
| Comments.EnhanceKeepsBaseIffNoIndicator | app.py:108-154 | the comment equals the base exactly when no indicator of any category occurs in the sample |
| Comments.Sample | app.py:114 | the sample is the lower-cased text when it has at most 1000 characters, and the lower-cased first 1000 characters otherwise |
| Comments.SampleIgnoresTail | app.py:114 | text beyond position 1000 never reaches the sample |
| Comments.EnhanceIgnoresTail | app.py:114-154 | keyword occurrences beyond position 1000 never change the comment |
| Comments.SomeDrawFits | app.py:93 | every text admits a random draw (the first sentence, matches unshuffled) |
| Comments.GenerateComment | app.py:157-165 | the comment starts with the class sentence; it is a bare class sentence exactly when no category matches; otherwise it is the sentence, a space and the kept sentences |
| Comments.ExperienceKeptWhenFewMatch | app.py:119-150 | with experience detected and at most two matches, every shuffle keeps the experience sentence |
| Comments.RotateLeft | app.py:149 | moving the first item to the back is a valid shuffle |
| Comments.RotationDropsHead | app.py:149-150 | after that rotation, keeping two items leaves out the former head |
| Comments.ExperienceMayBeDropped | app.py:147-150 | with experience and at least two other categories detected, some shuffle drops the experience sentence |
| Comments.ShufflesOfPair | app.py:149-150 | both shuffles of a two-item list keep both items, in one order or the other |
| Comments.EducationAndSalesScenario | app.py:126-150 | a sample with education and sales indicators only gets exactly those two sentences, in either order |
| Batching.CollectFirst | app.py:191-224 | the first n items give at most n rows |
| Batching.Collect | app.py:191-224 | a batch gives at most one row per item |
| Batching.CollectFirstOfLonger | app.py:193-224 | items appended later never change earlier rows |
| Batching.CollectFirstOfAppend | app.py:193-224 | the rows for a prefix spanning one batch and part of the next are the first batch's rows, then the next one's |
| Batching.CollectAppend | app.py:193-224 | the rows of a concatenated batch are the rows of each part, in order, so one item's outcome never affects another's |
| Batching.SourcesFirst | app.py:193-224 | the recorded source positions lie among the items scanned |
| Batching.SourcesProduceRows | app.py:193-224 | sources and rows pair up one to one, and each source item produced its row |
| Batching.SourcesIncrease | app.py:219-224 | rows appear in upload order |
| Batching.UnlistedYieldNothing | app.py:193-226 | an item not among the sources produced no row |
| Batching.CollectLoop | app.py:191-224 | the loop's records are the reference rows; each is traced to the item that produced it; sources strictly increase; every item left out produced nothing |
| Batch.RelevanceOf | app.py:209-213 | the relevance is the model's probability for the class exactly when the class indexes the probability vector, and the 0.5 default otherwise |
| Batch.Cleaned | app.py:196 | a file with empty extracted text has an empty cleaned text; no cleaned text holds punctuation |
| Batch.ProcessFile | app.py:194-226 | a file gets a record exactly when its cleaned text is non-empty and the classifier succeeds; the record has the file name, the class, the relevance rule's value, and a comment that starts with a class sentence and is a bare class sentence exactly when no indicator occurs in the sample of the raw extracted text (not the cleaned one) |
| Batch.Results | app.py:191-224 | a batch gives at most one record per file |
| Batch.DrawsFitAppend | app.py:193 | draws that fit two batches fit their concatenation |
| Batch.ResultsAppend | app.py:193-226 | the results of a concatenated batch are the results of each part, in order |
| Batch.EmptyTextSkipped | app.py:196-200 | a file whose extracted text is empty gets no record |
| Batch.ProcessUploads | app.py:189-226 | the results table equals the reference; each row is traced to the upload that produced it, in upload order; every upload without a row was skipped by the per-file rule |

## Left out

- Streamlit page setup, widgets, spinners and messages (app.py:12-16, 176-241). These are user interface, and the warnings change no result.
- PDF text extraction and the temporary file (app.py:31-61). This is I/O through a foreign library. An upload's extracted text is an input. A failed extraction yields the text read before the failure, which is empty if it failed before the first page; an empty text is skipped by the per-file rule.
- Model loading, `predict` and `predict_proba` (app.py:65-75, 204-206). These are foreign calls. Their outcome is the opaque `classify` parameter.
- The results table, its display and the CSV export (app.py:228-241). This is a pandas wrapper.
- Exact Unicode `\w`, `\d`, `\s` and `str.lower`. They are the `Tables` parameter, constrained only by their ASCII behaviour.
- Cleaning.Lower: it lowercases one code point at a time. Python's context rule for a final capital sigma is not modelled, because it needs the neighbouring characters.
- Floating point. `float(proba[prediction])` and the 0.5 literal become an abstract value and the `DefaultHalf` constructor.
- Negative and non-integer class labels. The label is a `nat`, so numpy's negative indexing into `proba` does not arise.
- The exception fallback of `generate_comment` (app.py:166-172). With a well-formed class and draw, nothing in the normal path raises.
- The random number generator. Its outcomes are parameters: `choice`, `order`, and the iteration order of the key-word set.
- Cleaning.CleanText: nothing is claimed about Latin letters after lowercasing. `str.lower` runs after the Latin removal and may in principle produce ASCII letters from non-ASCII capitals.
- `extract_key_words` is modelled with its contract, but `main` never calls it, so it is not part of the per-file rule.
