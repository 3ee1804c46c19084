# nlptools text core in Dafny

This project models the list, string and dictionary processing at the core of
the `nlptools.text` package. That processing sits between several opaque
engines: the regex library, the Acora keyword automaton, the Annoy keyword
index, the CoreNLP/LTP/BERT segmenters and the vocabulary lookup. Every engine
appears in the model as a function parameter or as a given sequence (its
answer). The model covers four pieces.

- Keyword compilation in `NER_Base` (`keywords.dfy`, `ner.dfy`):
  - parsing keyword lines `surface` / `surface: replacement`;
  - the first-wins alias map;
  - duplicate-free, longest-first category lists;
  - closing each list under aliases;
  - the `(k1)|(k2)|…` alternation;
  - the keyword → category map.
- The entity-extraction passes (`passes.dfy`, `ner.dfy`):
  - `get_regex`, `get_keywords` and `get_ner`, written as pure functions;
  - the class `NerBase`, whose methods change its fields and the token array as the source does, proved against those functions;
  - `get`, which chains the passes;
  - `NER_LTP.train_predeal`, the BIOES span labeller (`predeal.dfy`).
- The overlap resolution of `AcoraSearch` (`acora.dfy`):
  - `find_longest`;
  - `find_max_match` with its nested loops;
  - the vocabulary zip in `find`.
- Tokenizer post-processing (`tokenizer.dfy`, `ltp.dfy`):
  - `format_sentence`, which fills fixed-width arrays;
  - `tokens2sentence` for the base class and for BERT;
  - the character and regex segmenters' token shaping;
  - the filtering over parallel lists in the REST segmenter;
  - backend dispatch by name;
  - LTP's merging of recogniser labels and its BIOES entity-join state machine.

`wrappers.dfy` holds `Option`, `Result` and the Python exception kinds.
`text.dfy` holds the Python string operations the core uses: `strip`,
`lower`, `join`, `split`, `startswith`, `in` and slicing.

## Model

| member | source | states |
|---|---|---|
| Keywords.ParseLine | nlptools/text/ner.py:42-52 | a blank or `#` line yields nothing; a kept surface or alias is non-empty and lower-case |
| Keywords.ParseStripped | nlptools/text/ner.py:43-52 | on a stripped line: a kept surface or alias is non-empty and lower-case |
| Keywords.SplitAt | nlptools/text/ner.py:45 | a line split at a `:` keeps, lower-cased, only non-empty stripped sides as surface and replacement |
| Keywords.Pieces | nlptools/text/ner.py:45-52 | of the two stripped pieces, empty ones are dropped; a kept surface or alias is non-empty and lower-case |
| Keywords.ParseFormatLine | nlptools/text/ner.py:42-52 | parsing `surface` or `surface: alias` written from canonical parts gives those parts back (round trip) |
| Keywords.ParseAliasedLine | nlptools/text/ner.py:45-52 | a `surface: replacement` line yields that surface with that replacement |
| Keywords.ParseSplitLine | nlptools/text/ner.py:45-52 | a stripped line whose first `:` leaves two non-empty stripped pieces yields the first, lower-cased, with the second as replacement |
| Keywords.ParseLines | nlptools/text/ner.py:41-52 | one parse result per file line |
| Keywords.ReadEntriesAliases | nlptools/text/ner.py:51-52 | first wins: an existing alias is never overwritten; a new surface gets the replacement of its first aliased line, and only if one exists |
| Keywords.ReadEntriesSurfaces | nlptools/text/ner.py:49-50 | the surfaces read are exactly those of the keyword lines |
| Keywords.ReadEntriesSurfacesOnly | nlptools/text/ner.py:41-52 | the surfaces read do not depend on the alias map |
| Keywords.ReadEntriesKnown | nlptools/text/ner.py:51-52 | when every aliased surface is already mapped, the alias map is unchanged |
| Keywords.ReadEntriesRecords | nlptools/text/ner.py:51-52 | afterwards every aliased surface is mapped and no earlier key is lost |
| Keywords.Distinct | nlptools/text/ner.py:54 | `list(set(...))` is duplicate-free and has the same members |
| Keywords.Insert | nlptools/text/ner.py:55 | inserting into a longest-first list keeps it longest-first and adds exactly one occurrence |
| Keywords.SortByLength | nlptools/text/ner.py:55 | the sort by length, reversed, is a longest-first permutation |
| Keywords.SortNoDup | nlptools/text/ner.py:55 | sorting keeps a duplicate-free list duplicate-free |
| Keywords.CanonicalList | nlptools/text/ner.py:54-55 | a category list is duplicate-free, longest first, and has the members of the surfaces read |
| Keywords.ReadKeywordsShape | nlptools/text/ner.py:36-55 | a category is present exactly when its file exists, in configuration order; each list is duplicate-free and longest first |
| Keywords.ReadKeywordsRecords | nlptools/text/ner.py:34-56 | after reading, every aliased surface in every existing file is mapped and earlier keys are kept |
| Keywords.ReadKeywordsKnown | nlptools/text/ner.py:34-56 | reading with every alias already mapped leaves the alias map unchanged |
| Keywords.ReadKeywordsListsOnly | nlptools/text/ner.py:34-56 | the category lists do not depend on the alias map |
| Keywords.ReadKeywordsTwice | nlptools/text/ner.py:34-56 | reading the keyword files a second time (build_keywords_regex, then build_keywords_index) gives the same result again |
| Keywords.CloseAliases | nlptools/text/ner.py:64-68 | the loop that appends to the list it walks keeps the original list as a prefix and stays duplicate-free; the result holds the alias target of every member; every appended item is the target of an earlier member |
| Keywords.SortClosed | nlptools/text/ner.py:64-69 | the sorted list is alias-closed: it holds every keyword read and every alias target of its members, and is a reordering of a list in which each later member is the alias target of an earlier one |
| Keywords.ClosureLeast | nlptools/text/ner.py:64-67 | an alias-closed list lies within every list that holds the keywords read and the alias targets of its members, so it is the least such closure |
| Keywords.ReachedWithin | nlptools/text/ner.py:64-67 | each member reached from the keywords through the alias map is in every closed superset of the keywords |
| Keywords.AliasClosedSame | nlptools/text/ner.py:64-69 | two alias-closed lists for the same keywords and alias map hold the same members, so the pattern is fixed up to the order of equal-length keywords |
| Keywords.UnreachedCycleExcluded | nlptools/text/ner.py:64-67 | an alias cycle `x: y`, `y: x` that no keyword read reaches is not in the list of a category read as `a` |
| Keywords.AlternationGroups | nlptools/text/ner.py:70-71 | splitting the pattern at `|` gives back `(k)` for each keyword, in list order |
| Keywords.EmptyAlternation | nlptools/text/ner.py:70-71 | an empty list gives the empty pattern |
| Keywords.AssignValues | nlptools/text/ner.py:86-87 | assigning a category to keywords maps exactly those keywords to it and leaves the other keys alone |
| Keywords.Kw2eLastWins | nlptools/text/ner.py:84-88 | a keyword is in kw2e iff some category lists it; its category is the last one listing it |
| Keywords.IndexSurfaces | nlptools/text/ner.py:89-90 | the keywords given to the index are duplicate-free and longest first |
| Keywords.FlattenKeys | nlptools/text/ner.py:84-89 | the keys of kw2e are exactly the keywords of all categories |
| Keywords.IndexSurfacesAreKeys | nlptools/text/ner.py:89-91 | the indexed keywords are exactly the keys of kw2e, duplicate-free and longest first |
| Ner.KeysOf | nlptools/text/ner.py:154-155 | the category names of a regex table, in order |
| Ner.Lookup | nlptools/text/ner.py:154 | a lookup succeeds iff the table has the key, and returns a value stored under it |
| Ner.Put | nlptools/text/ner.py:71 | assigning a dictionary key keeps key order and appends a new key at the end |
| Ner.PutLookup | nlptools/text/ner.py:71 | after assigning, the key maps to the new value and other keys are unchanged |
| Ner.PutDistinct | nlptools/text/ner.py:71 | assigning keeps keys distinct |
| Ner.HasKeyKeysOf | nlptools/text/ner.py:154-155 | the table has a key iff the key is among its names |
| Ner.AddFreshKeys | nlptools/text/ner.py:64-71 | fresh distinct keys are appended in order |
| Ner.ExistingDistinct | nlptools/text/ner.py:36-39 | the categories with an existing file are distinct keys of the configuration |
| Ner.ReadLines | nlptools/text/ner.py:41-52 | the line loop over one file collects the surfaces and records first replacements, as the read-entries function says |
| Ner.IndexCategory | nlptools/text/ner.py:85-87 | one category's pass of the kw2e loop maps its keywords to it, and the key order is the distinct keywords seen so far |
| Ner.RecordAll | nlptools/text/ner.py:156-163 | recording a category's matches appends each alias-resolved match in order |
| Ner.RegexLoop | nlptools/text/ner.py:155-164 | the loop over the categories computes the entities and the rewritten text of the regex pass |
| Ner.NerBase.constructor | nlptools/text/ner.py:22-31 | empty custom regex and no index (kw2e, which the source first creates in build_keywords_index, starts empty in the model); the blacklist is keyword categories ∪ NER names ∪ regex categories; the alias map and keyword patterns are those build_keywords_regex produces |
| Ner.NerBase.ReadKeywords | nlptools/text/ner.py:34-56 | the alias-map field and the lists returned are those of the read-keywords function |
| Ner.NerBase.BuildKeywordsRegex | nlptools/text/ner.py:59-71 | every category with an existing file gets an alias-closed, longest-first alternation pattern; other table entries are unchanged; new categories are appended in order |
| Ner.NerBase.StorePatterns | nlptools/text/ner.py:64-71 | storing the patterns category by category keeps the table keys distinct and stores one alias-closed pattern per category |
| Ner.NerBase.BuildKeywordsIndex | nlptools/text/ner.py:82-91 | kw2e and the index surfaces are those of the keywords read, and the alias map is updated |
| Ner.NerBase.GetKeywords | nlptools/text/ner.py:115-128 | AttributeError, with the tokens untouched, iff no index has been built; otherwise the token array and the entities after the in-place loop equal the keyword pass over the index's occurrences |
| Ner.NerBase.KeywordAt | nlptools/text/ner.py:118-128 | one occurrence changes only its own token and its category's list, as one keyword step says |
| Ner.NerBase.GetRegex | nlptools/text/ner.py:151-164 | TypeError iff the three tables share a category name; otherwise the entities and rewritten text of the regex pass |
| Ner.NerBase.Get | nlptools/text/ner.py:183-190 | TypeError iff category names clash; otherwise regex, then segmentation, then keywords (only with an index), then NER, as the pipeline function |
| Ner.NerBase.GetNer | nlptools/text/ner.py:208-235 | the entities are the NER recording with blacklist = existing keys ∪ the configured blacklist; the tokens are the rewritten list with adjacent duplicates collapsed |
| Ner.RecordNer | nlptools/text/ner.py:215-220 | the first loop records exactly the NER recording of the labelled, non-blacklisted tokens |
| Ner.RewriteTokens | nlptools/text/ner.py:222-232 | the second loop builds the rewritten token list |
| Ner.CollapseRuns | nlptools/text/ner.py:233-235 | the backward deletion loop computes the adjacent-duplicate collapse |
| Ner.StoreStepKeys | nlptools/text/ner.py:71 | one stored pattern keeps keys distinct and extends the key order by that category |
| Ner.StoreStepEntries | nlptools/text/ner.py:71 | one stored pattern keeps the earlier categories' patterns and leaves unrelated keys unchanged |
| Passes.Placeholder | nlptools/text/ner.py:128 | `'$' + CATEGORY` is a placeholder one character longer than the name |
| Passes.Append | nlptools/text/ner.py:122-126 | appending to a category creates it when missing and changes no other category |
| Passes.ExtendsTrans | nlptools/text/ner.py:94-239 | "only appends to entity lists" is transitive |
| Passes.AppendExtends | nlptools/text/ner.py:122-126 | an append only extends the entities |
| Passes.KeywordPass | nlptools/text/ner.py:115-128 | the token list keeps its length; every token is either unchanged or a placeholder |
| Passes.KeywordPassSnoc | nlptools/text/ner.py:118-128 | the pass over one more occurrence is one more keyword step |
| Passes.FirstAtReported | nlptools/text/ner.py:121 | the first occurrence at an index has a category |
| Passes.KeywordPassTokens | nlptools/text/ner.py:127-128 | with replace, each token becomes the placeholder of its first occurrence's category (later occurrences at the same index are skipped); without replace, nothing changes |
| Passes.KeywordPassEntities | nlptools/text/ner.py:119-126 | under each category, exactly the alias-resolved surfaces of the live occurrences are appended, in order; the category is present afterwards iff it was before or one such surface exists |
| Passes.KeywordPassExtends | nlptools/text/ner.py:115-128 | the keyword pass only appends to the entities |
| Passes.KeywordPassInert | nlptools/text/ner.py:119-120 | occurrences at placeholder tokens add nothing and change nothing |
| Passes.FirstAtFound | nlptools/text/ner.py:118 | every reported index has a first occurrence |
| Passes.KeywordPassTwice | nlptools/text/ner.py:115-128 | a second replacing pass over the same occurrences changes nothing (idempotence) |
| Passes.ResolveAll | nlptools/text/ner.py:159-163 | each match is replaced by its alias when one exists |
| Passes.RecordMatchesSnoc | nlptools/text/ner.py:156-163 | one more match appends its alias-resolved value |
| Passes.RegexEntitiesOther | nlptools/text/ner.py:155-164 | a key with no regex category is untouched by the regex pass |
| Passes.RegexEntitiesCategory | nlptools/text/ner.py:155-164 | each category gets exactly its alias-resolved matches in the text rewritten by the earlier categories, and is created only when it matches |
| Passes.RegexEntitiesExtends | nlptools/text/ner.py:151-164 | the regex pass only appends to the entities |
| Passes.Picked | nlptools/text/ner.py:215-220 | the tokens picked for a label are exactly the recordable tokens carrying it |
| Passes.NerRecordValues | nlptools/text/ner.py:215-220 | under each label, exactly the picked tokens are appended in order; the label is created only when one is picked |
| Passes.NerRecordExtends | nlptools/text/ner.py:215-220 | NER recording only appends to the entities |
| Passes.RewriteAt | nlptools/text/ner.py:227-232 | a rewritten token is never empty or a bare `$` |
| Passes.Rewrite | nlptools/text/ner.py:222-232 | no rewritten token is empty or a bare `$` |
| Passes.Kept | nlptools/text/ner.py:223-226 | the indices kept are exactly those whose token is neither empty nor `$`, increasing |
| Passes.RewriteKept | nlptools/text/ner.py:222-232 | one output per kept index, in order, each the rewrite of that token |
| Passes.DedupFromSound | nlptools/text/ner.py:233-235 | the collapse leaves no two equal neighbours |
| Passes.NoAdjacentDupCons | nlptools/text/ner.py:233-235 | prepending a different head keeps neighbours distinct |
| Passes.DedupFromMembers | nlptools/text/ner.py:233-235 | the collapse keeps the same members |
| Passes.DedupFromFixed | nlptools/text/ner.py:233-235 | a list without equal neighbours is left unchanged |
| Passes.DedupProperties | nlptools/text/ner.py:233-235 | no equal neighbours afterwards, the same members, the same first element, and the list is unchanged iff it had no equal neighbours |
| Passes.DedupIdempotent | nlptools/text/ner.py:233-235 | collapsing twice equals collapsing once |
| Passes.Pipeline | nlptools/text/ner.py:183-190 | the tokens `get` returns contain no empty token and no bare `$` |
| Passes.PipelineProperties | nlptools/text/ner.py:183-190 | `get` only appends to the entities, and its tokens have no equal neighbours, no empty token and no bare `$` |
| Predeal.SpanLabels | nlptools/text/ner.py:349-360 | one label per token of the span (one label for fewer than two tokens) |
| Predeal.SpanLabelsChunk | nlptools/text/ner.py:349-360 | the labels form an S chunk, or a B, I…, E chunk; a single `S-` label iff fewer than two tokens |
| Predeal.Triples | nlptools/text/ner.py:369-371 | one `word/tag#label` string per token |
| Predeal.PlainFacts | nlptools/text/ner.py:334-340 | segmenting a text piece does not move the cursor, and keeps the tokens, tags and labels aligned |
| Predeal.StepFacts | nlptools/text/ner.py:333-361 | a span consumes the gap before it and then the span itself, and moves the cursor to its end |
| Predeal.FoldUsable | nlptools/text/ner.py:331-368 | tags stay aligned with tokens, and labels cover them, through all spans and the tail |
| Predeal.FoldLabelled | nlptools/text/ner.py:331-368 | with a segmenter that yields tokens for non-blank text, there is exactly one label per token |
| Predeal.FoldSnoc | nlptools/text/ner.py:333-361 | the fold over one more span is one more step |
| Predeal.FoldTiles | nlptools/text/ner.py:333-361 | for ordered spans, the pieces segmented so far spell the text up to the cursor, which is the last span's end |
| Predeal.PredealTiles | nlptools/text/ner.py:331-368 | corrected: for ordered spans, the segmented pieces spell the whole text exactly once |
| Predeal.BlankSpanRepeatsText | nlptools/text/ner.py:343-368 | as written, a blank span leaves the cursor behind, so the text before it is segmented twice |
| Predeal.TrainPredeal | nlptools/text/ner.py:324-372 | the output is the space-joined triples of the corrected labelling, whose tags and labels cover the tokens |
| Predeal.TakeSpan | nlptools/text/ner.py:334-361 | the loop body over one span updates the cursor and lists as one step |
| Predeal.TakeRest | nlptools/text/ner.py:362-368 | the tail after the last span is segmented once |
| Predeal.FormatTriples | nlptools/text/ner.py:369-371 | the formatting loop builds the triples |
| Predeal.SpanChunk | nlptools/text/ner.py:352-360 | the B/I/E loop builds the span labels |
| Acora.StrLtIrreflexive | nlptools/text/acorasearch.py:61 | Python string order is irreflexive |
| Acora.StrLtTrans | nlptools/text/acorasearch.py:61 | Python string order is transitive |
| Acora.StrLtTotal | nlptools/text/acorasearch.py:61 | Python string order is total |
| Acora.PrefixLt | nlptools/text/acorasearch.py:50-61 | a proper prefix is smaller |
| Acora.MatchOrder | nlptools/text/acorasearch.py:61 | tuple order on matches is a strict total order |
| Acora.MaxOfIsMax | nlptools/text/acorasearch.py:61 | `max` of a run is a member of the run and no member exceeds it |
| Acora.RunLength | nlptools/text/acorasearch.py:60 | a run is the longest prefix sharing the first match's position |
| Acora.Runs | nlptools/text/acorasearch.py:60 | groupby yields non-empty groups |
| Acora.RunsFlatten | nlptools/text/acorasearch.py:60 | the groups concatenate back to the input |
| Acora.RunsMaximal | nlptools/text/acorasearch.py:60 | each group shares one position, and neighbouring groups have different positions (maximal runs) |
| Acora.RunsHead | nlptools/text/acorasearch.py:60 | the first group starts with the first match |
| Acora.LongestMatchPerRun | nlptools/text/acorasearch.py:59-61 | one result per run, in run order, each a member of its run and not below any member |
| Acora.LongestIsLongest | nlptools/text/acorasearch.py:50-61 | when a run's matches all occur at the same place in the input, the tuple maximum is the longest match |
| Acora.Keep | nlptools/text/acorasearch.py:86-95 | the kept matches are exactly those no other match's span covers |
| Acora.MaxMatch | nlptools/text/acorasearch.py:82-95 | the nested loops return the input unchanged when it has at most one match, and otherwise the surviving matches in order |
| Acora.KeepSubsequence | nlptools/text/acorasearch.py:86-95 | the survivors are an order-preserving subsequence |
| Acora.MaxMatchSurvivors | nlptools/text/acorasearch.py:76-95 | max_match's output is a subsequence of its input, and a match is in it iff it survives |
| Acora.SubsequenceRefl | nlptools/text/acorasearch.py:83-84 | a list is a subsequence of itself |
| Acora.KeepCounts | nlptools/text/acorasearch.py:87-94 | a surviving match keeps all its occurrences |
| Acora.MaxMatchDuplicates | nlptools/text/acorasearch.py:89-90 | value-equal duplicates all survive |
| Acora.SameSpanEliminated | nlptools/text/acorasearch.py:76-92 | two distinct matches with the same span eliminate each other |
| Acora.SurvivesSub | nlptools/text/acorasearch.py:76-94 | surviving among more matches implies surviving among fewer |
| Acora.KeepAll | nlptools/text/acorasearch.py:87-94 | when every match survives, nothing is dropped |
| Acora.MaxMatchIdempotent | nlptools/text/acorasearch.py:82-95 | applying max_match to its own output changes nothing |
| Acora.Find | nlptools/text/acorasearch.py:38-45 | without a vocabulary, the matches as they are; with one, ValueError iff there is no match |
| Acora.FindTriplesRoundTrip | nlptools/text/acorasearch.py:42-45 | each triple's id is its word's id, and dropping the ids gives the matches back |
| Tokenizer.PopPunctProperties | nlptools/text/tokenizer.py:35-36 | the popping loop leaves a prefix whose last token does not end in punctuation, having removed only tokens that do; IndexError iff an empty token is reached |
| Tokenizer.PopTrailingPunctuation | nlptools/text/tokenizer.py:35-36 | the while loop computes the pop |
| Tokenizer.Take | nlptools/text/tokenizer.py:40 | `ids[:n]` has length min(len, n) and is a prefix |
| Tokenizer.FramedShape | nlptools/text/tokenizer.py:44-50 | the sentence array is `[BOS] + ids + [EOS] + zeros`, and the mask is ones then zeros |
| Tokenizer.MaskSum | nlptools/text/tokenizer.py:50 | the mask sums to `len + 2` |
| Tokenizer.Unframe | nlptools/text/tokenizer.py:44-50 | the ids are recovered from the sentence array, using the mask's sum (round trip) |
| Tokenizer.FormatWithTokenizer | nlptools/text/tokenizer.py:22-50 | None iff a string tokenises to nothing; every error is IndexError; otherwise both arrays have length max_seq_len, the sentence is `[BOS] + ids[:max-2] + [EOS] + zeros` and the mask is 1 exactly on the first `len + 2` positions |
| Tokenizer.IdListWithTokenizerFails | nlptools/text/tokenizer.py:29-40 | as written, an id list with a tokenizer fails with NameError; the corrected version lays the ids out |
| Tokenizer.Layout | nlptools/text/tokenizer.py:44-50 | the filled arrays are the framed sentence and the mask |
| Tokenizer.FormatSentence | nlptools/text/tokenizer.py:11-51 | the arrays returned hold what the corrected format function gives |
| Tokenizer.Tokens2SentenceSplit | nlptools/text/tokenizer.py:80-81 | splitting the joined sentence at spaces gives back tokens that contain no space (round trip) |
| Tokenizer.Words | nlptools/text/tokenizer.py:588-593 | a non-empty token list gives at least one word |
| Tokenizer.WordsSpellPieces | nlptools/text/tokenizer.py:588-593 | the words spell the tokens with each `##` continuation's prefix removed |
| Tokenizer.WordsCount | nlptools/text/tokenizer.py:588-593 | there is one word per token that starts a word |
| Tokenizer.WordsExtend | nlptools/text/tokenizer.py:588-593 | adding a word's pieces adds exactly that word |
| Tokenizer.WordsDecode | nlptools/text/tokenizer.py:588-593 | encoding words as WordPiece tokens and rejoining gives back as many words as were encoded, each spelled as its pieces joined (round trip) |
| Tokenizer.WordsPlain | nlptools/text/tokenizer.py:588-593 | without continuations, the tokens are unchanged |
| Tokenizer.BertTokens2Sentence | nlptools/text/tokenizer.py:584-594 | the loop joins the rejoined words with spaces |
| Tokenizer.CharPieceShape | nlptools/text/tokenizer.py:656 | strip, then lower, of one character is the character lowered, or nothing if it is blank |
| Tokenizer.CharTokensShape | nlptools/text/tokenizer.py:654-661 | every token is one lower-case non-blank character, never a stopword when stopwords are removed |
| Tokenizer.CharTokensCount | nlptools/text/tokenizer.py:654-661 | without stopword removal, one token per non-blank character |
| Tokenizer.CharTokensSpell | nlptools/text/tokenizer.py:654-661 | without stopword removal, the tokens spell the lowered non-blank characters |
| Tokenizer.CharSeg | nlptools/text/tokenizer.py:654-661 | the loop computes the character tokens |
| Tokenizer.LowerPiecesShape | nlptools/text/tokenizer.py:531 | every token is non-empty, lower-case, and the lowering of some piece |
| Tokenizer.LowerPiecesCount | nlptools/text/tokenizer.py:531 | there are no more tokens than pieces |
| Tokenizer.LowerPiecesFixed | nlptools/text/tokenizer.py:531 | pieces that are already non-empty and lower-case pass unchanged |
| Tokenizer.UnstoppedProperties | nlptools/text/tokenizer.py:532-533 | the filter keeps exactly the non-stopwords |
| Tokenizer.SimpleTokensProperties | nlptools/text/tokenizer.py:531-533 | tokens are non-empty, lower-case, come from pieces, and are not stopwords when those are removed; shaping twice changes nothing |
| Tokenizer.AppendRow | nlptools/text/tokenizer.py:501 | appending a row keeps the keys |
| Tokenizer.RestUpTo | nlptools/text/tokenizer.py:485-501 | the filtered result has exactly the input's keys |
| Tokenizer.Kept | nlptools/text/tokenizer.py:486-500 | kept indices lie below the bound |
| Tokenizer.KeptIndices | nlptools/text/tokenizer.py:486-500 | kept indices increase, and index i is kept iff it passes the stopword filter and every filter whose key is present |
| Tokenizer.RestUpToKept | nlptools/text/tokenizer.py:484-501 | every key's list is exactly its renamed values at the kept indices, so all lists have equal length |
| Tokenizer.KeepAt | nlptools/text/tokenizer.py:487-500 | the filter chain for one index decides as the keep predicate |
| Tokenizer.RestSeg | nlptools/text/tokenizer.py:481-502 | KeyError iff the answer has no `tokens` list; otherwise the filtered lists |
| Tokenizer.DispatchProperties | nlptools/text/tokenizer.py:679-693 | a known name selects its backend; an unknown name containing `http` selects REST carrying the URL; any other falls back to simple; the as-written dispatch agrees except that it raises TypeError exactly for REST |
| Tokenizer.RestNameFails | nlptools/text/tokenizer.py:691-692 | as written, `http://localhost` raises TypeError; the corrected dispatch builds the REST backend |
| Ltp.MergedIsLastNonO | nlptools/text/tokenizer.py:356-363 | the merged label is `O` iff every recogniser said `O`; otherwise it is the last non-`O` label in load order |
| Ltp.ApplyLabels | nlptools/text/tokenizer.py:361-363 | one recogniser's non-`O` labels overwrite their positions, and nothing else changes |
| Ltp.MergeLabels | nlptools/text/tokenizer.py:359-363 | the first recogniser's list, updated in place, ends up holding the merged labels |
| Ltp.Flush | nlptools/text/tokenizer.py:384-387 | flushing keeps the output lists aligned |
| Ltp.Emit | nlptools/text/tokenizer.py:403-405 | emitting keeps the output lists aligned |
| Ltp.JoinStep | nlptools/text/tokenizer.py:382-405 | one entity-join step keeps the output and pending lists aligned |
| Ltp.Step | nlptools/text/tokenizer.py:369-412 | one word's step keeps the output lists aligned |
| Ltp.Run | nlptools/text/tokenizer.py:368-412 | the loop keeps the output lists aligned |
| Ltp.Seg | nlptools/text/tokenizer.py:366-414 | tokens, tags and entities have equal lengths |
| Ltp.SegAt | nlptools/text/tokenizer.py:369-412 | the loop body over the six buffers performs one step |
| Ltp.JoinAt | nlptools/text/tokenizer.py:382-405 | the entity-joining branch over the six buffers performs one join step |
| Ltp.LtpSeg | nlptools/text/tokenizer.py:365-414 | the loop's output is the segmentation function |
| Ltp.SegWithoutJoin | nlptools/text/tokenizer.py:368-412 | without entityjoin, one output per word not skipped, labelled `O` or `loc-entity`, and nothing pending |
| Ltp.RunSpellsKept | nlptools/text/tokenizer.py:368-405 | the emitted words plus the pending word spell the kept words; without entityjoin nothing is pending |
| Ltp.StepSpells | nlptools/text/tokenizer.py:382-412 | a kept word extends the spelled text by itself |
| Ltp.JoinStepSpells | nlptools/text/tokenizer.py:382-405 | an entity-join step extends the spelled text by the word |
| Ltp.ExtendSpells | nlptools/text/tokenizer.py:388-396 | adding a word to the pending run extends the spelled text by the word |
| Ltp.FlushSpells | nlptools/text/tokenizer.py:384-393 | flushing does not change the spelled text |
| Ltp.SegDropsOpenRun | nlptools/text/tokenizer.py:368-414 | the output spells a prefix of the kept words, all of them iff no run is left open |
| Ltp.OpenRunDropped | nlptools/text/tokenizer.py:388-414 | a run left open at the end (a lone `B-`) is never emitted |
| Ltp.LabelParts | nlptools/text/tokenizer.py:371-373 | splitting `loc-entity` at `-` gives back the location and the entity |
| Ltp.EarlyFlush | nlptools/text/tokenizer.py:383-393 | a pending run is flushed on a non-I/E label or a different entity |
| Ltp.JoinChunk | nlptools/text/tokenizer.py:382-405 | a BIOES chunk as train_predeal labels it is emitted as one word, the concatenation of its pieces, carrying the first piece's tag and the renamed entity |

## Left out

- The engines are not modelled: regex `finditer`/`sub`/`split`, the Acora automaton, the Annoy index, the segmenters (CoreNLP, spaCy, Jieba, LTP, MeCab, BERT, GPT-2), `vocab.words2id` and the REST call. Each is a function parameter or a given answer (a token list, a match list, a label list).
- File reading is not modelled: each keyword file is its list of lines, and `os.path.exists` is membership of the path in a map. Stopword files are a given set.
- `strip` and `lower` know only ASCII whitespace and the ASCII letters, since Unicode case mapping is not modelled.
- Python `set` order in `__read_keywords` is arbitrary. The model keeps first-occurrence order before the stable length sort. The contracts on the category lists and on the keyword patterns built from them fix the members, duplicate-free and longest first, but not the order among keywords of equal length.
- The entities dictionary is a map threaded in and out. Its key order is not modelled, and the caller's dictionary being the same object is not modelled either, because the source returns the dictionary as well.
- The requires clauses on parallel lists stand in for the engines' guarantees that the lists line up:
  - the LTP labels and tags have one entry per word;
  - the REST answer's lists share the length of `tokens`;
  - each recogniser returns no more labels than there are words;
  - every index the keyword index reports points at a non-empty token with a known surface;
  - NER labels are no longer than the token list.
- Ner.NerBase.GetKeywords and Ner.NerBase.GetNer take the token list (and labels): the string argument, which is first run through `seg`, is the segmenter's answer.
- `get_regex`, `get_keywords` and `get_ner` (Ner.NerBase.GetRegex, Ner.NerBase.GetKeywords, Ner.NerBase.GetNer) without `replace` return only the entities. The model always returns both values, and the caller ignores the second.
- Ltp.MergeLabels: with no recogniser loaded the source raises IndexError at `entities__[0]`. The model takes the first recogniser's list as a parameter, so that case is not represented.
- The in-place rename of entity names inside the REST answer (nlptools/text/tokenizer.py:497-498) is modelled as the renamed value in the output. The changed input dictionary is not observable by the caller.
- Tokenizer.FormatSentence:
  - without a tokenizer, only a list of ids is modelled;
  - `max_seq_len` is at least 2;
  - torch tensors and numpy dtypes (nlptools/text/tokenizer.py:41-43) are not modelled.
- `find_longest` and `find_max_match` are modelled for vocabulary-free results only: with a vocabulary, index 1 of each triple is the word id, which groupby and subset would misread.
- The batch form of `__call__`, the backend constructors, `__del__`, `NER_*.train`, `NER.__new__`, and the CoreNLP/spaCy/Jieba/MeCab/GPT-2 `seg` bodies are not modelled. They are foreign calls or I/O.
- The dispatch model returns which backend is chosen, not a constructed backend object.
- The `AcoraSearch` constructor only stores the engine and the vocabulary. Its effect is the given match list and the optional vocabulary function.

## Findings

| source | as written | input that shows it | evidently intended | confidence | as-written member | corrected member |
|---|---|---|---|---|---|---|
| nlptools/text/tokenizer.py:691-692 | `Tokenizer_Rest(**args)` is called without the name, yet `Tokenizer_Rest.__init__` requires the URL, so a REST name raises TypeError | tokenizer name `"http://localhost"` | build the REST backend with the name as its URL | not executed; high | Tokenizer.RestNameFails | Tokenizer.DispatchProperties |
| nlptools/text/ner.py:343-345, 361 | a blank span `continue`s before `point = end`, so the next gap (or the tail) starts at the old cursor and re-segments the text before and inside the blank span | text `"a b"` with span (1, 2) | advance the cursor past a blank span | not executed; high | Predeal.BlankSpanRepeatsText | Predeal.PredealTiles |
| nlptools/text/tokenizer.py:29-40 | with a tokenizer and a list of ids, `token_ids` is never assigned before line 40 reads it (UnboundLocalError, a NameError) | sentence `[5]` with any tokenizer | use the ids as they are, then cut them to `max_seq_len - 2` | not executed; high | Tokenizer.IdListWithTokenizerFails | Tokenizer.FormatWithTokenizer |
