# Roulette gap tracker — a Dafny model

The application records roulette spins (outcomes 0..36). For every curated combination
of table properties (colour, parity, range, dozen, column, street) and for every
user-defined number tracker, it follows how many spins have passed since the last hit
and the longest run without one. An entity whose current drought reaches three times
its expected gap raises an alert. Several panels rank and intersect the alerting
entities and the triggered trackers.

This project models that pipeline as pure functions over immutable datatypes and
proves what each stage promises. There is one module per source file.

- **Classification.** The master data table and its tag resolver.
- **NumberTags.** The second classifier.
- **Partitions.** The partition-array resolver and trackable-entity generator.
- **Combinations.** The curated loop nest that both generators share.
- **Naming.** Names and ids.
- **Lexicon.** The entity lexicon.
- **Gaps and GapEngine.** The gap engine.
- **GapAnalysis.** The direct gap calculators and the number parser.
- **Session.** The (history, pointer) session store.
- **EntityStore.** The entity store, with thresholds and alerts.
- **Alerts.** The alert and intersection panels.
- **Trackers.** The tracker store.
- **AutoThreshold.** The auto-threshold rule.
- **Strategy.** The strategy intersection.
- **TrackerGrid.** The tracker grid.
- **Wheel.** Wheel neighbours.

Generic helpers live in Wrappers, Seqs, Text, Sorting and Tally.

The curated tag lists of both generators are an input record, `Combinations.Vocabulary`.
`Combinations.Standard()` holds the lists written in the source. Facts about the
generators are proved for every vocabulary whose street values are the twelve listed
streets, and `Combinations.StandardStreetsListed` shows that the source's lists qualify.
The wheel lemmas are likewise proved for every 37-entry permutation of 0..36
(`Wheel.IsWheel`), and `Wheel.WheelIsPermutation` shows that the source's
sequence is one.

The panels read the session in two ways. The entity panel and the tracker grid use the
whole stored history. The strategy panel and the auto-threshold rule use the active view
the history pointer selects. So undo and redo move the strategy results but never the
entity alerts (`Alerts.UndoRedoKeepEntities`).

## Model

| member | source | states |
|---|---|---|
| Classification.SetTags | src/data/masterDataTable.ts:100-107 | one tag per specified attribute, so at most six |
| Classification.SetTagsSpec | src/data/masterDataTable.ts:100-107 | a tag is listed exactly when the tag set specifies its attribute with its value, and the families come in colour, parity, range, dozen, column, street order |
| Classification.MasterTableShape | src/data/masterDataTable.ts:24-94 | the table has exactly 37 entries and entry i is the classification of number i |
| Classification.ZeroEntry | src/data/masterDataTable.ts:26-35 | 0 is Green and Even, with range, dozen, column and street all Zero |
| Classification.NonZeroColor | src/data/masterDataTable.ts:26-32 | for 1..36 the colour is Red exactly when the number is in the red list, otherwise Black |
| Classification.RedNumbersListed | src/data/masterDataTable.ts:30 | the red list holds exactly the eighteen red numbers |
| Classification.NonZeroParity | src/data/masterDataTable.ts:35 | for 1..36, Even exactly when the number is even |
| Classification.NonZeroRangeAndDozen | src/data/masterDataTable.ts:38-57 | for 1..36: Low exactly when n ≤ 18; 1st/2nd/3rd dozen exactly for 1–12 / 13–24 / 25–36 |
| Classification.ColumnOneListed | src/data/masterDataTable.ts:60-73 | the first column array holds exactly 1, 4, …, 34 |
| Classification.ColumnTwoListed | src/data/masterDataTable.ts:60-73 | the second column array holds exactly 2, 5, …, 35 |
| Classification.ColumnOneIsResidueOne | src/data/masterDataTable.ts:60-73 | a number in 1..36 is in the first column array exactly when it is 1 mod 3 |
| Classification.ColumnTwoIsResidueTwo | src/data/masterDataTable.ts:60-73 | a number in 1..36 is in the second column array exactly when it is 2 mod 3 |
| Classification.NonZeroColumn | src/data/masterDataTable.ts:60-73 | for 1..36 the column is 1st/2nd/3rd exactly when n mod 3 is 1/2/0 |
| Classification.NonZeroStreet | src/data/masterDataTable.ts:76-83 | for 1..36 the street is numbered k in 1..12 with 3k−2 ≤ n ≤ 3k, that is k = ceil(n/3) |
| Classification.MatchesIsEveryTag | src/data/masterDataTable.ts:102-107 | an entry matches a tag set exactly when it satisfies every specified tag; unspecified tags are wildcards |
| Classification.MatchingNumbersFrom | src/data/masterDataTable.ts:100-110 | filtering the table from entry k on gives exactly the matching numbers of k..36, in table order |
| Classification.ResolveNumbersByTags | src/data/masterDataTable.ts:100-110 | the result is ascending and holds exactly the numbers 0..36 whose entry matches every specified tag |
| Classification.ResolveNoTags | src/data/masterDataTable.ts:101-109 | with no tag specified, all 37 numbers are returned, not the empty list |
| Classification.ResolveMonotone | src/data/masterDataTable.ts:102-107 | adding tags never enlarges the result: more tags give a subset |
| Classification.FindEntryFrom | src/data/masterDataTable.ts:115-117 | searching the table from entry k finds number n exactly when k ≤ n ≤ 36 |
| Classification.GetNumberProperties | src/data/masterDataTable.ts:115-117 | the entry for n when 0 ≤ n ≤ 36, and None (undefined) otherwise |
| NumberTags.ColorFromLookup | src/utils/numberTags.ts:17-18 | 'red' maps to Red, 'black' to Black, any other lookup answer to Green |
| NumberTags.GetNumberTags | src/utils/numberTags.ts:15-85 | colour comes from the lookup; parity, range, dozen, column and street agree with the classification |
| NumberTags.AgreesWithMasterTable | src/utils/numberTags.ts:21-75 | for every n in 0..36, given a lookup that reports the table's colour, the result equals the master table's entry field by field |
| Partitions.Intersect | src/utils/trackableEntities.ts:121-124 | keeps exactly the elements of the first list that occur in every other list |
| Partitions.IntersectIncreasing | src/utils/trackableEntities.ts:121-124 | intersecting keeps an ascending first list ascending |
| Partitions.ResolveEntityNumbersMembers | src/utils/trackableEntities.ts:95-125 | a number is resolved exactly when some tag is set and the number is in every set tag's array |
| Partitions.ColorMembers | src/utils/trackableEntities.ts:6-8 | RED, BLACK and GREEN hold exactly the numbers of that colour |
| Partitions.ColorArrays | src/utils/trackableEntities.ts:54-58 | each colour array is ascending and holds exactly the numbers of its colour |
| Partitions.ParityArraysSpaced | src/utils/trackableEntities.ts:10-11 | ODD is 1, 3, …, 35 and EVEN is 0, 2, …, 36 |
| Partitions.OddMembers | src/utils/trackableEntities.ts:10 | ODD holds exactly the odd-parity numbers |
| Partitions.EvenMembers | src/utils/trackableEntities.ts:11 | EVEN holds exactly the even-parity numbers, 0 included |
| Partitions.ParityArrays | src/utils/trackableEntities.ts:59-62 | each parity array is ascending and holds exactly the numbers of its parity |
| Partitions.RangeArrays | src/utils/trackableEntities.ts:63-67 | LOW, HIGH and the zero array are ascending and hold exactly the numbers of their range |
| Partitions.DozenArrays | src/utils/trackableEntities.ts:68-73 | each dozen array is ascending and holds exactly the numbers of its dozen |
| Partitions.ColumnOneMembers | src/utils/trackableEntities.ts:20 | COLUMN_1 holds exactly the first-column numbers |
| Partitions.ColumnTwoMembers | src/utils/trackableEntities.ts:21 | COLUMN_2 holds exactly the second-column numbers |
| Partitions.ColumnThreeMembers | src/utils/trackableEntities.ts:22 | COLUMN_3 holds exactly the third-column numbers |
| Partitions.ColumnArrays | src/utils/trackableEntities.ts:74-79 | each column array is ascending and holds exactly the numbers of its column |
| Partitions.StreetArrays | src/utils/trackableEntities.ts:80-87 | each listed street array is ascending and holds exactly the numbers of that street |
| Partitions.FamiliesPartition | src/utils/trackableEntities.ts:6-28 | each family partitions 0..36: a number lies in exactly one array of each family (the one for its own property), and in no array if it is off the table |
| Partitions.StreetTriples | src/utils/trackableEntities.ts:25-28 | STREETS[i] is [3i−2, 3i−1, 3i] for i in 1..12 |
| Partitions.UnlistedStreetEmpty | src/utils/trackableEntities.ts:80-90 | a street whose ordinal is outside 1..12 (after the unanchored label match) resolves to [] |
| Partitions.NumbersForTagSound | src/utils/trackableEntities.ts:52-90 | for every tag with a listed street, the array is ascending and holds exactly the numbers satisfying the tag |
| Partitions.ResolversAgree | src/utils/trackableEntities.ts:95-125 | when some tag is set and the street is a listed one, the partition resolver equals the master-table resolver |
| Partitions.CanonicalTags | src/utils/trackableEntities.ts:52-90 | a tag set whose street is listed has only listed tags |
| Partitions.ResolveEntityNumbersSound | src/utils/trackableEntities.ts:95-125 | under the same conditions the partition resolver is ascending and holds exactly the matching numbers |
| Partitions.NoTagDiffers | src/utils/trackableEntities.ts:117-119 | with no tag set the partition resolver gives [] while the master-table resolver gives all 37 numbers |
| Partitions.ZeroStreetResolvesEmpty | src/utils/trackableEntities.ts:80-90 | the 'Zero' street value has no street array, so any tag set containing it resolves to [] |
| Partitions.ZeroStreetInTable | src/data/masterDataTable.ts:100-110 | while the master table resolves the lone 'Zero' street to [0] |
| Partitions.NegativeStreetDiffers | src/utils/trackableEntities.ts:80-87 | a label "-k…th Street" matches STREETS[k] in the partition resolver, but no table entry |
| Partitions.EmitTrackable | src/utils/trackableEntities.ts:160-328 | the emitted entities are exactly the enumerated tag sets with non-empty numbers, each named from its tags |
| Partitions.TrackableEntitiesSound | src/utils/trackableEntities.ts:144-331 | every generated entity has 1 to 3 tags and non-empty numbers equal to the master-table resolution of its tags |
| Partitions.CuratedResolversAgree | src/utils/trackableEntities.ts:95-125 | the two resolvers agree on every tag set with 1 to 3 tags and a listed street |
| Combinations.Product | src/utils/entityLexicon.ts:99-153 | a nested two-level loop yields one value per pair of choices |
| Combinations.Product3 | src/utils/entityLexicon.ts:156-190 | a nested three-level loop yields one value per triple of choices |
| Combinations.ProductIndex | src/utils/entityLexicon.ts:99-153 | the value for the i-th outer and j-th inner choice sits at position i × (number of inner choices) + j |
| Combinations.Product3Shift | src/utils/entityLexicon.ts:156-190 | a three-level loop's output after the first outer choice's block is the loop over the remaining outer choices |
| Combinations.Product3Block | src/utils/entityLexicon.ts:156-190 | the block for the i-th outer choice starts at i × (number of inner pairs) and is the two-level loop with that choice fixed |
| Combinations.ProductMembers | src/utils/entityLexicon.ts:99-153 | every value of a two-level loop comes from one choice of each list |
| Combinations.Product3Members | src/utils/entityLexicon.ts:156-190 | every value of a three-level loop comes from one choice of each list |
| Combinations.ProductCurated | src/utils/entityLexicon.ts:99-153 | a two-level loop whose bodies build n-tag sets builds only n-tag sets |
| Combinations.Product3Curated | src/utils/entityLexicon.ts:156-190 | the same for three-level loops |
| Combinations.SinglesOf | src/utils/entityLexicon.ts:73-96 | the single-tag queries each set one tag, never a street |
| Combinations.PairsOf | src/utils/entityLexicon.ts:99-153 | the pair queries each set two tags |
| Combinations.TriplesOf | src/utils/entityLexicon.ts:156-190 | the triple queries each set three tags |
| Combinations.QueriesOf | src/utils/entityLexicon.ts:57-193 | every enumerated query sets one, two or three tags |
| Combinations.StandardStreetsListed | src/utils/entityLexicon.ts:61-70 | the source's street list holds only the twelve listed streets |
| Naming.DigitChar | src/data/masterDataTable.ts:82 | a digit character with the given value |
| Naming.NatToString | src/data/masterDataTable.ts:82 | a non-empty decimal digit string |
| Naming.NatToStringRoundTrip | src/data/masterDataTable.ts:82 | reading the decimal string back gives the number |
| Naming.IntToString | src/data/masterDataTable.ts:82 | digits, with a leading minus sign exactly for negative numbers |
| Naming.IntToStringInjective | src/data/masterDataTable.ts:82 | different numbers print differently |
| Naming.Suffix | src/data/masterDataTable.ts:81 | the ordinal suffix is two characters |
| Naming.StreetLabelInjective | src/data/masterDataTable.ts:76-83 | two street labels are equal exactly when the streets are |
| Naming.StreetLabelClean | src/data/masterDataTable.ts:76-83 | a street label is non-empty, without leading, trailing or doubled whitespace |
| Naming.ColorLabelClean | src/data/masterDataTable.ts:26-32 | colour labels are clean words |
| Naming.ParityLabelClean | src/data/masterDataTable.ts:35 | parity labels are clean words |
| Naming.RangeLabelClean | src/data/masterDataTable.ts:38-45 | range labels are clean words |
| Naming.DozenLabelClean | src/data/masterDataTable.ts:48-57 | dozen labels are clean words |
| Naming.ColumnLabelClean | src/data/masterDataTable.ts:60-73 | column labels are clean words |
| Naming.TagLabelClean | src/data/masterDataTable.ts:24-94 | every tag label is a clean word |
| Naming.EntityNameClean | src/utils/entityLexicon.ts:20-29 | joining the set tags' labels with single spaces gives a name without leading, trailing or doubled whitespace |
| Naming.ReplaceWhitespaceRuns | src/utils/entityLexicon.ts:42 | replacing whitespace runs leaves no whitespace and never lengthens the text |
| Naming.LowerKeepsWhitespace | src/utils/entityLexicon.ts:42 | lowercasing neither creates nor removes whitespace |
| Naming.ReplaceSingleWhitespace | src/utils/entityLexicon.ts:42 | in text without doubled whitespace, each whitespace character becomes '_' in place |
| Naming.EntityIdPointwise | src/utils/entityLexicon.ts:42 | for such text the id has the name's length and is the name lowercased with spaces as '_' |
| Naming.EntityIdOfName | src/utils/entityLexicon.ts:41-42 | every entity name meets that condition, so its id is its character-wise image |
| Text.Lower | src/utils/entityLexicon.ts:42 | lowercasing is character-wise |
| Text.Trim | src/utils/gapAnalysis.ts:58-63 | the trimmed text neither starts nor ends with whitespace, and it is a window s[a..b] of the input with only whitespace before a and after b |
| Text.LeadingCutIsWhitespace | src/utils/gapAnalysis.ts:58-63 | what trimming cuts from the front is whitespace |
| Text.TrailingCutIsWhitespace | src/utils/gapAnalysis.ts:58-63 | what trimming cuts from the back is whitespace |
| Text.TrimEmpty | src/components/TrackerGrid.tsx:20 | trimming gives the empty text exactly when the input is all whitespace |
| Text.Split | src/utils/gapAnalysis.ts:58-63 | the pieces never contain the separator |
| Text.SplitJoin | src/utils/gapAnalysis.ts:58-63 | joining the pieces with the separator gives back the input |
| Text.JoinClean | src/utils/entityLexicon.ts:20-29 | joining clean words with single spaces gives a clean word |
| Lexicon.CreateEntity | src/utils/entityLexicon.ts:34-51 | None exactly when the tags resolve to no number; otherwise the entity carries the tags, its name, the id derived from the name, ascending numbers matching every tag, and score = number count ≥ 1 |
| Lexicon.EmitEntities | src/utils/entityLexicon.ts:73-190 | exactly the created entities of the enumerated queries, dropping the empty ones |
| Lexicon.LexiconSound | src/utils/entityLexicon.ts:57-193 | every lexicon entity has 1 to 3 tags, score = count ≥ 1, numbers equal to the resolution of its tags, and the id derived from its name |
| Lexicon.CreatedEntitySound | src/utils/entityLexicon.ts:34-51 | a created entity with some tag has score = count ≥ 1 and the id derived from its name |
| Lexicon.EmitEntitiesAppend | src/utils/entityLexicon.ts:73-190 | emitting distributes over concatenated query lists |
| Lexicon.CountsNonDecreasing | src/utils/entityLexicon.ts:72-190 | singles followed by pairs followed by triples have non-decreasing tag counts |
| Lexicon.LexiconOrder | src/utils/entityLexicon.ts:72-190 | the lexicon is the singles, then the pairs, then the triples; tag counts never decrease along it; no single is a street |
| Lexicon.EmitAgrees | src/utils/entityLexicon.ts:57-193 | for curated queries, the lexicon's emitted entities projected to name, tags and numbers are the trackable generator's |
| Lexicon.GeneratorsAgree | src/utils/trackableEntities.ts:144-331 | the lexicon yields the same names, tags and numbers, in the same order, as the trackable-entity generator |
| Lexicon.ZeroTagResolves | src/utils/entityLexicon.ts:83-96 | the lone range, dozen or column 'Zero' tag resolves to [0] |
| Lexicon.ZeroName | src/utils/entityLexicon.ts:20-29 | such an entity is named "Zero" |
| Lexicon.ZeroId | src/utils/entityLexicon.ts:42 | the id of "Zero" is "zero" |
| Lexicon.ZeroEntitiesShareId | src/utils/entityLexicon.ts:41-42 | the range, dozen and column Zero singles are all in the lexicon, all with id "zero" and numbers [0]: ids are not unique |
| Identity.TagId | src/utils/entityLexicon.ts:42 | a tag's stretch of the id: its label, character by character, lowercased with the space as '_' |
| Identity.IdFoldJoin | src/utils/entityLexicon.ts:28-42 | mapping the space-joined labels to id characters is joining the mapped labels with '_' |
| Identity.IdAsFragments | src/utils/entityLexicon.ts:28-42 | an entity's id is its tags' fragments joined with '_' |
| Identity.TagIdPrefixFree | src/utils/entityLexicon.ts:20-42 | no tag's fragment followed by '_' begins another tag's fragment |
| Identity.JoinUnderscoreInjective | src/utils/entityLexicon.ts:28-42 | a '_'-join of non-empty parts, none of which followed by '_' begins another, gives its parts back |
| Identity.TagIdInjective | src/utils/entityLexicon.ts:20-42 | two tags with the same fragment are the same tag, or both are Zero tags |
| Identity.ZeroTagHolds | src/data/masterDataTable.ts:26-35 | each Zero tag holds of exactly the number 0 |
| Identity.IdDeterminesNumbers | src/utils/entityLexicon.ts:34-45 | tag sets whose names have the same id resolve to the same numbers |
| Lexicon.LexiconIdsDetermineNumbers | src/utils/entityLexicon.ts:34-45 | two lexicon entities with the same id have the same numbers |
| Gaps.MapHistoryToBinary | src/stores/gapAnalysisEngine.ts:21-23 | same length; position i is 1 exactly when spin i is one of the entity's numbers, and 0 otherwise |
| Gaps.MapHistoryAppend | src/stores/gapAnalysisEngine.ts:21-23 | the hit/miss map distributes over concatenated histories |
| Gaps.LeadingMissesSpec | src/stores/gapAnalysisEngine.ts:35-51 | the leading misses are all misses and are followed by a hit, or reach the end |
| Gaps.TrailingMissesSpec | src/stores/gapAnalysisEngine.ts:52-56 | the trailing misses are all misses and are preceded by a hit, or reach the start |
| Gaps.RunBoundedByLeading | src/stores/gapAnalysisEngine.ts:35-51 | a run of misses starting at lo is no longer than the leading misses from lo |
| Gaps.LongestGapIsUpperBound | src/stores/gapAnalysisEngine.ts:35-51 | every run of consecutive misses is at most the longest gap |
| Gaps.LongestGapIsAttained | src/stores/gapAnalysisEngine.ts:35-51 | some run of consecutive misses has exactly the longest gap's length, so it is the maximum |
| Gaps.TrailingWithinLongest | src/stores/gapAnalysisEngine.ts:38-56 | lastSeenAgo ≤ longestGap ≤ length |
| Gaps.TrailingAppend | src/stores/gapAnalysisEngine.ts:52-56 | appending a hit makes lastSeenAgo 0; appending a miss adds 1 |
| Gaps.NoHits | src/stores/gapAnalysisEngine.ts:54-56 | with no hit, lastSeenAgo and longestGap are both the length (0 on the empty history) |
| Gaps.PrependHit | src/stores/gapAnalysisEngine.ts:35-51 | an older hit adds no gap |
| Gaps.PrependMiss | src/stores/gapAnalysisEngine.ts:35-51 | an older miss lengthens the oldest run, which counts towards the longest gap |
| Gaps.LastHitAt | src/stores/gapAnalysisEngine.ts:52-56 | with the last hit at index i, lastSeenAgo is length − 1 − i |
| Gaps.AnalyzeGaps | src/stores/gapAnalysisEngine.ts:29-59 | the single loop computes the trailing misses and the longest run of misses |
| GapAnalysis.CalculateSpinsSinceHit | src/utils/gapAnalysis.ts:4-22 | the backwards scan gives the trailing non-members (length − 1 − last member index, or the length), 0 on empty history |
| GapAnalysis.CalculateLongestGap | src/utils/gapAnalysis.ts:27-53 | the scan gives the longest run of non-members, including the oldest run; 0 on empty history |
| GapAnalysis.CalculatorsAgreeWithEngine | src/utils/gapAnalysis.ts:4-53 | both calculators equal the engine's analyzeGaps fields on the mapped history, and spinsSinceHit ≤ longestGap ≤ length |
| GapAnalysis.SpinsSinceHitAppend | src/utils/gapAnalysis.ts:13-21 | appending a member makes spinsSinceHit 0; appending a non-member adds exactly 1 |
| GapAnalysis.ParsePieces | src/utils/gapAnalysis.ts:59-62 | at most one value per piece, each in 0..36 |
| GapAnalysis.ParsePiece | src/utils/gapAnalysis.ts:59-62 | one piece yields at most one value, in 0..36 |
| GapAnalysis.ParseNumbers | src/utils/gapAnalysis.ts:58-63 | only values in 0..36 are returned |
| GapAnalysis.ParsePiecesAppend | src/utils/gapAnalysis.ts:58-63 | parsing keeps input order: it distributes over concatenated pieces |
| GapAnalysis.ParsePiecesSingle | src/utils/gapAnalysis.ts:59-62 | a piece contributes its trimmed parse exactly when that lies in 0..36 |
| GapAnalysis.ParsePiecesCounts | src/utils/gapAnalysis.ts:58-63 | each value in 0..36 occurs as often as pieces parse to it: duplicates are kept |
| GapEngine.Analyze | src/stores/gapAnalysisEngine.ts:29-59 | keeps the hit/miss history and has lastSeenAgo ≤ longestGap ≤ length |
| GapEngine.AnalyzeEntry | src/stores/gapAnalysisEngine.ts:29-59 | the loop computes the entity's gap record |
| GapEngine.ProcessEntity | src/stores/gapAnalysisEngine.ts:64-86 | the new hit/miss history is the existing one (or none) followed by the mapped new spins |
| GapEngine.LastNumbers | src/stores/gapAnalysisEngine.ts:100-118 | no value exactly when no entity has the id |
| GapEngine.LastNumbersIsLast | src/stores/gapAnalysisEngine.ts:100-118 | the value is the numbers of the last entity with the id |
| GapEngine.LastNumbersDistinct | src/stores/gapAnalysisEngine.ts:100-118 | with distinct ids, it is that entity's own numbers |
| GapEngine.ProcessAllFromSpec | src/stores/gapAnalysisEngine.ts:105-117 | the loop keeps earlier keys, adds every given id, and stores the fresh analysis for the last entity with each id |
| GapEngine.ProcessAllEntitiesSpec | src/stores/gapAnalysisEngine.ts:100-118 | a fresh map whose keys are exactly the given ids, each holding the whole mapped history; prior state is discarded |
| GapEngine.Reset | src/stores/gapAnalysisEngine.ts:130-132 | the empty map |
| GapEngine.ProcessNewSpinsOthers | src/stores/gapAnalysisEngine.ts:143-164 | ids not processed keep their entries |
| GapEngine.ProcessNewSpinsDistinct | src/stores/gapAnalysisEngine.ts:138-165 | with distinct ids, each processed id gets its existing record (or the empty default) extended by the new spins |
| GapEngine.ExtendFresh | src/stores/gapAnalysisEngine.ts:64-86 | extending a fresh analysis of h1 by h2 is the fresh analysis of h1 followed by h2 |
| GapEngine.ExtendEmpty | src/stores/gapAnalysisEngine.ts:144-148 | extending the empty default equals a fresh analysis |
| GapEngine.IncrementalAgreesAt | src/stores/gapAnalysisEngine.ts:100-165 | with distinct ids, per id, full mode on h1 followed by incremental h2 equals full mode on h1 followed by h2 |
| GapEngine.IncrementalAgreesWithFull | src/stores/gapAnalysisEngine.ts:100-165 | the same as maps |
| GapEngine.ResetThenIncrementalAt | src/stores/gapAnalysisEngine.ts:130-165 | with distinct ids, per id, incremental mode after reset equals full mode |
| GapEngine.ResetThenIncremental | src/stores/gapAnalysisEngine.ts:130-165 | the same as maps |
| GapEngine.DuplicateIdsDiverge | src/stores/gapAnalysisEngine.ts:138-165 | two entities with id "zero" make incremental mode record the new spin twice, while full mode records it once |
| GapEngine.DuplicateIncremental | src/stores/gapAnalysisEngine.ts:143-164 | an entity listed twice gets the new spins' hit/miss map appended twice, starting from reset |
| GapEngine.DuplicateFull | src/stores/gapAnalysisEngine.ts:105-117 | an entity listed twice gets the hit/miss map once in full mode |
| GapEngine.DedupeLast | src/stores/gapAnalysisEngine.ts:105-117 | keeping only the last entity per id never lengthens the list |
| GapEngine.DedupeLastSpec | src/stores/gapAnalysisEngine.ts:105-117 | the kept list has distinct ids and the same last numbers for every id |
| GapEngine.ProcessAllDependsOnLast | src/stores/gapAnalysisEngine.ts:105-117 | full mode depends only on the last numbers per id |
| GapEngine.IncrementalOnceAgreesWithFull | src/stores/gapAnalysisEngine.ts:100-165 | with one update per id, full then incremental equals full mode on the whole history, for any entity list, duplicate ids included |
| GapEngine.ResetThenIncrementalOnce | src/stores/gapAnalysisEngine.ts:130-165 | with one update per id, incremental mode after reset equals full mode for any entity list |
| Session.Initial | src/stores/useSessionStore.ts:16-20 | the initial session is valid with an empty history |
| Session.SlicePrefix | src/stores/useSessionStore.ts:24-27 | a prefix of the history, the first end entries when end is in range |
| Session.KeepLast | src/stores/useSessionStore.ts:32-35 | the last n entries (all when there are fewer) |
| Session.ActiveView | src/components/SpinHistory.tsx:16-19 | the active view is a prefix of the stored history |
| Session.ViewLength | src/components/SpinHistory.tsx:16-19 | the view is the whole history at pointer −1, otherwise the first pointer + 1 spins |
| Session.DisplayHistory | src/components/SpinHistory.tsx:22 | the displayed list is the active view reversed |
| Session.ViewNonEmpty | src/components/SpinHistory.tsx:16-24 | a non-empty stored history always has a non-empty view, so undo is offered |
| Session.AddSpin | src/stores/useSessionStore.ts:21-46 | the result is valid, at pointer −1, holds at most 150 spins ending in n, and n is appended to the selected numbers and becomes the last selected |
| Session.AddSpinExtendsView | src/stores/useSessionStore.ts:24-42 | adding a spin truncates to the active view, appends n, keeps the last 150, and shows it all |
| Session.AddSpinAppends | src/stores/useSessionStore.ts:24-42 | at the head with room left, adding a spin just appends it |
| Session.ClearHistory | src/stores/useSessionStore.ts:47 | empty history, pointer −1, nothing selected; nothing to undo or redo |
| Session.Undo | src/stores/useSessionStore.ts:48-61 | the history and selections are unchanged and validity is kept |
| Session.UndoShortensView | src/stores/useSessionStore.ts:48-61 | undo drops one spin from a view of two or more, and changes nothing at a view of at most one |
| Session.UndoKeepsView | src/stores/useSessionStore.ts:53-60 | undo never reaches an empty view |
| Session.Redo | src/stores/useSessionStore.ts:62-73 | the history and selections are unchanged and validity is kept |
| Session.RedoLengthensView | src/components/SpinHistory.tsx:25 | when redo is offered, it lengthens the view by exactly one spin |
| Session.RedoFromHead | src/stores/useSessionStore.ts:67-70 | at the head with two or more spins, redo as written moves the pointer to 0, showing only the first spin |
| Session.RedoUndoesUndo | src/stores/useSessionStore.ts:48-73 | redo right after an undo that moved the pointer restores the session |
| EntityStore.ExpectedGap | src/stores/useEntityStore.ts:40 | expectedGap × score = 37 |
| EntityStore.Threshold | src/stores/useEntityStore.ts:41 | threshold × score = 111, three expected gaps |
| EntityStore.ThresholdIntegerForm | src/stores/useEntityStore.ts:41 | lastSeenAgo ≥ threshold exactly when lastSeenAgo × score ≥ 111 |
| EntityStore.Track | src/stores/useEntityStore.ts:36-52 | a tracked entity keeps the definition's id, name, numbers and score and starts with both gaps 0 |
| EntityStore.TrackAll | src/stores/useEntityStore.ts:36-52 | the lexicon is tracked entry by entry, in order |
| EntityStore.InitializeEntities | src/stores/useEntityStore.ts:32-59 | a no-op once initialised; otherwise the tracked lexicon replaces the entities and the flag is set |
| EntityStore.InitializedIdsConsistent | src/stores/useEntityStore.ts:32-59 | after initialisation, entities that share an id share their numbers |
| EntityStore.InitializeOnce | src/stores/useEntityStore.ts:33 | a second initialisation changes nothing |
| EntityStore.ProcessSpinHistory | src/stores/useEntityStore.ts:60-106 | a no-op before initialisation; only gap figures change; an empty history zeroes every entity's gaps and empties the gap map |
| EntityStore.ProcessSpinHistoryFigures | src/stores/useEntityStore.ts:80-100 | for a non-empty history each entity's gaps are the engine's figures for its id |
| EntityStore.ProcessSpinHistoryOwnFigures | src/stores/useEntityStore.ts:80-100 | when equal ids carry equal numbers, as they do after initialisation, those figures are the entity's own trailing and longest misses |
| EntityStore.ResetEngine | src/stores/useEntityStore.ts:107-119 | zeroes every entity's gaps, empties both maps, keeps everything else |
| EntityStore.ThresholdsFixed | src/stores/useEntityStore.ts:40-41 | processing and resetting keep each entity's expectedGap and threshold tied to its score |
| EntityStore.GetActiveAlerts | src/stores/useEntityStore.ts:120-125 | exactly the entities with score ≤ maxScore and lastSeenAgo ≥ threshold |
| EntityStore.GetActiveAlertsAppend | src/stores/useEntityStore.ts:120-125 | the alerts of a concatenation are the alerts of each part, in order |
| EntityStore.GetActiveAlertsSingle | src/stores/useEntityStore.ts:120-125 | one entity gives itself when it alerts and nothing otherwise |
| EntityStore.GetActiveAlertsCount | src/stores/useEntityStore.ts:120-125 | an alerting entity occurs as often as in the store, any other not at all |
| EntityStore.ActiveAlertsIntegerForm | src/stores/useEntityStore.ts:120-125 | the same, with the threshold test as lastSeenAgo × score ≥ 111 |
| Alerts.ActiveAlerts | src/components/EntityNotifications.tsx:36-40 | exactly the entities with score ≤ 6 and lastSeenAgo ≥ threshold |
| Alerts.ActiveAlertsAppend | src/components/EntityNotifications.tsx:36-40 | the panel's alerts of a concatenation are those of each part, in order |
| Alerts.ActiveAlertsSingle | src/components/EntityNotifications.tsx:36-40 | one entity gives itself when it alerts and nothing otherwise |
| Alerts.ActiveAlertsCount | src/components/EntityNotifications.tsx:36-40 | an alerting entity occurs as often as in the input, any other not at all |
| Alerts.PanelsMatchStore | src/components/IntersectionNotification.tsx:13-17 | the panels' own written-out test (score ≤ 6, lastSeenAgo ≥ threshold) selects the very sequence getActiveAlerts selects with its default maxScore of 6 |
| Alerts.RefreshEntities | src/components/EntityNotifications.tsx:27-32 | once initialised the store reprocesses the session's stored history; before that nothing changes; only gap figures move |
| Alerts.RefreshUsesStoredHistory | src/components/EntityNotifications.tsx:15-32 | each entity's figures are its trailing and longest misses over the whole stored history, not the active view |
| Alerts.RefreshIgnoresPointer | src/components/EntityNotifications.tsx:15-32 | the history pointer has no effect on the entity figures |
| Alerts.UndoRedoKeepEntities | src/components/EntityNotifications.tsx:15-32 | undo and redo leave the entity figures as they were, although undo shortens an active view of two or more spins |
| Alerts.SortedAlertsSpec | src/components/EntityNotifications.tsx:53-58 | a permutation of the active alerts, by score ascending, then lastSeenAgo descending |
| Alerts.AlertSound | src/components/EntityNotifications.tsx:43-50 | the sound fires only when the count rose and is positive; the stored count becomes the current one |
| Alerts.SoundOncePerRise | src/components/EntityNotifications.tsx:43-50 | the same count a second time does not fire again |
| Alerts.IntersectionNumbers | src/components/IntersectionNotification.tsx:22-24 | empty with fewer than 3 active alerts |
| Alerts.IntersectionNumbersSpec | src/components/IntersectionNotification.tsx:20-50 | each reported number's count is its occurrences across the alert lists, at least 3; every such number is reported exactly once |
| Alerts.IntersectionOrder | src/components/IntersectionNotification.tsx:44-49 | by count descending, then number ascending |
| Sorting.Insert | src/components/IntersectionNotification.tsx:44-49 | insertion adds exactly the one element |
| Sorting.InsertSorted | src/components/IntersectionNotification.tsx:44-49 | inserting into a sorted list keeps it sorted |
| Sorting.SortBy | src/components/EntityNotifications.tsx:53-58 | sorting is a permutation |
| Sorting.SortBySorted | src/components/EntityNotifications.tsx:53-58 | the result is ordered by the key |
| Sorting.SortByMembers | src/components/TrackerGrid.tsx:44-62 | sorting keeps exactly the same members |
| Tally.Flatten | src/components/IntersectionNotification.tsx:27-33 | every list's elements, with multiplicity, are in the concatenation |
| Tally.FlattenCounts | src/components/IntersectionNotification.tsx:27-33 | a number's count in the concatenation is its total occurrences across the lists |
| Tally.CountInto | src/components/StrategyIntersection.tsx:26-32 | the counter map gains exactly the keys counted |
| Tally.CountIntoCounts | src/components/StrategyIntersection.tsx:26-32 | each key's count grows by its occurrences in the counted list |
| Tally.FirstOccurrences | src/components/IntersectionNotification.tsx:36-41 | the same numbers, each once |
| Tally.FilterDistinct | src/components/IntersectionNotification.tsx:36-41 | filtering keeps a list free of repeats |
| Tally.NumbersOf | src/components/IntersectionNotification.tsx:36-41 | the numbers of the count entries, in order |
| Tally.CommonNumbersSpec | src/components/IntersectionNotification.tsx:27-41 | exactly the numbers occurring at least minCount times, each once, with its true count |
| Tally.Ranked | src/components/IntersectionNotification.tsx:44-49 | ranking permutes the common numbers |
| Tally.RankedSpec | src/components/IntersectionNotification.tsx:27-49 | the ranked entries have true counts ≥ minCount, distinct numbers, and are sorted by the key |
| Tally.RankedComplete | src/components/IntersectionNotification.tsx:36-41 | every number reaching minCount is ranked |
| Tally.PermutationKeepsNumbers | src/components/IntersectionNotification.tsx:44-49 | a permutation of the entries keeps their numbers |
| Tally.DistinctNumbersDistinctEntries | src/components/IntersectionNotification.tsx:36-41 | entries with distinct numbers are distinct |
| Tally.PermutationKeepsDistinctNumbers | src/components/IntersectionNotification.tsx:44-49 | a permutation keeps the numbers distinct |
| Trackers.FromPreset | src/stores/useTrackerStore.ts:26-39 | a preset keeps its name, numbers and threshold, gets the given id and auto-threshold off |
| Trackers.FromPresets | src/stores/useTrackerStore.ts:26-39 | presets become trackers in order, with fresh ids |
| Trackers.InitializeTrackers | src/stores/useTrackerStore.ts:26-40 | a no-op once initialised; otherwise the presets in order |
| Trackers.InitializeIdempotent | src/stores/useTrackerStore.ts:26-40 | initialising twice equals initialising once |
| Trackers.AddTracker | src/stores/useTrackerStore.ts:41-50 | exactly one tracker with the given fields and id is appended; the existing ones are unchanged |
| Trackers.AddTrackerFresh | src/stores/useTrackerStore.ts:21-50 | a fresh id keeps tracker ids distinct |
| Trackers.UpdateList | src/stores/useTrackerStore.ts:51-56 | the update is merged into the trackers with that id only; length and order are kept |
| Trackers.UpdateTracker | src/stores/useTrackerStore.ts:51-56 | the store's list is the updated list |
| Trackers.UpdateUnknown | src/stores/useTrackerStore.ts:51-56 | an unknown id changes nothing |
| Trackers.DeleteTracker | src/stores/useTrackerStore.ts:57-60 | exactly the trackers with that id are removed |
| Trackers.DeleteKeepsOrder | src/stores/useTrackerStore.ts:57-60 | deletion distributes over concatenation, so the rest keep their order |
| Trackers.DeleteUnknown | src/stores/useTrackerStore.ts:57-60 | an unknown id changes nothing |
| AutoThreshold.ApplyAutoThreshold | src/hooks/useAutoThreshold.ts:30-40 | nothing changes while the active view has fewer than 30 spins |
| AutoThreshold.Raise | src/hooks/useAutoThreshold.ts:45-54 | only the threshold can change, it never decreases, and it changes only for an eligible tracker, to its positive longest gap |
| AutoThreshold.RaiseAll | src/hooks/useAutoThreshold.ts:42-56 | every tracker is raised, in order |
| AutoThreshold.RaiseIdempotent | src/hooks/useAutoThreshold.ts:52-54 | raising twice equals raising once |
| AutoThreshold.AutoFromPointwise | src/hooks/useAutoThreshold.ts:42-56 | the per-tracker update loop over the snapshot raises each tracker exactly once |
| AutoThreshold.ApplyIsRaiseAll | src/hooks/useAutoThreshold.ts:30-57 | with distinct ids, the rule raises every tracker on the active view once it has 30 spins |
| AutoThreshold.AutoThresholdProperties | src/hooks/useAutoThreshold.ts:30-57 | with distinct ids: same length; thresholds never decrease; only eligible trackers' thresholds change; nothing else changes; applying twice equals once |
| Strategy.TriggeredStrategies | src/components/StrategyIntersection.tsx:14-23 | exactly the trackers whose spinsSinceHit on the active view exceeds their threshold (strictly) |
| Strategy.CommonNumbersSpec | src/components/StrategyIntersection.tsx:26-38 | each reported count is the number's total occurrences in the triggered lists, duplicates included, at least 4; every such number is reported once; counts descend |
| Strategy.OneListCanQualify | src/components/StrategyIntersection.tsx:35-38 | no minimum of triggered trackers: one list repeating a number four times qualifies it |
| TrackerGrid.HandleAddTracker | src/components/TrackerGrid.tsx:18-37 | a tracker is added only for a non-empty trimmed name and numbers text with a parsed value in 0..36; the new tracker has the parsed numbers, no auto-threshold flag and so is eligible; otherwise the store is unchanged |
| TrackerGrid.HandleAddTrackerAdds | src/components/TrackerGrid.tsx:18-30 | a tracker is added exactly when both fields are filled in and some value parses into 0..36 |
| TrackerGrid.SortedTrackers | src/components/TrackerGrid.tsx:44-62 | the sorted list is a permutation of the trackers |
| TrackerGrid.SortedTrackersOrder | src/components/TrackerGrid.tsx:44-62 | on the raw stored history, trackers at their longest gap come first, and spinsSinceHit does not increase within each group |
| Wheel.PositionInverts | src/utils/wheelNeighbors.ts:5-8 | the position table and the wheel sequence are inverse permutations of 0..36 |
| Wheel.PositionUndoesWheel | src/utils/wheelNeighbors.ts:5-8 | position of the i-th pocket's number is i |
| Wheel.WheelUndoesPosition | src/utils/wheelNeighbors.ts:5-8 | the pocket at a number's position holds that number |
| Wheel.WheelIsPermutation | src/utils/wheelNeighbors.ts:5-8 | the wheel sequence has 37 distinct entries, exactly 0..36 |
| Wheel.IndexOf | src/utils/wheelNeighbors.ts:15-18 | −1 exactly when absent, otherwise the first index holding the value |
| Wheel.IndexOfWheel | src/utils/wheelNeighbors.ts:15-18 | on the wheel, the index of n is its position |
| Wheel.NeighborsAt | src/utils/wheelNeighbors.ts:20-38 | seven numbers, with n at index 3 |
| Wheel.NeighborsOn | src/utils/wheelNeighbors.ts:14-39 | [] off the wheel; otherwise seven numbers with n at index 3 |
| Wheel.FoundOnWheel | src/utils/wheelNeighbors.ts:15-18 | every number 0..36 is found on a wheel |
| Wheel.NeighborsAreCyclic | src/utils/wheelNeighbors.ts:24-36 | on any 37-pocket sequence holding n, element k is the pocket at (index + k − 3) mod 37 |
| Wheel.NeighborsOnCyclic | src/utils/wheelNeighbors.ts:20-38 | the same, once indexOf has found n at pocket p |
| Wheel.NeighborsAtCyclic | src/utils/wheelNeighbors.ts:24-36 | the same, from any pocket holding n |
| Wheel.NeighborsDistinct | src/utils/wheelNeighbors.ts:5-8 | the seven neighbours are pairwise distinct |
| Wheel.NeighborsAtDistinct | src/utils/wheelNeighbors.ts:24-36 | seven consecutive pockets of a 37-pocket wheel are pairwise distinct |
| Wheel.NoNeighborsOffWheel | src/utils/wheelNeighbors.ts:15-18 | a number off the wheel has no neighbours |
| Wheel.EuropeanNeighbors | src/utils/wheelNeighbors.ts:14-39 | for the source's wheel: seven distinct numbers with n in the middle for 0..36, and [] otherwise |

## Left out

- Combinations.Vocabulary: the curated tag lists are an input, and generator facts hold for any vocabulary with listed streets. The concrete count of lexicon entries is not computed.
- Wheel.IsWheel: the neighbour lemmas are stated for any 37-entry permutation; the source's sequence is shown to be one.
- Text.Lower: lowercasing covers ASCII letters only; JavaScript's Unicode case mapping is not modelled.
- A street value is `StreetZero` or `StreetNo(k)` for an integer k, labelled `${k}${suffix} Street`. The unanchored street regex is modelled by reading the digits after an optional minus sign.
- getRouletteColor is a parameter (its textual answer), since its module is not part of this model.
- parseInt is an abstract partial parser parameter; its decimal behaviour is not modelled.
- EntityStore.ExpectedGap: the floating-point expectedGap and threshold are exact reals, and rounding is not modelled; the alert test is also proved in integer form.
- Alerts.AlertSound: React effects, zustand `set` plumbing and refs are not modelled. The sound side effect becomes a returned flag, and the stored previous count a returned value.
- generateId: the clock- and random-based id is a fresh-id parameter.
- DataSync, soundNotification, the chat, peer and user stores, TrackerCard and the pure rendering components are not modelled: they are transport, audio, persistence or rendering.
- Sorting.SortBy: JavaScript's sort is stable, but stability is not proved; only the order and the permutation are.
- Trackers.UpdateList: an update's absent fields are `None` and keep the tracker's value; JavaScript's explicit `undefined` fields are not distinguished from absent ones.
- AutoThreshold.AutoThresholdProperties: stated for trackers with distinct ids. With duplicate ids, the per-id update writes each snapshot copy over every tracker sharing the id, which the model computes but does not characterise.
- GapEngine.IncrementalAgreesWithFull: stated for entities with distinct ids; the duplicate-id case is the finding below.
- Trackers.InitializeTrackers: its unused defaultThreshold argument is not modelled.
- TrackerGrid.HandleAddTracker: resetting the form fields after an add is display state and is not modelled.
- PREBUILT_STRATEGIES are an input list of presets.
- The effect scheduling of useAutoThreshold (it re-runs only on a length or pointer change) is not modelled; the rule is applied as a function.

## Findings

| source | as written | input that shows it | evidently intended | confidence | as-written member | corrected member |
|---|---|---|---|---|---|---|
| src/stores/gapAnalysisEngine.ts:138-165 | processNewSpins appends the new spins once for every entity carrying an id, so duplicate ids (the lexicon has three "zero" entities) record each new spin several times | entities [("zero",[0]), ("zero",[0])], reset, new spins [5]: incremental history [0,0], full mode [0] | incremental mode agrees with processAllEntities, which keeps one record per id | not executed | GapEngine.DuplicateIdsDiverge | GapEngine.IncrementalOnceAgreesWithFull |
