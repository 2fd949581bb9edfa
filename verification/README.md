# A verified model of NetSite's compiler, detector and protocols

This project models five parts of NetSite in Dafny 4.11 and proves what each
of them is for. `dafny verify dfyconfig.toml` checks everything.

**netql, the query language** (`pkg/netql`). The lexer and the recursive-descent
parser are classes that move a cursor, as in the source. The lexer tiles its
input; the parser accepts exactly the token sequences of the grammar and builds
the one tree each of them stands for, reports an error at the first token that
no query can contain there, and undoes a printer. The checker is characterised
leaf by leaf. The ClickHouse backend is proved by reading its WHERE clause back
with SQL precedence: it selects the tenant's rows in the window that satisfy
the filter. The PromQL backend is proved the same way on its selector text.
The completer offers in every context exactly what is stated there, and never a
text that closes off every continuation.

**The anomaly detector** (`pkg/anomaly`). Holt-Winters, the seasonal
decomposition, median and MAD, the calendar and `Detect` are written with the
source's loops and proved against recursive specifications. The theorems are
about the algorithm: judgements do not depend on the unit of measurement,
series the model describes leave nothing over, a minority of wild values cannot
move the yardstick, the calendar lookup is right for every list of windows.

**SLO burn alerts** (`pkg/slo`). One evaluation is a step of a state machine
over a stored row; the theorems are about whole runs: when a burn alerts, how
often, and when the store that keeps old alert times behaves like one that
drops them.

**Schema application** (`pkg/store/postgres`, `pkg/store/clickhouse`). A run may
be cut off after any number of database calls, runs may follow each other in any
number, and the schema and the tracking table stay consistent.

**JA3 and JA4 texts** (`pkg/canary/tls`). JA3 text is injective on what it keeps,
shown by a decoder; JA4 text says exactly a stated list of facts.

## Files

| file | contents |
|---|---|
| Basics, Sorting | optional values, joined strings, decimal text; sorting as a function |
| NetqlTypes, Lexer, LexerProps | tokens and trees; the lexer and what its tokens cover |
| ParserSpec, Parser | the productions as functions; the parser class proved against them |
| Grammar, GrammarSound, Automaton, RoundTrip | derivations, both directions; viable prefixes; printing |
| Check, Sql, ClickHouse, ClickHouseProps | checker; a SQL condition reader; the translator; meaning and placeholders |
| PromSpec, Prom, PromProps | readers for PromQL strings, patterns, selectors; the translator; meaning |
| Autocomplete, AutocompleteProps | the completer; viability of suggestions on tokens |
| Offered | what is offered in every context, exactly |
| SuggestedText, OrderOffers | viability on texts; which offered orderings the checker accepts |
| Stats, HoltWinters, Decompose, DecomposeSpike, Calendar | the parts of the anomaly detector |
| Detector, Verdicts | the detector; its verdict from series and configuration |
| Slo, SloRuns | one evaluation and the state row; whole runs |
| Migrations, MigrationProps | the two runners; crash safety |
| Tls, TlsProps | JA3 and JA4 texts |

## Reading the model

- Measurements, SLIs and thresholds are exact reals. Times are integers; for the
  SLO rows, zero is Go's zero time ("never").
- Go's `sort` package appears as the sorted rearrangement; where the order is
  total and antisymmetric it is unique, and where it is not (`sort.Slice` on
  windows) callers learn only that the result is sorted and a permutation.
- A loop that the source runs is a loop here, proved equal to a function; the
  lemmas are about the function.
- Lower-casing is modelled on ASCII letters. Theorems that relate identifiers to
  the text they were read from therefore require the identifiers and keywords of
  that text to be ASCII (`LexerProps.AsciiWords`); string literals may hold
  anything.
- Results of calls into databases, notifiers and clocks are parameters: whether a
  query, read, write or notification succeeds, the current time, and how many
  calls a connection answers before it is gone.

Where the code and its documentation differ, the model follows the code:

- `docs/algorithms/netql-language.md` says numbers are inlined into the SQL and
  shows the tenant condition last; the code binds numbers and puts the tenant
  first. Its grammar wants digits behind a decimal point; the lexer accepts `1.`.
- `pkg/netql/lexer.go:202-205` calls identifiers ASCII; `isIdentStart` accepts
  Latin-1 letters as well, and so does the model's scanner.
- `pkg/netql/translate_prom.go:266-267` speaks of eight regex characters; the
  code escapes fourteen.
- `pkg/slo/evaluator.go:298-306` says an SLI of zero burns at rate zero, and
  `docs/algorithms/multi-window-burn-rate.md` that an empty window counts as
  100 %; in the code an empty window has SLI 0 and burns at `1/(1-objective)`
  (`Slo.SilenceIsFailure`). The same document compares with ≥, the code with >.
- The comment on recovery in `pkg/slo/evaluator.go:288-291` promises a reset of
  the alert time; the Postgres upsert keeps it
  (`SloRuns.RecoveryForgetsOnlyInPlainStore`).
- `pkg/store/postgres/migrate.go:36-39` says idempotent files make a truncated
  tracking table harmless; that needs the list as a whole to be idempotent
  (`MigrationProps.TruncationHarmlessIff`, `MigrationProps.TruncationCanBreak`).
- `docs/algorithms/anomaly-detection.md` says the first two periods of
  Holt-Winters residuals are zero; in the code only the first is.

Things the theorems say that a reader may not expect:

- A suggested `order by` field is rejected by the checker unless it is the metric
  or a name the text already groups by (`OrderOffers.OrderOfferPassesIff`).
- A literal with a line break makes the PromQL selector unreadable, and nothing
  else does (`PromProps.SelectorMeans`); of a literal for a field that is not a
  string nothing reaches the selector (`PromProps.LiteralKeptIff`).
- The MAD vanishes exactly when more than half of the residuals are equal, and then
  nothing is reported (`Detector.NoYardstickIff`). So a perfectly regular series
  whose last value jumps, by any amount, is not reported by the Holt-Winters
  branch (`Detector.SpikeAfterPerfectFitIsSilent`), nor by the decomposition from
  period three on (`Detector.JumpAfterPatternIff`).
- Nothing is offered behind `not` and behind an opening parenthesis, where a field
  would do (`Offered.OfferedIsDue`).
- With exactly two periods of data the last point is part of the Holt-Winters
  seed, and moving it does not move its residual by the same amount
  (`HoltWinters.LastPointShiftIff`).
- Failed notifications make the two ways of storing the alert time differ exactly
  when an evaluation repeats a burning status, nothing has been delivered since
  the last recovery, and the latest delivery is less than a cooldown old
  (`SloRuns.StoresAgreeIff`).

## Model

| member | source | states |
|---|---|---|
| Numbers.ParseFloatOfText | pkg/netql/parser.go:356-374 | every number with a finite decimal text below the float limit is read back from that text exactly |
| Numbers.ParsedIsPrintable | pkg/netql/parser.go:426-452 | every number the parser reads has such a text |
| Lexer.Cursor.Next | pkg/netql/lexer.go:66-115 | one step of the cursor skips white space and takes the token that the text there begins with, or stops at the same offset with an error |
| Lexer.Cursor.LexString | pkg/netql/lexer.go:132-146 | the string ends at the first quote; without one the scan fails |
| Lexer.Cursor.LexNumberOrDuration | pkg/netql/lexer.go:156-185 | the longest run of digits with a dot, a unit letter or neither decides between number, duration and integer |
| Lexer.Cursor.LexIdentOrKeyword | pkg/netql/lexer.go:189-200 | the longest word, its ASCII letters lower-cased, and a keyword exactly if the result is one of the fourteen |
| Lexer.Lex | pkg/netql/lexer.go:46-58 | the whole input is turned into the specified tokens closed by one EOF, or the offset of the first bad token |
| LexerProps.ScanSpells | pkg/netql/lexer.go:66-200 | every scanned token, words being ASCII, is spelled by exactly the text it consumed, and its width can be read off its kind and value |
| LexerProps.SpellingScans | pkg/netql/lexer.go:66-200 | conversely any spelling of a token, followed by a space or nothing, scans to that token |
| LexerProps.LexTilesInput | pkg/netql/lexer.go:46-58 | token spans are in order and disjoint, only white space lies between them, and the one EOF sits at the input's end |
| LexerProps.JoinedLex | pkg/netql/lexer.go:46-115 | spellings joined by single spaces lex to exactly the tokens they spell |
| LexerProps.RelexSpans | pkg/netql/lexer.go:46-200 | lexing the spans of any lexable input with ASCII words again, joined by spaces, gives the same kinds and values |
| Parser.LexCloses | pkg/netql/lexer.go:46-58 | the lexer's output has the shape the parser needs to stay in bounds: one EOF, at the end |
| Parser.Parser.Advance | pkg/netql/parser.go:64-70 | moves past one token and never beyond the EOF |
| Parser.Parser.Accept | pkg/netql/parser.go:75-93 | moves on exactly if kind and, when given, value match |
| Parser.Parser.Expect | pkg/netql/parser.go:96-103 | as accept, or the error names the token under the cursor, which stays |
| Parser.Parser.ParseQuery | pkg/netql/parser.go:108-177 | value, error token and cursor agree with the query production of the specification |
| Parser.Parser.ParseGroupBy | pkg/netql/parser.go:179-199 | value, error token and cursor agree with the group-by production |
| Parser.Parser.ParseOrderBy | pkg/netql/parser.go:201-217 | value, error token and cursor agree with the order-by production |
| Parser.Parser.ParseExpr | pkg/netql/parser.go:220-242 | value, error token and cursor agree with the disjunction production; recursion ends by tokens left and rank |
| Parser.Parser.ParseAndExpr | pkg/netql/parser.go:245-266 | value, error token and cursor agree with the conjunction production |
| Parser.Parser.ParseUnary | pkg/netql/parser.go:269-278 | at most one `not` in front of a term |
| Parser.Parser.ParseTerm | pkg/netql/parser.go:281-297 | value, error token and cursor agree with the term production |
| Parser.Parser.ParsePredicate | pkg/netql/parser.go:300-314 | value, error token and cursor agree with the predicate production |
| Parser.Parser.ParseValueList | pkg/netql/parser.go:382-402 | a list of strings or of numbers, decided by its first item |
| Parser.Parser.ParseNumberList | pkg/netql/parser.go:426-452 | value, error token and cursor agree with the list production, conversion failures included |
| Parser.Parse | pkg/netql/parser.go:40-55 | the query of the token sequence, or the lexer's offset, or the token the specification stops at |
| Grammar.DerivationParses | pkg/netql/parser.go:105-452 | every derivation of the commented grammar is accepted, with the tree it stands for |
| GrammarSound.QueryDerived | pkg/netql/parser.go:105-452 | every accepted token sequence has a derivation, and the tree built is that derivation's |
| GrammarSound.ParsesIffDerived | pkg/netql/parser.go:105-452 | acceptance with tree q is the existence of a derivation with tree q |
| GrammarSound.Unambiguous | pkg/netql/parser.go:219-297 | two derivations of the same tokens stand for the same tree |
| Automaton.ParseFollows | pkg/netql/parser.go:108-177 | the parser stops at the same token, with the same verdict, as a machine with one counter |
| Automaton.AcceptsIffRuns | pkg/netql/parser.go:40-55 | the parser accepts exactly what that machine accepts |
| Automaton.CompletionRuns | pkg/netql/parser.go:105-452 | from every state of the machine a concrete continuation ends in acceptance |
| Automaton.ViableIffRuns | pkg/netql/parser.go:105-452 | a prefix can be continued to a query exactly if the machine has a move on each of its tokens |
| Automaton.ErrorAtFirstBadToken | pkg/netql/parser.go:96-103 | a parse error points at the first token that no query has there |
| RoundTrip.PrintThenParse | pkg/netql/types.go:112-113 | printing a well-formed query and running lexer and parser gives the query back |
| RoundTrip.ParsedCanBePrinted | pkg/netql/parser.go:40-55 | every parsed query is well-formed, so every accepted text has a printed form that parses to the same query |
| MetricRegistry.Registry.Register | pkg/netql/registry.go:138-141 | the metric is found under its name afterwards and every other name is unaffected |
| MetricRegistry.Registry.Get | pkg/netql/registry.go:144-147 | a metric is found exactly if one is registered under the name, and the one found carries that name |
| TypeCheck.OneEntryDecides | pkg/netql/check.go:37-82 | registering another metric leaves the verdict on a query alone, and registering its own decides it |
| TypeCheck.LeafIff | pkg/netql/check.go:106-173 | the matrix: string fields take a string with `=`, `!=`, `contains`, `matches` or a string list with `in`, the others a number with one of the six comparisons or a number list with `in`, and nothing else passes |
| TypeCheck.CheckExprIff | pkg/netql/check.go:84-116 | the walk accepts an expression exactly if every leaf, however nested, has a filterable field and fitting operator and literal |
| TypeCheck.CheckIff | pkg/netql/check.go:37-82 | the checker accepts exactly the queries whose metric, groups, leaves, order and limit are admissible |
| TypeCheck.ErrorNamesCulprit | pkg/netql/check.go:37-116 | the error names the first thing wrong: metric, groups, filter leaves from left to right, ordering, limit, everything before it being right |
| Sql.PositionFinds | pkg/netql/translate_ch.go:207-214 | `position(...) > 0` holds exactly if the needle occurs |
| ClickHouse.Translator.WriteWhere | pkg/netql/translate_ch.go:119-135 | text and arguments grow by the clause of the query, the tenant being argument one |
| ClickHouse.Translator.WriteExpr | pkg/netql/translate_ch.go:175-188 | text and arguments grow by what the expression emits, numbered from the arguments bound so far |
| ClickHouse.Translator.WriteJoin | pkg/netql/translate_ch.go:190-199 | the loop writes the parts between brackets with the separator in between and threads the numbering through |
| ClickHouse.Translator.WritePredicate | pkg/netql/translate_ch.go:201-220 | text and arguments grow by what the leaf emits |
| ClickHouse.Translator.BindScalar | pkg/netql/translate_ch.go:222-230 | strings and numbers bind one argument, lists none; the placeholder is the number of arguments either way |
| ClickHouse.Translator.BindList | pkg/netql/translate_ch.go:232-258 | one argument per element, and placeholders in the order of their texts |
| ClickHouse.TranslateClickHouse | pkg/netql/translate_ch.go:66-92 | checker errors first, then the backend, then clause and arguments |
| ClickHouseProps.ExprReads | pkg/netql/translate_ch.go:175-258 | in front of any text that cannot extend it, an emitted expression is read by SQL precedence as the condition it was written for |
| ClickHouseProps.WhereReads | pkg/netql/translate_ch.go:119-199 | the clause is read back as tenant, window and filter, in conjunction |
| ClickHouseProps.ExprEval | pkg/netql/translate_ch.go:175-258 | with its arguments bound, that condition holds of a row exactly if the filter does |
| ClickHouseProps.WhereMeans | pkg/netql/translate_ch.go:119-135 | for every query the checker accepts and every row of the declared types, the clause selects exactly the tenant's rows that are no older than the query's own window in seconds, 3600 without one, and satisfy the filter |
| ClickHouseProps.CompiledMeans | pkg/netql/translate_ch.go:66-92 | the same from the query text on: lexed, parsed, checked and translated |
| ClickHouseProps.ListUses | pkg/netql/translate_ch.go:232-258 | sorting the placeholders as strings ("$10" before "$2") loses and repeats none |
| ClickHouseProps.ScalarUses | pkg/netql/translate_ch.go:222-230 | a comparison uses a fresh placeholder exactly if its literal is a string or a number |
| ClickHouseProps.ExprUses | pkg/netql/translate_ch.go:175-258 | an accepted expression binds its literals from left to right and uses each of their placeholders once |
| ClickHouseProps.PlaceholdersMatchArgs | pkg/netql/translate_ch.go:77-82 | argument one is the tenant, the rest are the filter's literals in order, and `$1` to `$n` each occur exactly once |
| Prom.Quote | pkg/netql/translate_prom.go:252-264 | the loop writes the quoted form of the string |
| Prom.RegexEscape | pkg/netql/translate_prom.go:268-279 | the loop writes the escaped form of the string |
| Prom.Translator.CollectLabels | pkg/netql/translate_prom.go:108-132 | appends the matchers of a conjunction in order, or returns the first error |
| Prom.Translator.CollectPredicate | pkg/netql/translate_prom.go:140-170 | appends the one matcher of a leaf, or returns its error and appends nothing |
| Prom.Translator.EmitMatchers | pkg/netql/translate_prom.go:175-184 | nothing for no matchers, otherwise the sorted brace list |
| Prom.TranslateSelector | pkg/netql/translate_prom.go:68-90 | checker errors first, then the backend, then the filter that cannot be expressed, then the selector |
| PromProps.QuoteReads | pkg/netql/translate_prom.go:250-264 | a quoted string reads back as itself exactly if it holds no line break |
| PromProps.ContainsPatternMeans | pkg/netql/translate_prom.go:158-164 | the anchored pattern with both `.*` matches exactly the strings that contain the literal |
| PromProps.ContainsPatternReads | pkg/netql/translate_prom.go:266-279 | the escaped pattern is read as any text, the literal characters, any text |
| PromProps.LowersIff | pkg/netql/translate_prom.go:108-170 | lowering succeeds exactly on nested conjunctions of `=`, `!=`, `contains` and `matches`, with one matcher per leaf |
| PromProps.ErrorNamesObstacle | pkg/netql/translate_prom.go:108-170 | the error names the first thing, from left to right, that a selector cannot say: an `or`, a `not`, a field without label, an operator |
| PromProps.SelectorReads | pkg/netql/translate_prom.go:175-184 | the sorted selector text reads back as the same set of matchers exactly if no value holds a line break |
| PromProps.SelectorMeans | pkg/netql/translate_prom.go:108-184 | the selector is readable exactly if no literal holds a line break, and then selects exactly the series the filter selects, a field that can be grouped by meaning the label it is grouped under |
| PromProps.CompiledSelectorMeans | pkg/netql/translate_prom.go:68-90 | the same from the query text on, for queries with and without a filter |
| PromProps.LiteralKeptIff | pkg/netql/translate_prom.go:140-170 | for every expressible leaf, two accepted literals give the same matcher exactly if they are equal or the field is not a string field |
| PromProps.FaithfulEngine | pkg/netql/translate_prom.go:158-164 | the assumption about the regex engine can be met |
| PromProps.NumericEqualityIsLost | pkg/netql/translate_prom.go:154-155 | an accepted equality on a numeric field compares the label with the empty string |
| Autocomplete.ScanGroupByList | pkg/netql/autocomplete.go:291-313 | the backward scan agrees with its recursive specification |
| Autocomplete.SortByText | pkg/netql/autocomplete.go:317-328 | a rearrangement of the suggestions, ordered without regard to case |
| Autocomplete.SuggestBehind | pkg/netql/autocomplete.go:122-188 | the suggestions behind a known metric are exactly those of the offer for the last tokens, each text and kind once, in order |
| Autocomplete.Autocomplete | pkg/netql/autocomplete.go:86-188 | the suggestions are those of the offer for the clamped prefix, each text and kind once, in order; every metric if the prefix does not lex |
| Autocomplete.EntryTexts | pkg/netql/autocomplete.go:201-274 | the texts the theorems below speak of are exactly the texts of the suggestions |
| AutocompleteProps.ScanIsExact | pkg/netql/autocomplete.go:288-313 | behind a comma of a viable prefix the scan tells group-by lists from value lists exactly |
| AutocompleteProps.OrderByIsExact | pkg/netql/autocomplete.go:276-286 | behind `by` of a viable prefix the test for `order` tells the two clauses apart exactly |
| AutocompleteProps.SuggestionsStayViable | pkg/netql/autocomplete.go:86-188 | if some continuation of the prefix is a query, so is some continuation of the prefix with any suggested token |
| SuggestedText.LexLonger | pkg/netql/lexer.go:66-200 | lexing a text, a space and more gives the tokens of the text and then those of the rest |
| SuggestedText.SuggestionContinues | pkg/netql/autocomplete.go:86-188 | typing a suggestion behind a text whose tokens can become a query adds exactly its token, and some text behind that is accepted by lexer and parser |
| AutocompleteProps.OfferedFieldsAreListed | pkg/netql/autocomplete.go:231-258 | fields offered for grouping or filtering pass the checker's lists for the metric |
| AutocompleteProps.OrderOfferCanBeRejected | pkg/netql/autocomplete.go:240-245 | for every metric with a groupable field of another name, a suggested order-by is a query the checker rejects |
| OrderOffers.OfferIsQuery | pkg/netql/autocomplete.go:240-245 | a viable prefix ending in `order by`, continued by an offered field, is a query of the prefix's metric and groups ordered by that field |
| OrderOffers.OrderOfferPassesIff | pkg/netql/check.go:58-77 | that query is accepted exactly if it is without the ordering and the field is the metric or one of the names the prefix groups by |
| OrderOffers.AllOrderOffersPassIff | pkg/netql/autocomplete.go:240-245 | everything offered passes exactly if the metric has no groupable field besides itself and those names |
| Offered.OfferedIsDue | pkg/netql/autocomplete.go:122-188 | behind two or more tokens of a viable prefix of a known metric exactly what is due is offered: the groupable fields where a group is due, these and the metric where an ordering is, the filterable fields behind `where`, `and`, `or`, the nine operators behind the name that follows one of these or `not`, `by` behind `order`, `limit` behind a direction, nothing anywhere else |
| Offered.OfferedForText | pkg/netql/autocomplete.go:99-136 | from the text on: every metric if it does not lex, is empty or is one name still being typed, the six clause words behind one name and white space, nothing for an unknown metric, otherwise what is due |
| Offered.CursorClamped | pkg/netql/autocomplete.go:90-96 | the text considered is the beginning of the input up to the cursor, an offset outside being moved to the nearer end |
| Offered.OfferedInOrder | pkg/netql/autocomplete.go:317-328 | of two suggestions the one whose text is smaller, upper and lower case being the same, comes first |
| Sorting.TextLeqIff | pkg/store/clickhouse/schema.go:169-171 | texts are ordered by the first character in which they differ, a beginning before what it begins |
| Stats.ComputeMedian | pkg/anomaly/stl.go:205-216 | the middle, or the mean of the two middles, of the sorted values; zero for none |
| Stats.ComputeMAD | pkg/anomaly/stl.go:186-200 | the median of the distances from the median |
| Stats.MedianIsMiddle | pkg/anomaly/stl.go:205-216 | twice the median is the sum of the two middle entries, for an odd number the same one twice, of any ascending rearrangement |
| Stats.MADIsMiddle | pkg/anomaly/stl.go:186-200 | twice the MAD is that sum for the distances from the median |
| Stats.MedianBreakdown | pkg/anomaly/stl.go:202-216 | if more than half of the values lie in an interval, so does the median, whatever the others are |
| Stats.MADBreakdown | pkg/anomaly/stl.go:182-200 | then the MAD is between zero and the interval's width |
| Stats.MADZeroIff | pkg/anomaly/stl.go:182-200 | the MAD is zero exactly if there are no values or more than half of them are equal |
| Stats.MedianAffine | pkg/anomaly/stl.go:202-216 | the median follows every change of unit and origin, negative factors included |
| Stats.MADAffine | pkg/anomaly/stl.go:182-200 | the MAD ignores the origin and scales with the size of the factor |
| HoltWinters.InitialAdditiveSeasonals | pkg/anomaly/holtwinters.go:133-149 | the nested loops compute the centred phase means of two cycles |
| HoltWinters.InitialTrend | pkg/anomaly/holtwinters.go:152-158 | the mean of the slopes between the first two cycles |
| HoltWinters.FitHoltWinters | pkg/anomaly/holtwinters.go:79-127 | the in-place loop computes the recursive model state, every in-sample forecast and the next one; bad period and short data are told apart |
| HoltWinters.SeedSumsToZero | pkg/anomaly/holtwinters.go:129-149 | the seed seasonals sum to zero for every input |
| HoltWinters.SeedMeans | pkg/anomaly/holtwinters.go:87-96 | level times period is the sum of the first cycle, trend times period squared the difference of the sums of the first two, and the seasonals sum to zero and differ as the phase sums do, by half |
| HoltWinters.ErrorCorrection | pkg/anomaly/holtwinters.go:103-113 | for all weights, a forecast error e moves the level by alpha e, the trend by beta alpha e, and the season of its phase by gamma (e - alpha e), and no other phase |
| HoltWinters.FitReports | pkg/anomaly/holtwinters.go:115-126 | the fit reports the model behind the last value, and as next forecast what the fit of any continued series has in sample there; its in-sample forecasts are a beginning of those |
| HoltWinters.StateAffine | pkg/anomaly/holtwinters.go:93-113 | fitting transformed data is transforming the fitted model, at every step |
| HoltWinters.InSampleAffine | pkg/anomaly/holtwinters.go:101-113 | so every in-sample forecast is transformed like the data |
| HoltWinters.StateCausal | pkg/anomaly/holtwinters.go:101-113 | series that agree on their first t entries, two periods or more, have the same model up to there |
| HoltWinters.InSampleCausal | pkg/anomaly/holtwinters.go:101-113 | and the same in-sample forecasts up to entry t |
| HoltWinters.LastPointShift | pkg/anomaly/detector.go:96-104 | with more than two periods, moving the last value by d moves its residual by d |
| HoltWinters.LastPointLeaksIntoSeed | pkg/anomaly/holtwinters.go:129-158 | with two periods of length two a quarter of the shift remains, for all smoothing weights |
| HoltWinters.LastPointShiftIff | pkg/anomaly/holtwinters.go:93-158 | for every period and length, the residual follows the last value on all series and for all weights exactly if there are more than two periods |
| HoltWinters.SeasonalFixedPoint | pkg/anomaly/holtwinters.go:93-113 | on a level with a repeating zero-sum pattern the model never moves |
| HoltWinters.SeasonalInSample | pkg/anomaly/holtwinters.go:101-113 | and every in-sample forecast is the observed value |
| Decompose.CentredMovingAverage | pkg/anomaly/stl.go:149-180 | the loops compute the centred average, over one window for odd and two for even periods, zero at the edges |
| Decompose.ComputePeriodMeans | pkg/anomaly/stl.go:92-118 | sums and counts per phase over the centres give the centred phase means |
| Decompose.DecomposeSeries | pkg/anomaly/stl.go:79-140 | trend, season, residual and period means are the specified ones; bad period and short data are told apart |
| Decompose.PatternTrend | pkg/anomaly/stl.go:149-180 | on line plus zero-sum pattern the centred average is the line, for odd and even periods |
| Decompose.ExactRecovery | pkg/anomaly/stl.go:79-140 | on such a series the decomposition finds line and pattern and leaves no residual |
| Decompose.TrendIsCentredMean | pkg/anomaly/stl.go:149-180 | for any data the trend is the mean of the period around the entry, of two such stretches for an even period, and zero within half a period of the ends |
| Decompose.SeasonBalances | pkg/anomaly/stl.go:92-132 | for any data the season repeats, sums to zero over a period, and leaves the same mean residual in every phase |
| Decompose.TrendAffineAt | pkg/anomaly/stl.go:149-180 | the trend follows every change of unit and origin |
| Decompose.PeriodMeansAffine | pkg/anomaly/stl.go:92-118 | the season scales and ignores the origin |
| Decompose.ResidualAffine | pkg/anomaly/stl.go:126-132 | so does the residual, edges included |
| SuppressionCalendar.Calendar.constructor | pkg/anomaly/calendar.go:69-75 | a fresh array with the windows given, sorted by start |
| SuppressionCalendar.Calendar.Search | pkg/anomaly/calendar.go:86-89 | the binary search separates the windows that have started from those that have not |
| SuppressionCalendar.Calendar.Suppresses | pkg/anomaly/calendar.go:82-111 | suppressed exactly if some window covers t, with the reason of a covering window of latest start |
| SuppressionCalendar.LatestBelow | pkg/anomaly/calendar.go:98-110 | walking down, the first window that has not ended has the latest start of all that cover t |
| SuppressionCalendar.Suppression | pkg/anomaly/calendar.go:69-111 | construction and lookup together, for any list: overlapping, nested, empty or unordered |
| Detector.CheckSortedAsc | pkg/anomaly/detector.go:204-211 | comparing neighbours decides whether the whole series is in order |
| Detector.FitSucceeds | pkg/anomaly/detector.go:85-95 | after the chooser the fit cannot fail |
| Detector.Detect | pkg/anomaly/detector.go:51-158 | errors, method, forecast, residual, MAD, units, severity and suppression are the specified ones |
| Verdicts.DetectChooses | pkg/anomaly/detector.go:51-77 | empty and unsorted series are refused; below the minimum (three periods by default) or two periods nothing is judged, below four periods Holt-Winters is asked, from then on the decomposition |
| Verdicts.DetectReports | pkg/anomaly/detector.go:85-134 | forecast and MAD are those of the fit or decomposition of the values, over the residuals behind the first period or away from both ends; units times MAD is the size of the residual |
| Verdicts.SeverityMeans | pkg/anomaly/detector.go:184-200 | without a calendar: critical from the critical threshold on, else an anomaly from the anomaly threshold on, else to be watched from the watch threshold on, else none, thresholds of zero standing for eight, five and three |
| Verdicts.SuppressionMeans | pkg/anomaly/detector.go:140-158 | suppressed exactly if judged and some window holds the latest point; then anomaly and critical become watch; everything else is the verdict without a calendar |
| Detector.DetectAffine | pkg/anomaly/detector.go:51-158 | changing unit and origin leaves method, severity, MAD units and suppression alone and transforms forecast, residual and MAD accordingly |
| Detector.SeasonalSeriesIsQuiet | pkg/anomaly/detector.go:85-139 | a level with a zero-sum pattern of the configured period has residual zero, MAD zero and severity none under every method |
| Detector.SlopeLagsButStaysQuiet | pkg/anomaly/detector.go:108-139 | with a slope the decomposition's forecast is off by slope times half a period and nothing is reported |
| Detector.BreakdownIsCritical | pkg/anomaly/detector.go:136-139 | if most residuals lie in an interval, an unsuppressed latest residual of threshold times its width is critical |
| Detector.NoYardstickIff | pkg/anomaly/detector.go:136-139 | the MAD is zero exactly if more than half of the residuals are equal, and then nothing is reported |
| Detector.SeverityGrows | pkg/anomaly/detector.go:136-153 | for all thresholds, in any order, a larger deviation is never ranked lower, suppressed or not |
| Detector.SpikeAfterPerfectFitIsSilent | pkg/anomaly/detector.go:85-104 | a perfectly seasonal series with any last value is not reported by the Holt-Winters branch |
| Detector.JumpAfterPatternIff | pkg/anomaly/detector.go:108-139 | when the last value of line plus zero-sum pattern jumps, the decomposition has MAD zero, and reports nothing, exactly from period three on or without a jump |
| DecomposeSpike.ResidualJump | pkg/anomaly/stl.go:79-180 | what such a jump does to each residual: a common offset, another for the last centre's phase, and the last centre itself |
| Detector.LatestPointMovesResidual | pkg/anomaly/detector.go:96-104 | with more than two periods the forecast for the latest point does not depend on it |
| Slo.SliMeans | pkg/slo/evaluator.go:87-90 | the SLI times the probes is the good ones; zero for no probes |
| Slo.BurnMeans | pkg/slo/evaluator.go:307-315 | burning faster than t means more failed probes than t times what the target allows for that many, for an empty window more than t times the budget for one; at rate zero if the target is not between 0 and 1 |
| Slo.StatusMeans | pkg/slo/evaluator.go:321-332 | the four statuses in counts of probes: silence of both fast windows, both fast windows over budget, both slow windows over budget, in that order, for every target |
| Slo.SilenceIsFailure | pkg/slo/evaluator.go:75-91 | unless both fast windows are empty, an empty window classifies like one in which everything failed |
| Slo.Store.UpsertState | pkg/slo/store.go:314-332 | the row of the id is replaced, a null alert time keeping the stored one under the Postgres rule; other rows stay |
| Slo.Store.GetState | pkg/slo/store.go:337-363 | the stored row, or an unknown state for a missing one |
| Slo.Evaluator.MakeEvent | pkg/slo/evaluator.go:232-248 | the event carries the slow figures for a slow burn and the fast ones otherwise |
| Slo.Evaluator.Notify | pkg/slo/evaluator.go:206-293 | the event sent, if any, and the state to store are those of the step, a refused URL included |
| Slo.Evaluator.EvaluateOne | pkg/slo/evaluator.go:194-296 | new row, events sent and success are those of the step, through every early return; other rows stay |
| Slo.EvaluateAlerts | pkg/slo/evaluator.go:222-279 | an alert is sent, once, exactly on entering a burn, burning and never alerted, or a cooldown after the last alert, unless a URL is set that does not begin with https://; the event carries target, instant, threshold, window length, SLI and burn rate of the long window of its kind |
| Slo.EvaluateWrites | pkg/slo/evaluator.go:194-296 | it fails exactly if a query, the read or the write does, and then leaves the row; otherwise the row holds instant, status, burn rate of the fast long window, and the alert time: now if delivered, the old one while burning, none or what the upsert keeps otherwise |
| Slo.Evaluator.Tick | pkg/slo/evaluator.go:176-189 | nothing happens if the objectives cannot be listed; otherwise they are evaluated in order, whatever fails, repeated ids included |
| Slo.RoundsAreIndependent | pkg/slo/evaluator.go:176-189 | with distinct ids every objective gets the step of its own row and no other row changes |
| Slo.RoundSends | pkg/slo/evaluator.go:176-189 | and the round hands out the events of those steps, in order, and no others |
| SloRuns.SmoothStep | pkg/slo/evaluator.go:222-293 | without failures the stored row holds the status and, while burning, the time of the latest alert |
| SloRuns.BlockRemembers | pkg/slo/evaluator.go:222-293 | throughout a stretch of one burning status the row holds the time of that stretch's latest alert |
| SloRuns.BlockAlerts | pkg/slo/evaluator.go:222-231 | such a stretch alerts on its first evaluation and then exactly when a cooldown has passed since its latest alert |
| SloRuns.AlertGaps | pkg/slo/evaluator.go:222-231 | consecutive alerts are at least a cooldown and less than a cooldown plus the largest evaluation gap apart |
| SloRuns.AlertBudget | pkg/slo/evaluator.go:128-134 | a stretch lasting d alerts at least once and at most 1 + d / cooldown times |
| SloRuns.AlikeRuns | pkg/slo/store.go:314-332 | statuses agree, and alert times agree whenever burning, in every pair of runs without failed notifications |
| SloRuns.StoresAgree | pkg/slo/store.go:314-332 | so the Postgres rule and the overwriting rule send the same events, even when queries, reads or writes fail or the URL is refused |
| SloRuns.StoreRemembers | pkg/slo/store.go:314-363 | with failing notifications the overwriting store holds the latest delivery since the last recovery, the Postgres store the latest of all |
| SloRuns.StoresAgreeIff | pkg/slo/evaluator.go:222-293 | where queries, reads and writes succeed, both send the same events at every evaluation exactly if no evaluation repeats a burning status with nothing delivered since the last recovery and a delivery less than a cooldown old |
| SloRuns.RetryAfterFailure | pkg/slo/evaluator.go:222-293 | a failed notification is tried again at the next evaluation exactly if the row has no alert time or one a cooldown old |
| SloRuns.UnsavedAlertRepeats | pkg/slo/evaluator.go:280-295 | an alert whose row could not be written is sent again by the next evaluation in the same status |
| SloRuns.RecoveryForgetsOnlyInPlainStore | pkg/slo/store.go:319-327 | recovery clears the stored alert time under the overwriting rule and keeps it under the Postgres rule |
| SloRuns.StoresDiverge | pkg/slo/evaluator.go:280-293 | four evaluations on which this happens |
| Migrations.ListSqlFiles | pkg/store/postgres/migrate.go:155-173 | the loop and the sort compute the specified list |
| Migrations.SqlNamesExactly | pkg/store/clickhouse/schema.go:153-171 | the list holds exactly the names of the entries that are no directory and end in `.sql`, each once, in lexicographic order |
| Migrations.Postgres.ApplyOne | pkg/store/postgres/migrate.go:177-199 | body and record take effect together, or neither does |
| Migrations.Postgres.Migrate | pkg/store/postgres/migrate.go:90-125 | schema, tracking table and success after a run cut off anywhere are the specified ones |
| Migrations.ClickHouse.ApplyOne | pkg/store/clickhouse/schema.go:177-188 | cut off between its two statements it leaves the body in effect and unrecorded; otherwise both take effect or neither |
| Migrations.ClickHouse.Apply | pkg/store/clickhouse/schema.go:89-124 | schema, tracking table and success after a run cut off anywhere are the specified ones |
| MigrationProps.PostgresAlwaysPrefix | pkg/store/postgres/migrate.go:79-125 | after any sequence of cut-off runs the recorded files are a prefix and the schema is their fold |
| MigrationProps.PostgresDoneMeansFold | pkg/store/postgres/migrate.go:90-125 | a run that reports success has left every file applied exactly once |
| MigrationProps.PostgresRecovers | pkg/store/postgres/migrate.go:79-89 | whatever was cut off before, the first run long enough finishes |
| MigrationProps.PostgresSecondRun | pkg/store/postgres/migrate.go:31-39 | a run after that changes nothing |
| MigrationProps.TruncationReplays | pkg/store/postgres/migrate.go:36-39 | with an emptied tracking table the next run executes every file again on the schema they produced |
| MigrationProps.TruncationHarmlessIff | pkg/store/postgres/migrate.go:36-39 | that finishes and leaves the schema alone exactly if the whole list, executed on that schema, goes through and gives it again |
| MigrationProps.TruncationCanBreak | pkg/store/postgres/migrate.go:36-39 | idempotence of every single file is not enough: create A, then rename A to B |
| MigrationProps.ClickHouseAlwaysPrefix | pkg/store/clickhouse/schema.go:89-124 | if executing a file again right after itself does nothing, the recorded files are a prefix and the schema is their fold or one file ahead |
| MigrationProps.ClickHouseDoneMeansFold | pkg/store/clickhouse/schema.go:89-124 | then a successful run equals applying each file once |
| MigrationProps.ClickHouseRecovers | pkg/store/clickhouse/schema.go:89-124 | then the first run long enough finishes, whatever was cut off before |
| MigrationProps.ClickHouseSecondRun | pkg/store/clickhouse/schema.go:108-112 | a run after that changes nothing |
| MigrationProps.IdempotentSettles | pkg/store/clickhouse/schema.go:46-49 | the documented convention, every file idempotent, implies that condition |
| MigrationProps.CrashHarmlessIff | pkg/store/clickhouse/schema.go:173-188 | a crash between the two statements of file k is repaired by the next run exactly if executing that file again changes nothing |
| MigrationProps.CrashRepeatsABody | pkg/store/clickhouse/schema.go:173-188 | without it a file is executed twice and recorded once, where Postgres executes it once |
| MigrationProps.RecordedComeFirst | pkg/store/postgres/migrate.go:152-173 | every recorded file precedes every unrecorded one in lexicographic order |
| Tls.GreaseTable | pkg/canary/tls/ja3.go:172-181 | the byte test accepts exactly the sixteen values of section 2 of RFC 8701 |
| Tls.StripGrease | pkg/canary/tls/ja3.go:161-170 | the loop keeps the other values in order |
| Tls.StrippedInsert | pkg/canary/tls/ja3.go:154-170 | GREASE put anywhere into a list disappears again |
| Tls.StrippedPermuted | pkg/canary/tls/ja3.go:154-170 | stripping commutes with reordering |
| Tls.JoinNumbers | pkg/canary/tls/ja3.go:129-152 | the loop writes the decimals joined by the separator, nothing for no values |
| Tls.UnjoinedJoined | pkg/canary/tls/ja3.go:129-152 | splitting and reading joined decimals gives the values back, the empty list included |
| Tls.JA3String | pkg/canary/tls/ja3.go:112-121 | the five fields in order, the three lists without GREASE |
| Tls.Ja3RoundTrip | pkg/canary/tls/ja3.go:108-152 | a decoder recovers from the text the version, ciphers, extensions and curves without the sixteen GREASE values, and the point formats |
| Tls.Ja3Injective | pkg/canary/tls/ja3.go:108-152 | two hellos share a JA3 text exactly if they agree on those, GREASE aside |
| Tls.TwoDigitsRead | pkg/canary/tls/ja4.go:190-201 | two characters that determine the count up to 99 |
| Tls.Ja4a | pkg/canary/tls/ja4.go:86-109 | the context part is the specified ten characters |
| Tls.Ja4b | pkg/canary/tls/ja4.go:113-117 | the hash input is the sorted, stripped ciphers |
| Tls.Ja4c | pkg/canary/tls/ja4.go:134-147 | the hash input is the sorted extensions without server name and ALPN, then the signature algorithms in order |
| Tls.JA4 | pkg/canary/tls/ja4.go:73-81 | nothing for a blank hello, otherwise the three parts |
| TlsProps.SameFactsSameText | pkg/canary/tls/ja4.go:73-159 | equal facts give equal texts, whatever the hash |
| TlsProps.Ja4Shows | pkg/canary/tls/ja4.go:73-215 | the whole text from the hello: each character of the context, the hash input of the ciphers in ascending order, zeros for none, and that of the extensions in ascending order without server name and ALPN and the signature algorithms as they come, all without GREASE; no text for a blank hello |
| TlsProps.Ja4SaysExactly | pkg/canary/tls/ja4.go:73-159 | up to hash collisions, two texts are equal exactly if version mark, server-name flag, capped extension count, ALPN mark, the multisets of ciphers and counted extensions, and the signature algorithms agree |
| TlsProps.Ja4IgnoresOrder | pkg/canary/tls/ja4.go:110-147 | reordering ciphers or extensions changes nothing |
| TlsProps.Ja4IgnoresGrease | pkg/canary/tls/ja4.go:73-147 | putting GREASE into ciphers, extensions or signature algorithms changes nothing, except that it can unblank a blank hello |

## Left out

- Source positions in the syntax tree and the wording of errors: the model keeps which token or offset an error points at.
- Expressions and values are sum types, so that exactly one alternative is set, which the source keeps by convention, holds by construction.
- Lexer.Cursor.LexIdentOrKeyword: lower-casing of bytes beyond ASCII is not modelled, because it depends on how runs of them decode as UTF-8.
- Floating-point rounding, NaN and infinities: values are exact reals; a literal is rejected from the bound at which float64 would overflow.
- ClickHouse.TranslateClickHouse: the SELECT, FROM, GROUP BY, ORDER BY and LIMIT text is not modelled, because it is concatenation without a meaning to preserve.
- Prom.TranslateSelector: the error for a metric without a Prometheus part and the text around the selector are not modelled.
- SQL text is modelled as tokens, not characters, and SQL NULL and Nullable columns are not modelled: a row has a value of the declared type in every filterable column.
- `matches` is an uninterpreted relation per backend, and `step` is read by neither backend.
- The PromQL templates around the selector (`rate`, `sum by`, `histogram_quantile`, the range and by-clause): string templates.
- PromProps.SelectorMeans: the fields of the filter are assumed to be strings with well-formed label names, as in the built-in registry; LiteralKeptIff shows what the first of these is for.
- Autocomplete.Autocomplete: the `Detail` texts of suggestions are not modelled.
- The contents of `DefaultRegistry` and `Registry.Names`.
- `Detect`'s free-text reason and its evaluation time; the suppression reason is modelled at the calendar.
- The SQL that counts canary results, its optional filters, and `now()` inside it: a window is its two counts.
- `Run`'s ticker, logging and the webhook's HTTP exchange: whether a notification succeeds is a parameter, and only the https check of the URL is modelled.
- SloRuns.BlockAlerts: runs are of one objective with fixed settings; changes of thresholds or of the URL between evaluations are not modelled.
- The rounding of `last_burn_rate` to four places in Postgres: the evaluator never reads it back.
- Concurrent migration runs, and file sets that change between runs.
- A statement inside a schema file failing halfway: executing a file is one step that happens or is refused.
- MD5 and SHA-256: the hash is an arbitrary function with results of twelve characters.
- HTTP handlers, authentication, the CLI, the canary runners, the POP agent, the React shell and the remaining stores: no property of the kind proved here.
