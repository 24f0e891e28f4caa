# CRL: a verified model of the compiler front-end and its decision procedure

CRL is a language of rules, clusters and a final policy over evidence. This project models the parts of
its compiler and evaluator that carry the promises its documentation makes (canonical text recompiles to
itself, grouping and order do not change the hash, stale or missing evidence never authorizes, a policy
may not gain from a rule failing), together with the two self-contained algorithms beside them: canonical
JSON and the graph layout.

`dafny verify dfyconfig.toml` checks the whole project.

## How it is laid out

Code that mutates state in the original is imperative here: each class or loop method is proved equal to a
function (the specification), and the promises are lemmas about that function.

| part | modules |
|---|---|
| quorum expressions | `Names`, `QuorumSyntax`, `QuorumParser`, `QuorumRoundTrip`, `QuorumText`, `QuorumNormal`, `QuorumEquivalence`, `QuorumCompile` |
| source text | `Lexer`, `Syntax`, `LexedLines`, `WordLines`, `CountLines`, `QuorumLexed`, `LexedSource`, `LineParsing`, `CountSpellings`, `SourceText` |
| evaluation | `Kleene`, `Evidence`, `Predicates`, `Bundles`, `QuorumCounting`, `BundleFreshness`, `Durations` |
| static checks and what they buy | `Analysis`, `Layering`, `LayerIndependence`, `EvidenceMonotone`, `EmptyProbe`, `StaleEvidence`, `Withholding`, `WithholdingExactly` |
| inputs that show a limit | `SmallBundle`, `WithholdingGains`, `HeirBundle`, `InheritedBudget` |
| documents | `Documents`, `DocumentBuilder`, `CanonicalLayout`, `CanonicalBudget`, `CanonicalWords`, `LinesReadBack`, `CanonicalText`, `CompiledDocuments` |
| canonical JSON | `CanonicalJson`, `CanonicalJsonNormal` |
| graph layout | `GraphGeometry`, `GraphLayers`, `GraphDependencies`, `GraphPlacement`, `GraphSizing`, `GraphResolving`, `GraphRoutes`, `GraphPictures`, `GraphLayout` |

## Reading the statements

- An expression tree may be malformed, as a caller-built one can be. `Tokens` and `Render` are the printer,
  `ParseTokens` the parser with its 512-token and 64-level limits, `Norm` the normal form, `NormalizeQuorum`
  the guarded normaliser, `ParseFields` and `ParseQuorumExpression` the text path before and after it.
  `Equivalent` is defined by rewrite steps (reorder, regroup, respell a name), not through `Norm`.
- Facts are one map from strings to values; a subject is looked up under its five spellings, and
  `observed_at.` keys date a signal. The clock is an instant in nanoseconds or absent. `Reading` is the
  three-valued reading of a subject under one of the two freshness modes.
- `EvalBundle` is the sequential run that publishes into the working facts; `EvalSimultaneous` evaluates each
  layer against the same facts. `Accepted` is what the results about evaluation need of `normalizeBundle` and
  `analyzeNormalizedBundle`; `Compiles` adds the checks they do not need (stated fields, source independence,
  reachability), and every bundle exhibited as an input passes those too. `CleanNames` is the assumption that no
  declared name starts with `observed_at.`, `provider.`, `rule.` or `cluster.`; the compiler does not enforce it,
  and without it the derived keys could collide with declared names.
- `Supplements(b, f, g, now)` says that `g` keeps every fresh field of `f` and every subject whose reading in
  `f` is known; of a subject spelled like an operator, which no expression can name, only that it still counts.
  `g` may refresh what is stale, settle what is unknown either way, and add facts as long as no
  known subject turns stale by it: a stale signal added to a collector makes the collector stale.
- `Withheld(g, N)` is `g` without any spelling, observation time included, of the declared names `N`.
  `GainsNothing` asks that every collector outside `N` that has a visible value and is stale in `g` keeps a stale
  signal outside `N`. A value is visible when it is truthy or its name can stand in an expression. `NeverGains`
  says that no bundle the compiler takes, whatever rules, clusters and final policy it puts on the same
  collectors, authorizes on `Withheld(g, N)` and not on `g`.
- `BuildSource(text, lib)` is the whole way from characters to a document: lexing, splitting into statements,
  reading the fields of each, building. `Library` is what the standard library reads (quoted strings, numbers,
  instants) together with the reading of the two sides of a `need`; `Printer` is what writes them. `BundleText` is
  the canonical text, line by line; `WritableDocument` says that the document is in its compiled form and that its
  literals are ones the library reads back.
- A layout works on a forest: identifiers are unique and `depth` gives each node its level. Dependencies
  are acyclic when some `rank` decreases along them. Lengths are real numbers.

## What the proofs qualify

- Leaving evidence out can authorize. A collector is stale when one of its supplied signals is; taking that
  signal away, observation time included, leaves the collector fresh. `WithholdingGains.WithholdingCanAuthorize`
  is such an input on a bundle that compiles. `WithholdingExactly.WithholdingNeverAuthorizes` gives the exact
  condition: `NeverGains` holds if and only if `GainsNothing` does.
  `WithholdingExactly.WithholdingWholeCollectorsNeverAuthorizes` needs no facts: it is enough to withhold
  collectors together with their signals.
- Canonical text is charged for inherited quorums once per heir, the source once in all. A document can compile
  and have canonical text that the builder refuses (`InheritedBudget.InheritedQuorumsOverrun`: one abstract rule,
  two heirs with a collector each; `InheritedBudget.InheritedTextOverruns` for the characters).
  `CanonicalBudget.LayoutRebuildsExactly` gives the exact condition, `CanonicalText.CanonicalTextRebuilds` gives it
  for the text.
- The trial parse around normalisation never changes a result on the text path
  (`QuorumCompile.TrialParseIsNoOp`). What can refuse a parsed expression is the name check of the first pass,
  which bars operator words as subjects (`QuorumCompile.TextPathNormalizes`); no source text reaches it
  (`LexedSource.SourceNormalizes`). `QuorumCompile.GluedOperatorIsRefused` shows the check at work on a field
  the lexer does not produce.
- According to the comment at `internal/crl/crl.go:771-777`, an unmet quorum reports expired when re-observing
  the stale subjects at their current values would satisfy it. With an absolute expiry in the past
  re-observation cannot help, yet the check still reports expired: `BundleFreshness.LapsedExpiryIsNotCured` is
  a bundle that compiles and facts for it, and `BundleFreshness.CurableIffNothingLapsed` the exact condition for
  the quorums a rule or a final policy may hold, read off the bundle's expiries and the clock.
- A final policy written after an indented rule body is absorbed by that rule
  (`CanonicalLayout.TrailingPolicyIsAbsorbed`); the canonical layout avoids this by putting it first.
- `spec/canonical-form.md` says that integer literals beyond 2^53 are rejected; the code at
  `internal/crl/crl.go:560-566` rejects those that are not representable. The model follows neither, because
  number literals are opaque in it.

## Model

| member | source | states |
|---|---|---|
| QuorumParser.Parser.Match | internal/crl/crl.go:1356-1362 | consumes the next token exactly when it is the expected one |
| QuorumParser.Parser.Unary | internal/crl/crl.go:1322-1354 | from any position and depth, consumes what the grammar consumes, restores the depth on success and reports the same error |
| QuorumParser.Parser.Chain | internal/crl/crl.go:1292-1320 | the `parseOr` and `parseAnd` loops read a left-grouped chain, same tree, same position, same error |
| QuorumParser.ParseAll | internal/crl/crl.go:1200-1217 | empty input, too many tokens and trailing tokens are refused; otherwise the tree of the grammar |
| QuorumSyntax.RenderInto | internal/crl/crl.go:1527-1563 | appends the rendering with its minimal parentheses to the buffer and keeps what was there |
| QuorumRoundTrip.ParseOfTokens | internal/crl/crl.go:1200-1217 | within 512 tokens and 64 levels, parsing the rendered tokens of a left-grouped tree consumes all of them and returns that tree |
| QuorumRoundTrip.TokensInjective | internal/crl/crl.go:1527-1563 | two left-grouped trees with the same rendered tokens are the same tree |
| QuorumRoundTrip.ParseBounds | internal/crl/crl.go:1292-1354 | rendering a parsed tree needs no more tokens and no deeper nesting than its source, and its subjects are the source's words in order |
| QuorumRoundTrip.ParsedHasNoCall | internal/crl/crl.go:1292-1354 | in tokens that parse, no word is directly followed by an opening bracket |
| QuorumText.QuorumTokens | internal/crl/crl.go:1219-1261 | tokenises all fields, stopping one token past the cap |
| QuorumText.AppendField | internal/crl/crl.go:1224-1258 | one field's tokens appended; gives up exactly when the cap is passed |
| QuorumText.FieldsScanLikeText | internal/crl/crl.go:1381-1386 | splitting on white space and scanning each field gives the tokens of scanning the text, when no word is an operator word |
| QuorumText.RenderedFieldsTokenise | internal/crl/crl.go:1381-1386 | a rendered tree, split on white space and tokenised, gives back the tokens it was rendered from |
| QuorumText.RenderInjective | internal/crl/crl.go:1442-1452 | the sort key of the normaliser identifies a left-grouped tree |
| QuorumNormal.SortedUnique | internal/crl/crl.go:1442-1452 | two sorted arrangements of the same operands are equal, so the stable sort has one possible result |
| QuorumNormal.NormIsNormal | internal/crl/crl.go:1402-1466 | the result has folded names, left-grouped chains and operands in key order |
| QuorumNormal.NormOfNormal | internal/crl/crl.go:1402-1466 | normalising a normal form changes nothing |
| QuorumEquivalence.NormIsCanonical | internal/crl/crl.go:1423-1466 | two trees have the same normal form if and only if they differ by order, grouping and spelling at any depth |
| QuorumEquivalence.NormKeepsMeaning | internal/crl/crl.go:1117-1165 | three-valued evaluation of the normal form equals that of the tree, under every reading of the subjects |
| QuorumEquivalence.NormKeepsLimits | internal/crl/crl.go:1364-1400 | the normal form renders to exactly as many tokens and exactly as much nesting |
| QuorumCompile.NormalizeExpressionAt | internal/crl/crl.go:1402-1466 | the recursive normaliser with its sort and rebuild loops computes `NormalizeAt`, errors included |
| QuorumCompile.FlattenQuorumChain | internal/crl/crl.go:1468-1489 | the operand list of the maximal chain, or the first operand's error |
| QuorumCompile.RebuildChain | internal/crl/crl.go:1453-1456 | rebuilds the sorted operands as one left-grouped chain; when no operand is itself a chain of the operator, the operands of the result are exactly those, in order |
| QuorumCompile.NormalizeAtExact | internal/crl/crl.go:1402-1427 | normalisation succeeds exactly on well-formed trees within the recursion limit, and then gives the normal form |
| QuorumCompile.NormalizeQuorumExpression | internal/crl/crl.go:1364-1400 | normalise, re-read the rendering, normalise again and compare, with the original's error order |
| QuorumCompile.ParseQuorumFields | internal/crl/crl.go:1200-1217 | tokenise under the cap, then parse |
| QuorumCompile.NormalizeQuorumExact | internal/crl/crl.go:1364-1400 | a caller-built tree is accepted if and only if it is well formed and its rendering fits the token and depth limits; the result is then its normal form |
| QuorumCompile.TrialParseIsNoOp | internal/crl/crl.go:1364-1400 | on every field list, the trial parse and the round-trip check change no result, errors included |
| QuorumCompile.TextPathNormalizes | internal/crl/crl.go:1402-1421 | whatever parses normalises if and only if no word in it is an operator word |
| QuorumCompile.GluedOperatorIsRefused | internal/crl/crl.go:1415-1420 | the name check refuses the subject `and`, as read off the field `!and` |
| QuorumCompile.CanonicalTextRecompiles | internal/crl/crl.go:1364-1400 | the canonical text of an accepted expression compiles to that expression |
| QuorumCompile.SameCanonicalText | internal/crl/crl.go:1423-1455 | two accepted texts have the same canonical text if and only if their trees differ only by order, grouping and spelling |
| Lexer.Scanner.Next | internal/crl/lexer.go:79-134 | one lexeme, with its length, kind and line and column, or the failure of an unknown character or open string |
| Lexer.Scanner.ScanString | internal/crl/lexer.go:136-163 | the literal up to the closing quote that is not escaped, or failure at a raw newline or the end |
| Lexer.Scanner.ScanAtom | internal/crl/lexer.go:205-221 | the longest run of characters that end no atom |
| Lexer.Scanner.LexAll | internal/crl/lexer.go:79-134 | the whole token sequence of the specification, ended by end of input |
| Syntax.SyntaxStatements | internal/crl/parser.go:49-67 | no statement is empty or reaches over a line end, and joined in order they are all other tokens |
| Syntax.StatementsSplit | internal/crl/parser.go:49-67 | every line end splits: the statements before it, then the statements after it |
| Syntax.LexedLineIsOneStatement | internal/crl/parser.go:49-67 | the tokens of one line and the end of input are one statement |
| Syntax.FieldsOfStatement | internal/crl/parser.go:79-112 | braces dropped, `count(...)` taken as one field, every other token as its own |
| QuorumLexed.PlainLexes | internal/crl/lexer.go:79-134 | on plain quorum text the lexer finds exactly the tokens of the direct scan |
| QuorumLexed.TokenisersAgree | internal/crl/parser.go:79-112 | lexing the canonical line gives one statement; taking its fields and tokenising them, and splitting on white space and tokenising, give the same tokens; the line takes the expression branch, has one field per token and the keyword, and yields the expression back |
| QuorumLexed.QuorumLineReads | internal/crl/parser.go:49-112 | wherever it stands in a text, the canonical quorum line is one statement with one field per token |
| LexedLines.LinesLex | internal/crl/lexer.go:79-134 | lexing is local to lines: two texts joined by a line end lex to the tokens of the one, the line end, and the tokens of the other |
| WordLines.TextReads | internal/crl/parser.go:49-112 | a text of lines that each lex on their own gives one statement per written line, in order, in its column, with its fields |
| WordLines.WordLineReads | internal/crl/parser.go:79-112 | a line of names, operators and quoted strings between blanks has exactly those for its fields |
| CountLines.CountLineReads | internal/crl/parser.go:114-172 | the canonical count line is one statement of four fields, the call written out as it was |
| LineParsing.ParseModifiers | internal/crl/grammar.go:58-92 | the modifier loop: unit, required, optional, and an expiry that must end the line |
| LineParsing.FoldProviders | internal/crl/crl.go:195-207 | the provider loop: names folded, each valid and none twice |
| LineParsing.ParseClusterRules | internal/crl/grammar.go:338-367 | the member loop, refusing stray, missing and trailing plus signs |
| CountSpellings.SpellingsAgree | internal/crl/grammar.go:203-312 | `count(a, b) >= n`, `a + b >= n` and `n of m a b` are read as the same predicate, or refused alike |
| SourceText.ParseDocument | internal/crl/compiler.go:50-56 | lexing, splitting, reading fields and building one after the other compute `BuildSource` |
| LexedSource.LexedIsSpelled | internal/crl/lexer.go:79-134 | in the tokens of any text, strings start with their quote, atoms hold no blank or symbol, and operators are those of the language |
| LexedSource.QuotedNeverParses | internal/crl/crl.go:1200-1217 | fields with a string literal among them never parse as an expression, however they are cut at `+` |
| LexedSource.CallNeverParses | internal/crl/crl.go:1200-1217 | nor do fields with a `count(...)` call among them |
| LexedSource.SourceNormalizes | internal/crl/crl.go:1186-1198 | for every source text and every statement of it, what parses behind the keyword normalises |
| Evidence.KeysDistinct | internal/crl/crl.go:1060-1087 | the derived keys of clean names never coincide |
| Evidence.EvaluateCongruent | internal/crl/crl.go:1117-1165 | an expression's value depends only on the readings of its subjects |
| Predicates.TallyCount | internal/crl/crl.go:749-769 | the provider loop tallies fresh and stale providers and decides passed, expired or not met |
| QuorumCounting.CountIsItsExpansion | internal/crl/crl.go:724-783 | `count(S) >= k` and the disjunction over all `k`-subsets of conjunctions always give the same check, reason included |
| QuorumCounting.NormalisedCheckIsTheSame | internal/crl/crl.go:724-748 | normalising an expression changes neither verdict nor reason of its check, for all facts, indexes and clocks |
| QuorumCounting.ExpiredIsCounterfactual | internal/crl/crl.go:739-783 | when no absolute expiry has passed, an unmet quorum of either form reports expired if and only if it passes once every signal is re-observed at the clock |
| BundleFreshness.BundleIndexIsKeyed | internal/crl/bundle.go:537-560 | the index of an accepted bundle holds every declared signal under its own clean name |
| BundleFreshness.CurableIffNothingLapsed | internal/crl/crl.go:890-928 | in every bundle that passes the structural checks, "expired means re-observation would meet it" holds for all facts and all quorums a rule may hold, and likewise for those of the final policy, if and only if no declared absolute expiry has passed |
| BundleFreshness.LapsedIsNotCured | internal/crl/crl.go:908-915 | for every lapsed absolute expiry of such a bundle, counting a collector that declares it reports expired and still fails when re-observed |
| BundleFreshness.LapsedExpiryIsNotCured | internal/crl/crl.go:908-915 | a bundle that compiles, a clock and facts: its one quorum reports expired, and no re-observed facts authorize the bundle |
| Durations.DurationsAreExact | internal/crl/crl.go:395-443 | a literal is accepted if and only if it has the right shape and its value rounded up to whole seconds is at most floor((2^63-1)/10^9); the result is that value |
| Durations.CheckedSecondsExact | internal/crl/crl.go:437-443 | the guard accepts exactly the products that fit, and the 64-bit product is then the product |
| Durations.NanosecondsFit | internal/crl/crl.go:926-927 | an accepted duration converts to 64-bit nanoseconds without wrapping, and so does its negation |
| Durations.SaturationDecidesNothing | internal/crl/crl.go:674-691 | comparing the saturating difference of two instants decides what the exact difference decides |
| Durations.AgeChecksAreExact | internal/crl/crl.go:674-691 | both age checks are comparisons over the unbounded integers |
| Bundles.EvaluateChecks | internal/crl/bundle.go:390-400 | one check per predicate in order, and whether all passed |
| Bundles.EvaluateBundleRule | internal/crl/bundle.go:390-409 | the rule's trace: checks, authorization and outcome |
| Bundles.CollectMembers | internal/crl/bundle.go:412-424 | each member's verdict, a missing trace counting as unauthorized for want of evidence |
| Bundles.EvaluateBundleCluster | internal/crl/bundle.go:411-453 | the cluster's trace with its outcome raised to the worst member's |
| Bundles.Evaluator.Rules | internal/crl/bundle.go:133-144 | the rule loop's traces, trace table and working facts after publishing under both keys |
| Bundles.Evaluator.Clusters | internal/crl/bundle.go:146-152 | the cluster loop's traces and working facts |
| Bundles.EvaluateBundleAt | internal/crl/bundle.go:115-166 | the whole run equals `EvalBundle` |
| Analysis.SemanticBuilder.Add | internal/crl/sema.go:116-131 | a symbol is refused exactly when it makes a name ambiguous, and then nothing changes |
| Analysis.AddAll | internal/crl/sema.go:47-109 | adding symbols one by one succeeds exactly when the whole list is unambiguous |
| Analysis.NamesAreDisjoint | internal/crl/sema.go:116-131 | in an unambiguous bundle, signal, collector, rule and cluster names are pairwise disjoint |
| Analysis.ValidateSignalExpiry | internal/crl/sema.go:142-164 | accepts exactly when equal signal names carry equal expiries, literal included |
| Layering.ScopeBoundsReads | internal/crl/bundle.go:318-388 | a predicate that passes the scope check reads only names visible in that scope |
| Layering.SamePredicate | internal/crl/crl.go:577-637 | a predicate cannot tell apart facts that look the same at the names it reads |
| Layering.LoopIsSimultaneous | internal/crl/bundle.go:115-166 | the publish loop computes exactly the simultaneous specification: traces, checks, outcome |
| LayerIndependence.OnlyEvidenceDecides | internal/crl/bundle.go:115-153 | the evaluation is a function of the facts stored under declared evidence; facts under rule or cluster keys change nothing |
| LayerIndependence.OrderDecidesNothing | internal/crl/bundle.go:133-152 | permuting rules and clusters permutes the traces and keeps the final checks, the decision, the outcome and the aspect |
| EvidenceMonotone.PolarityInduction | internal/crl/sema.go:339-357 | where no rule or cluster stands under an odd number of negations, truth is kept as verdicts rise and unknowns settle |
| EvidenceMonotone.PredicateRises | internal/crl/sema.go:291-317 | a predicate that passes on the poorer facts passes on the richer ones |
| EvidenceMonotone.SupplementingKeepsAuthorization | internal/crl/sema.go:235-285 | for every accepted bundle and clock, facts that keep what was fresh and known authorize whatever the facts they supplement authorized |
| Withholding.WithheldIsSupplemented | internal/crl/crl.go:1002-1053 | the full facts supplement the withheld ones if and only if every stale collector with a visible value keeps a stale signal |
| Withholding.NoPredicateGainsExactly | internal/crl/crl.go:1002-1053 | leaving names out turns no check a rule may hold from failed to passed if and only if that condition holds |
| WithholdingExactly.WithholdingNeverAuthorizes | internal/crl/sema.go:235-285 | leaving names out authorizes nothing new in any bundle that compiles over the same collectors if and only if that condition holds |
| WithholdingExactly.WithholdingWholeCollectorsNeverAuthorizes | internal/crl/sema.go:235-285 | withholding collectors together with all their signals never authorizes, whatever the facts |
| WithholdingGains.WithholdingCanAuthorize | internal/crl/crl.go:1026-1053 | a bundle that compiles, a clock and facts that do not authorize until one stale signal is left out |
| EmptyProbe.NothingIsTrue | internal/crl/sema.go:339-357 | with no evidence and every verdict false, no expression that passes the polarity check is true |
| EmptyProbe.EmptyEvidenceNeverAuthorizes | internal/crl/sema.go:249-278 | a bundle that passes the structural checks authorizes nothing on empty facts, at any clock |
| EmptyProbe.ProbeNeverFires | internal/crl/sema.go:230-285 | the fixed-clock probe rejects nothing the structural checks accept |
| StaleEvidence.PurgeIsEquivalent | internal/crl/crl.go:1026-1058 | facts and the same facts without stale values supplement each other |
| StaleEvidence.StaleIsAbsent | internal/crl/bundle.go:115-166 | deleting every value of every stale signal and collector keeps each check's verdict at every level and the authorization, at every clock including none |
| Documents.Visiting.ExpandRule | internal/crl/ast.go:401-430 | computes the expansion and leaves the visiting set as it found it |
| Documents.ExpansionIsLinearisation | internal/crl/ast.go:401-430 | expansion succeeds if and only if `extends` reaches a root through defined rules within 256 steps, and yields the line root first with the nearest target |
| Documents.ExpandAbstractRules | internal/crl/ast.go:377-399 | the abstract index with its duplicate and empty name errors, then every concrete rule expanded |
| DocumentBuilder.Builder.TopLevel | internal/crl/ast.go:156-266 | the top-level switch: what each keyword files, opens and refuses |
| DocumentBuilder.Builder.InRule | internal/crl/ast.go:267-323 | the rule-body switch, with the carve-out mark |
| DocumentBuilder.Builder.InCluster | internal/crl/ast.go:324-343 | the cluster-body switch |
| DocumentBuilder.Builder.HandleLine | internal/crl/ast.go:147-346 | the quorum budget, then the routing by column, block and open rule |
| DocumentBuilder.Builder.DoCloseBlock | internal/crl/ast.go:111-130 | pops the innermost block and files what it held; an unmatched brace is an error |
| DocumentBuilder.BuildDocument | internal/crl/ast.go:70-354 | the statement loop, the open-block error and the expansion compute `Build` |
| CanonicalBudget.RunCharges | internal/crl/ast.go:147-153 | a run that succeeds was charged for every quorum line and stayed within the budget |
| CanonicalBudget.LayoutRebuildsExactly | internal/crl/ast.go:70-354 | laying out a compiled bundle, braced or indented, and building the statements gives that bundle with nothing carved out if and only if its quorum content fits the budget; otherwise it is refused |
| CanonicalBudget.CanonicalRebuildsExactly | internal/crl/bundle.go:573-641 | the statements of the canonical text rebuild the bundle they were rendered from if and only if its quorum content fits the budget |
| InheritedBudget.InheritedQuorumsOverrun | internal/crl/ast.go:401-430 | statements within the budget build a document that compiles, and the canonical text of the bundle it compiles to is refused |
| CanonicalWords.WritableLineReads | internal/crl/bundle.go:573-641 | every canonical line is one statement with the line's fields, wherever it stands in a text |
| LinesReadBack.LineReadsBack | internal/crl/grammar.go:27-367 | what the field parsers make of a canonical line is the line it was written from, for every kind of line |
| CanonicalText.CanonicalTextReads | internal/crl/bundle.go:573-641 | lexing the canonical text, splitting it and reading the fields gives exactly the statements it was written from |
| CanonicalText.CanonicalTextRebuilds | internal/crl/bundle.go:573-641 | from characters to document: the canonical text builds the very bundle it was written from if and only if its quorum content fits the budget, and is refused otherwise |
| InheritedBudget.InheritedTextOverruns | internal/crl/bundle.go:573-641 | the characters of such a canonical text are refused |
| CanonicalLayout.TrailingPolicyIsAbsorbed | internal/crl/ast.go:307-323 | a policy at column 0 after an indented rule body ends up in that rule, every predicate marked |
| CanonicalJson.TokenStream.DecodeStrict | internal/crypto/canonical.go:104-110 | reads one value from the stream |
| CanonicalJson.TokenStream.DecodeObject | internal/crypto/canonical.go:138-167 | the member loop, refusing a repeated key |
| CanonicalJson.TokenStream.DecodeArray | internal/crypto/canonical.go:169-185 | the item loop |
| CanonicalJson.Output.EncodeCanonical | internal/crypto/canonical.go:191-246 | appends the encoding with object keys in ascending order |
| CanonicalJson.SortKeys | internal/crypto/canonical.go:196-201 | the keys in strictly ascending order, nothing added or lost |
| CanonicalJson.Canonicalize | internal/crypto/canonical.go:49-76 | decode, refuse trailing input, encode |
| CanonicalJsonNormal.AcceptsDuplicateFree | internal/crypto/canonical.go:138-167 | a document is accepted if and only if no object in it repeats a key at any depth; otherwise the repeated key is the error |
| CanonicalJsonNormal.OnlyDocumentsAccepted | internal/crypto/canonical.go:104-185 | a token stream is accepted if and only if it spells a duplicate-free document |
| CanonicalJsonNormal.CanonicalIsNormalForm | internal/crypto/canonical.go:191-246 | two duplicate-free documents canonicalise equally if and only if they are the same value up to member order |
| CanonicalJsonNormal.CanonicalIsFixedPoint | internal/crypto/canonical.go:49-76 | canonicalising canonical output is the identity |
| GraphGeometry.ChildInsideParent | internal/crlgraph/layout.go:111-140 | every nested box lies inside its parent's box |
| GraphGeometry.UnrelatedApart | internal/crlgraph/layout.go:111-140 | boxes of nodes neither of which encloses the other do not overlap |
| GraphGeometry.NeverNegative | internal/crlgraph/layout.go:298-308 | no box starts left of or above the origin |
| GraphLayers.LayerIsLongestPath | internal/crlgraph/layout.go:192-218 | on acyclic dependencies a node's layer is the length of its longest dependency path |
| GraphLayers.LayerAssignment.Assign | internal/crlgraph/layout.go:192-218 | the memoised recursion with its cycle guard computes that layer and keeps the memo right |
| GraphLayers.SortOrders | internal/crlgraph/layout.go:244-254 | each row comes out ordered by barycenter, then label, nodes without placed targets last |
| GraphPlacement.OrderSorts | internal/crlgraph/layout.go:242-255 | arranging a row permutes it |
| GraphLayers.SlotsApart | internal/crlgraph/layout.go:227-264 | boxes in different slots do not overlap |
| GraphPlacement.LayersStack | internal/crlgraph/layout.go:227-240 | a later layer starts below every box of an earlier one, with the layer gap, and one layer shares its top line |
| GraphDependencies.HolderEncloses | internal/crlgraph/layout.go:283-296 | in a forest the capped climb ends at the one top-level node enclosing the start |
| GraphDependencies.DependencyIsAnEdge | internal/crlgraph/layout.go:174-190 | a top-level node depends on another exactly when an edge leads from inside the one into the other |
| GraphDependencies.DependenciesCountOnce | internal/crlgraph/layout.go:184-190 | parallel edges count once |
| GraphLayout.Layouter.SizeNode | internal/crlgraph/layout.go:111-140 | the memoised, cycle-guarded recursion gives every node its size and every child its offset, and restores the visiting set |
| GraphLayout.Layouter.FindHolder | internal/crlgraph/layout.go:283-296 | the capped climb along parents |
| GraphLayout.Layouter.CollectDeps | internal/crlgraph/layout.go:174-190 | the dependency table of the specification |
| GraphLayout.Layouter.RowTops | internal/crlgraph/layout.go:227-238 | the top line of every row |
| GraphLayout.Layouter.PlaceRows | internal/crlgraph/layout.go:240-264 | the rows as arranged, every node at its cursor position, nothing else moved |
| GraphLayout.Layouter.PlaceTopLevel | internal/crlgraph/layout.go:165-265 | every top-level node stands in its slot of its layer |
| GraphLayout.Layouter.ResolveAbs | internal/crlgraph/layout.go:298-308 | gives exactly the nodes under its argument their position, the sum of the offsets |
| GraphLayout.Layouter.EmitBoxes | internal/crlgraph/layout.go:310-323 | one box per node in graph order, within bounds that are tight |
| GraphRoutes.RouteJoins | internal/crlgraph/layout.go:332-354 | routes are orthogonal, and run from border to border through neither box if and only if the boxes lie apart |
| GraphLayout.Layout | internal/crlgraph/layout.go:67-96 | for every forest: children inside parents, unrelated boxes apart, everything within the reported bounds, edges around the boxes they join, and layers by longest dependency path when dependencies are acyclic |

## Left out

- Unicode: NFC, UTF-8 validation and case folding beyond ASCII; names are ASCII text.
- RFC 3339 text: timestamps are integer nanoseconds, with an unparseable case for absolute expiries and facts.
- Numbers: a number is a real or one of the special values, so rounding of decimal literals is not modelled; JSON number literals are opaque, and so is the representability check on them.
- Layout rounding: coordinates are real numbers, the original's are 64-bit floats.
- Layout dependency keys: the original joins two identifiers with a NUL character, the model uses pairs, which differ only for identifiers that contain NUL.
- GraphLayout.Layout: asks for a forest, which the graph builder produces; the guards against parent cycles are modelled in the recursions but nothing is claimed about a drawing of such a graph.
- Stable sorts: the library sorts are modelled by insertion from the left, which has the same result.
- Lexer.Scanner.LexAll: does not model the cap of a million tokens, which only refuses.
- Bundles.EvaluateBundleAt: takes fact names and texts already folded to NFC.
- Withholding: whole names are withheld, under all their spellings at once; dropping one spelling and keeping another can change which value a subject has.
- DocumentBuilder.BuildDocument: takes statements whose fields are read already; `SourceText.ParseDocument` reads them.
- Needs: what stands behind `need`, with its number, string, duration and instant literals, is read and written by a parameter, as are quoted sources and count thresholds; error messages and spans are not modelled.
- Bundle normalisation of fields other than quorum expressions (trimming, value checks): its outcome is the shape `Analysis` asks of a bundle.
- Check traces: only verdict and reason are modelled, not labels, actual values or provider lists.
- Size caps other than those on quorum tokens, depth and fields and on the depth of `extends`: source bytes, lexer tokens and graph size.
- Canonical JSON works on the decoder's tokens: white space, commas, colons, string escapes and invalid UTF-8 belong to the library decoder and encoder.
- The digest, signatures and decision records: equality of canonical text stands for equality of hashes.
- The lexer's treatment of end-of-line variants and its error messages beyond success or failure.
- The command line, WebAssembly engine, lint diagnostics, protobuf envelope, graph builder and IR lowering: plumbing and projections.
