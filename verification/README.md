# Verified model of the grammar compiler

The compiler turns a context-free grammar with sugar (options, repetitions, groups) into
the rule table of a deterministic push-down parser.  On the way it rewrites the grammar,
computes token sets to a fixed point, chooses how far each choice must look ahead, and
emits rules that count what a token window cannot see.  This project models those passes
in Dafny and proves what they promise about every grammar and every input.

A grammar means what its derivation trees derive (`Languages.dfy`): a rule's language is
the least one its alternatives account for, and `Forms.dfy` shows that derivations step by
step derive the same words.  Every rewriting pass is proved to keep the language of every
authored rule; every analysis is proved exact against derivations; every machine is proved
to accept a language.

| part | files |
|---|---|
| grammars, their meaning, sizes | `Ir`, `Languages`, `Forms`, `Sizes`, `FreshNames`, `Capture` |
| left-recursion elimination | `Reachability`, `CycleScan`, `LeadingOrder`, `LeftRecSteps`, `LeftRecRuns`, `LeftRec`, `LeftRecKeeps`, `TailRepeat` |
| left factoring and the token span | `FactorSteps`, `Factor`, `FactorCapture`, `Span` |
| repetition validation and desugaring | `Repetitions`, `Desugar`, `Minting`, `DesugarProofs`, `Pricing` |
| FIRST, nullable, FOLLOW, FOLLOW2 | `Analysis`, `Follow` |
| prefix enumeration, budget, dispatch depth | `Prefixes`, `PrefixWalk`, `EmitBudget`, `Dispatch`, `PairTable`, `DispatchRun` |
| the alternates of a choice, their order and their units | `Alternates`, `EntryOrder`, `ChoiceEmit` |
| the suffix-debt pass and the emitted counter machines | `DebtPass`, `SuffixDebt`, `DebtFamily`, `RepeatLoop` |
| the passes one after the other | `Compile` |
| character classes and the contest relation | `Ranges`, `ContestMemo` |

Conventions.  The three spellings of a terminal are one constructor keyed by the token it
becomes.  Production names are distinct where a pass relies on a name meaning one rule;
references may be to no rule.  Prose is resolved before these passes; what nothing has
resolved counts as a reference to no rule.  Token classes are
empty.  A method that the source writes as a loop over indices is a loop here; where the
proof needed it, the body of a nested loop is a method of its own.

Findings, each a proved statement.

- The suffix-debt counter counts what is owed and not which token: with two different
  closing tokens that are also tails, a word of the language is rejected
  (`SuffixDebt.TwoOwedFails`).  For a rule with an atom the machine is exact with
  at most one and never with more (`SuffixDebt.DebtExact`).
- A reference to a rule that does not exist can be captured by a name that desugaring
  mints (`DesugarProofs.DanglingCaptured`) or factoring does
  (`FactorCapture.FactoringTakes`).  Neither pass ever loses a word; both keep every
  language when nothing is captured (`DesugarProofs.DesugarKeepsLanguage`,
  `Factor.LeftFactor`), and that can be seen beforehand: desugaring captures only names
  that begin with "_gen", factoring only names that end in
  "$fact" and a number.  A captured reference
  comes to mean what the helper does, so where every helper derives something the
  meanings of names are kept only then (`Capture.MeaningsExactly`).  An authored rule that
  cannot reach a captured reference keeps its words in desugaring
  (`DesugarProofs.DesugarKeepsRule`).
- The overlap sweep needs its spans in order; factoring gives it spans as the walk
  returned them, and it can then miss a shared character (`Ranges.GroupPassedOver`).  The
  exact condition is `Ranges.DecidesExactly`.  It never reports a character that is not
  there, and factoring keeps the language either way.

## Model

| member | source | states |
|---|---|---|
| Sizes.DeepSize | rs/src/leftrec.rs:793-824 | The capped stack walk returns the true deep size when that fits under the cap, and otherwise something past the cap. |
| LeftRec.ChargeExpansion | rs/src/leftrec.rs:907-947 | Although it walks no further than what is left of the limit, the charge for a split accepts exactly when the true growth, floored at zero, fits. |
| LeftRec.ChargeSubstitution | rs/src/leftrec.rs:759-791 | Accepts exactly when the alternatives the substitution would add fit under 512. |
| LeftRec.ChargeElements | rs/src/leftrec.rs:826-905 | Despite capping every partial product and sum, accepts exactly when the true element growth of the substitution fits under 131072. |
| LeftRecSteps.PresentLang | rs/src/leftrec.rs:279-297 | Sugar that can match nothing means the empty word or its present branch, in every model, zero-bounded repetitions included. |
| LeftRecSteps.SplitAltLang | rs/src/leftrec.rs:323-395 | Splitting a leading nullable element off an alternative keeps what the alternatives match. |
| LeftRec.ExpandPrefixes | rs/src/leftrec.rs:323-395 | Keeps the rule in every model, grows it by no more than it charged, leaves no hidden left recursion unless the round guard ran out, and refuses exactly when splits that fit, from the rule as given, lead to one whose growth goes past the limit. |
| LeftRec.ExpandAll | rs/src/leftrec.rs:417-450 | Splitting every rule keeps the language of the grammar; a grammar with nothing to split comes back as it was; a refusal is a split that does not fit, come to by splits that do. |
| LeftRecRuns.NotOversized | rs/src/leftrec.rs:323-395 | Splitting is one run: a rule whose run ends settled, or at the guard, never comes to a split that does not fit. |
| CycleScan.StrongConnect | rs/src/leftrec.rs:590-684 | One visit of the explicit-frame strong-connect keeps the Tarjan invariants and finishes the whole component of its root. |
| CycleScan.ComponentStrong | rs/src/leftrec.rs:650-684 | Every node popped at a root reaches the root and is reached from it, so the popped nodes all reach each other. |
| CycleScan.CutCyclic | rs/src/leftrec.rs:650-684 | Popping marks exactly the popped nodes that lie on a cycle. |
| CycleScan.PopKeeps | rs/src/leftrec.rs:650-684 | Popping a finished component keeps every Tarjan invariant for the frames that are left. |
| CycleScan.FindCycleMembers | rs/src/leftrec.rs:555-684 | Returns exactly the rules that reach themselves by one or more leading-reference edges, for every graph, and ends. |
| LeadingOrder.OrderNames | rs/src/leftrec.rs:689-753 | The depth-first walk lists every rule once, each target of a leading reference before the rule unless it leads back to it. |
| LeadingOrder.TopoOrder | rs/src/leftrec.rs:689-753 | The processing order is a permutation of the rules in which a rule stands after every rule it leads to, those that lead back apart. |
| LeftRecSteps.SubstituteLang | rs/src/leftrec.rs:952-978 | Substituting a rule into the alternatives that lead with it keeps what they match wherever the rule derives what its alternatives do. |
| LeftRecSteps.SubstituteCount | rs/src/leftrec.rs:770-791 | What substitution adds in alternatives is what was charged for, exactly when the source has any. |
| LeftRecSteps.SubstituteSize | rs/src/leftrec.rs:826-905 | What substitution adds in elements is no more than was charged for. |
| LeftRec.SubstituteRule | rs/src/leftrec.rs:475-508 | One charged substitution keeps every language and the bounds on alternatives and elements; in order, the rule leads past one more rule; it is refused for alternatives or elements that do not fit on top of what the substitutions before it, each within the limits, have charged. |
| LeftRec.SubstituteRound | rs/src/leftrec.rs:471-514 | A round that changes nothing means the rule leads with no earlier rule; under the ordering hypothesis one round is enough. |
| LeftRec.SubstituteEarlier | rs/src/leftrec.rs:460-515 | The whole inner loop keeps every language even if the round guard stops it, gains at most 512 alternatives, and settles after one changing round when earlier rules are in order and nothing is empty. In the order of the source it refuses, and with which limit, exactly when the substitutions come to one that does not fit on top of those before it. |
| LeftRecSteps.LoopBelow | rs/src/leftrec.rs:1045-1139 | Seeds followed by any number of tails derive no more than a rule closed under its own alternatives, tails that can be empty included. |
| LeftRecSteps.LoopAbove | rs/src/leftrec.rs:1045-1139 | A rule that is its loop form derives all its left-recursive alternatives do. |
| LeftRec.FreshDebtCounter | rs/src/leftrec.rs:1006-1031 | The counter name is not one already in use, and has only word characters, which is what the condition parser of the engine reads. |
| LeftRec.EliminateDirect | rs/src/leftrec.rs:1045-1139 | Rewriting direct left recursion keeps every language and adds at most three elements; it is refused exactly when there are tails and no seed, and then the rule derives nothing. |
| LeftRec.PureIsBarren | rs/src/leftrec.rs:1060-1085 | A rule all of whose alternatives begin with itself derives no word: refusing it loses nothing. |
| LeftRec.EliminateRule | rs/src/leftrec.rs:459-521 | One turn of the driver keeps every language and the growth bounds, exempt aliases left alone, and puts a tame rule in order; it refuses exactly as the specified turn does, for growth only where substitutions that fit lead to one that does not. |
| LeftRec.EliminateOrdered | rs/src/leftrec.rs:408-550 | Over all rules: the language is kept, each rule gains at most 512 alternatives, the elements at most what was charged and three a rule, and tame rules lead only to later ones. Turn by turn in order, it refuses the rule and with the error that the specified run comes to, and otherwise returns what that run does. |
| LeftRec.OrderForPaull | rs/src/leftrec.rs:444-457 | Ordering and the cycle scan together: the same rules, the same language, and exactly the rules on a leading cycle, whatever the order. |
| LeftRec.OrderedAcyclic | rs/src/leftrec.rs:458-516 | When every rule leads only to later rules, no rule is on a leading cycle in whatever order the rules are declared. |
| LeftRec.Declared | rs/src/leftrec.rs:521-543 | Putting the rules back in their declared order changes neither language nor size nor the absence of leading cycles. |
| LeftRec.Eliminate | rs/src/leftrec.rs:408-550 | Whenever elimination succeeds every rule derives exactly the words it did and the size is at most the initial one, 131072 and three a rule; with no empty alternative and no alias exempt no leading cycle is left, and the rules that keep an alias from being exempt include all those on a leading cycle as written; a refusal names a rule that derives nothing, or is a run of fitting steps that leads to one that does not fit, and the pass refuses exactly when a split or the run over the ordered rules does; a grammar with nothing to eliminate is returned unchanged. |
| LeftRecKeeps.EliminationKeepsResolved | rs/src/leftrec.rs:408-550 | Elimination refers to nothing the grammar did not: whatever names its references were within, they still are. |
| TailRepeat.MarkKeeps | rs/src/leftrec.rs:1141-1205 | Reading X = p [ s X ] as p followed by any number of s p keeps the language of every rule. |
| TailRepeat.RewriteTailRepeats | rs/src/leftrec.rs:1159-1205 | The whole pass marks exactly the rules of that form, and the grammar it stands for derives what the authored one did. |
| FactorSteps.ElemEqualSame | rs/src/factor.rs:50-97 | Elements the structural test calls equal are the same element. |
| Span.SeqTokenSpan | rs/src/factor.rs:113-263 | The explicit-stack, room-limited walk, its room divided under bounded repetitions, returns the naive recursive span when that is at most four and unbounded otherwise. |
| Span.ElemInAgrees | rs/src/factor.rs:208-263 | A room-limited span is the naive span whenever that fits the room. |
| Span.ElemSpanBounds | rs/src/factor.rs:113-263 | A span bounds the length of every word the element derives. |
| Span.SpanBoundsWords | rs/src/factor.rs:113-207 | A span within the lookahead bounds the length of every word the sequence derives in the grammar. |
| FactorSteps.UnwrapLang | rs/src/factor.rs:400-415 | Seeing through single-alternative groups keeps the words. |
| FactorSteps.InlineLang | rs/src/factor.rs:655-687 | Inlining a single-alternative rule at the head keeps the words. |
| FactorSteps.StepKeepsWords | rs/src/factor.rs:483-650 | Replacing a run, with members skipped over and inlined, by its prefix and a choice of tails keeps what the alternatives match. |
| Factor.GatherRun | rs/src/factor.rs:507-566 | The loop gathers the specified run: its members are distinct later alternatives that begin with the head as they stand or once inlined, and a neighbour that begins alike is the second member. |
| Factor.CommonPrefix | rs/src/factor.rs:573-582 | The shared prefix is shared by every member, and is the longest that is. |
| Factor.Tails | rs/src/factor.rs:610-628 | Exactly the distinct remainders, the empty one last and the first member's first. |
| Factor.FactorRun | rs/src/factor.rs:605-645 | The step keeps the words, refers to nothing new but its helper, and makes the alternatives fewer and the helper smaller. |
| Factor.FactorOnce | rs/src/factor.rs:483-650 | Takes a step only when some gathered run shares a prefix beyond the lookahead, and none only when the run gathered at every alternative, if it has another member, has its longest shared prefix within it. |
| Factor.FactorRule | rs/src/factor.rs:434-457 | All the rounds of one rule keep every language, end, and leave the rule decided by the lookahead. |
| Factor.LeftFactor | rs/src/factor.rs:417-465 | For every grammar with distinct names, references to missing rules included: no word is lost; every rule derives exactly the words it did unless a helper takes the name of a missing rule, which it cannot where no such name ends in $fact and a number; whatever the disjointness test lets a run skip, the worklist ends although inlining lengthens tails, the authored rules keep their places, nothing new is referred to but rules, and every run gathered in the result is decided by the lookahead. |
| FactorCapture.FactoringTakes | rs/src/factor.rs:419-477 | S = a a a a a x / a a a a a y / S$fact0: one step names its helper S$fact0, the dangling reference is captured, and S comes to derive x. |
| FreshNames.FindFresh | rs/src/desugar.rs:27-37 | The first numbered name from the starting number on that is not in use; there always is one. |
| Desugar.Desugarer.Fresh | rs/src/desugar.rs:27-37 | Mints a name not in use and records it, nothing else. |
| Desugar.Desugarer.Helper | rs/src/desugar.rs:39-44 | Appends one helper production and refers to it. |
| Desugar.Desugarer.RepeatLoop | rs/src/desugar.rs:46-69 | Appends the textbook right-recursive helper of an unbounded repetition. |
| Desugar.Desugarer.Element | rs/src/desugar.rs:75-187 | The recursive pass, with its growing helpers and names, computes the specified element and state. |
| Desugar.Desugarer.OptionalTail | go/compiler.go:1178-1197 | The loop that nests the optional copies of a bounded repetition builds the specified chain of group and option helpers. |
| Desugar.DesugarGrammar | rs/src/desugar.rs:189-218 | The whole pass: the authored rules rewritten in place, the helpers after them. |
| DesugarProofs.SugarCovers | rs/src/desugar.rs:75-187 | In every model closed under the helpers, the reference that replaces a piece of sugar derives all the sugar does. |
| DesugarProofs.SugarWithin | rs/src/desugar.rs:75-187 | And some such model agrees on every name in use and gives it no more, so the helpers are exact. |
| DesugarProofs.BoundedCovers | go/compiler.go:1153-1203 | The m copies and nested options of m*n derive every number of items from m to n. |
| DesugarProofs.DesugarDerivesAll | rs/src/desugar.rs:189-218 | No authored word is lost, whatever is captured. |
| DesugarProofs.DesugarKeepsLanguage | rs/src/desugar.rs:189-218 | Every authored rule derives exactly the words it did, as long as no reference to a missing rule names a rule of the result. |
| DesugarProofs.DesugarKeepsRule | rs/src/desugar.rs:189-218 | A rule that reaches no captured reference derives exactly the words it did, whatever is captured elsewhere. |
| DesugarProofs.NothingMintedUncaptured | rs/src/desugar.rs:27-44 | Nothing is captured if no reference to a missing rule begins with _gen, which can be read off the grammar as written. |
| DesugarProofs.DesugarMeanings | rs/src/desugar.rs:189-218 | Without a captured reference every name keeps its meaning, the dangling ones their lack of one; where every helper derives something, that is so if and only if none is captured. |
| Capture.MeaningsExactly | rs/src/factor.rs:417-465 | The same for any pass that keeps the words of every rule as long as it takes no missing name, so for factoring. |
| Capture.TakenMeans | rs/src/desugar.rs:27-44 | A reference to a missing rule derives nothing, and once a helper has taken its name exactly what that helper derives: the empty word at least, for an option or a loop. |
| DesugarProofs.DesugarLeavesFlat | rs/src/desugar.rs:189-218 | Only terminals and references are left, to rules or to what was missing before, the authored rules keep their places, and no two rules have one name. |
| DesugarProofs.DanglingCaptured | rs/src/desugar.rs:27-44 | S = [ T ] "b" / _gen1_opt_T with T = "a": the dangling reference is captured, and S comes to derive the empty word. |
| Repetitions.NonConsumingRules | rs/src/prose.rs:558-577 | The fixed point is exact: the rules with a word that can be matched without consuming input, and no others. |
| Repetitions.ElemStalls | rs/src/prose.rs:537-556 | The recursive test is exact: an element may match without consuming if and only if its language has a word that can. |
| Repetitions.ChargeRep | rs/src/prose.rs:791-825 | The stepwise comparison accepts exactly when the cost of the repetition fits in what is left, and adds that cost. |
| Repetitions.WalkElem | rs/src/prose.rs:757-830 | A walk succeeds exactly when the element has no stalling loop and its whole charge fits, and reports the charge. |
| Repetitions.ValidateRepetitions | rs/src/prose.rs:606-840 | Accepts exactly the grammars whose bounds are in order, whose unbounded repetitions consume on every iteration, and whose numeric ones cost at most 8192. |
| Repetitions.IterationsBounded | go/emit.go:405-418 | An item that cannot stall was repeated at most as often as the word has consuming tokens. |
| Pricing.ElemMints | rs/src/desugar.rs:75-187 | Desugaring an element mints exactly the helpers the tally counts. |
| Pricing.ValidatedGrowth | go/emit.go:424-459 | Counted where desugaring wrote them, the helpers at the sites of the numeric repetitions and the copies each begins with are exactly the charge; the sites share no helper, and the other helpers are one or two for each other piece of sugar. |
| Pricing.ValidatedDesugar | rs/src/prose.rs:606-840 | A grammar passes validation and is desugared exactly when its bounds are in order, its unbounded repetitions consume, and its charge is at most 8192; that charge is those helpers and copies in the result wherever no missing name is taken. |
| Forms.FormsAreWords | rs/src/analysis.rs:164-166 | Step by step a sequence derives exactly the words of its language: the sentential forms below mean what the languages above do. |
| Analysis.FirstOfSeqSound | rs/src/analysis.rs:166-196 | Read with sound sets, every token a sequence is said to begin with begins a form derived from it, and one said to vanish derives the empty form. |
| Analysis.ReadAlternative | rs/src/analysis.rs:84-125 | Reading an alternative element by element, in place, adds exactly its FIRST tokens and its nullability and reports whether anything changed. |
| Analysis.ClosedIsExact | rs/src/analysis.rs:60-131 | Sets that are sound and closed under every alternative are exact. |
| Analysis.ComputeFirst | rs/src/analysis.rs:60-131 | FIRST and nullable are exact: the tokens derivations begin with, and the rules that derive the empty form; the passes end. |
| Follow.ClosedFollowExact | rs/src/analysis.rs:203-268 | A closed FOLLOW map holds every token that stands after a rule in any derived form. |
| Follow.ComputeFollow | rs/src/analysis.rs:203-268 | FOLLOW is exact: adjacency in forms derived from any rule, the end of source after the start rule. |
| Follow.Walk | rs/src/analysis.rs:320-372 | The walk past a reference lands on the first element that cannot vanish and adds what stands there. |
| Follow.ComputeFollowPairs | rs/src/analysis.rs:270-388 | Every FOLLOW2 pair of a rule is realised right after it in some derived form, its first token is in FOLLOW, and no pair visible without looking inside a following reference is missing. |
| Prefixes.AltCovers | rs/src/analysis.rs:545-703 | For every word of the alternative some path is a prefix of it and is cut short, fills the window or is the whole word. |
| Prefixes.AltRead | rs/src/analysis.rs:545-703 | Every path fits the window and begins a form the alternative derives, which is nothing more when the path is live. |
| Prefixes.LivePathIsWord | rs/src/analysis.rs:545-703 | A path neither cut short nor filling the window is a word of the alternative. |
| Prefixes.AltKept | rs/src/analysis.rs:556-561 | Pruning by the head while enumerating yields the unpruned paths with those heads, in order. |
| PrefixWalk.ClosedStays | rs/src/analysis.rs:697-701 | Leaving early once no path can grow changes nothing. |
| PrefixWalk.Lookup | rs/src/analysis.rs:655-683 | A reference is expanded once for each length of path, and the kept expansion is the one that path would have got. |
| PrefixWalk.AltPrefixesRaw | rs/src/analysis.rs:567-703 | The cached walk returns the plain recursion's paths, and has held at least 1 and the tokens of each path it returns, at every level, within the limit. |
| EmitBudget.Budget.constructor | rs/src/budget.rs:117-128 | Nothing written, nothing held. |
| EmitBudget.Budget.Charge | rs/src/budget.rs:150-162 | Accepted exactly when it fits; a refusal changes nothing; written and held never pass 3500000. |
| EmitBudget.Budget.Hold | rs/src/budget.rs:164-171 | Accepted exactly when it fits; a refusal changes nothing; written and held never pass 3500000. |
| EmitBudget.Budget.Settle | rs/src/budget.rs:173-179 | Where every returned path was held as it was made, they alone stay held above the base; what is held never rises, and stays within the limit. |
| EmitBudget.Budget.Keep | rs/src/budget.rs:181-186 | Where the stated units were held as they were made, they alone stay held above the base; what is held never rises, and stays within the limit. |
| EmitBudget.Budget.Restore | rs/src/budget.rs:188-192 | What was held before the decision is held again; what is held never rises, and stays within the limit. |
| Alternates.UnitsPermuted | rs/src/budget.rs:231-249 | The order of its alternates does not change the units a rule holds. |
| Alternates.RuleWriter.Made | rs/src/emit.rs:1520-1528 | An alternate is charged as it is made; all that was written is the rules committed and what the rule under construction has been charged. |
| Alternates.RuleWriter.Commit | rs/src/emit.rs:1530-1544 | A rule is charged what it holds beyond its charged alternates, never fewer than those: the amount written is what the committed rules hold. |
| EntryOrder.SpecificityPermute | rs/src/emit.rs:2063-2140 | In place, the entries whose classes clash and no others are permuted among their own slots, longer lookahead first, then longer reach, then as they stood; none is lost. |
| EntryOrder.SynthKeywordGuards | rs/src/emit.rs:1840-1902 | Makes and charges exactly the specified guards, and gives back the paths held to find them. |
| EntryOrder.GuardsAre | rs/src/emit.rs:1840-1902 | The guards of an entry peek its literal with exactly the tokens that can come second, at most 16, and go where the entry goes. |
| EntryOrder.ReorderKeywordShadow | rs/src/emit.rs:1904-2061 | Every entry is in the result once, with exactly the guards called for and charged besides; all in order of rank, each at the rank its shadowing classes give it. |
| EntryOrder.GuardsFirst | rs/src/emit.rs:1904-1909 | A guard, and an entry that looks further ahead, stands before every class entry that could take its literal. |
| EntryOrder.KeywordBehind | rs/src/emit.rs:1904-1909 | An entry that has guards stands behind every class entry that could take its literal. |
| EntryOrder.OthersKeepOrder | rs/src/emit.rs:1904-2061 | Entries no class shadows keep their order. |
| ChoiceEmit.FinishRule | rs/src/emit.rs:2823-2868 | After both reorderings, each as specified, the rule holds every entry that was charged, so its commit never finds fewer units than were charged; with it nothing is left charged and uncommitted. |
| ChoiceEmit.EmitChoice | rs/src/emit.rs:2570-2868 | A whole choice, from its dispatch decision to its committed rules: the entries are those the decision calls for, in all exactly the units of the committed rules are written, and what was held before the rule is held after it. |
| Dispatch.DepthMeans | rs/src/analysis.rs:1013-1049 | The chosen depth is the least whose prefix differs from every rival at a position both have, and the whole path exactly when some rival never differs from it. |
| Dispatch.EveryWordDispatched | rs/src/analysis.rs:840-1090 | With no path cut short every non-empty word of an alternative begins with one of its prefixes. |
| Dispatch.WordsTurnedAway | rs/src/analysis.rs:840-1090 | For a symmetric contest a prefix differs from every non-empty word of every other alternative at a position both have, unless it is a whole path some rival never differs from. |
| PairTable.InternAll | rs/src/analysis.rs:974-995 | The numbers given to tokens name them, and stay as more are numbered. |
| PairTable.Table.Meets | rs/src/analysis.rs:996-1011 | The dense table, asked or not, with room or not, gives the answer contest gives. |
| DispatchRun.Enumerate | rs/src/analysis.rs:876-895 | Settling leaves exactly the returned paths held and never raises what is held. |
| DispatchRun.IsContested | rs/src/analysis.rs:920-941 | A head is contested exactly when a head of another alternative or of an exit contests it. |
| DispatchRun.Against | rs/src/analysis.rs:1018-1032 | Says whether a rival differs within what both have, and raises the depth past the first place it does. |
| DispatchRun.DepthOf | rs/src/analysis.rs:1017-1049 | The scan over rivals and exits finds the one depth that is enough and least. |
| DispatchRun.PrefixesOf | rs/src/analysis.rs:1051-1082 | Collects without repetition exactly the prefixes the heads and paths give, holding each as it is kept. |
| DispatchRun.DispatchPrefixes | rs/src/analysis.rs:864-1090 | The whole decision: exact contested heads, deep paths under them alone, exactly the specified prefixes for each alternative, and in the end only their units held, never past the limit. |
| DebtPass.RefCallersOf | rs/src/analysis.rs:510-545 | The backward walk sees exactly the rules from which the target can be reached through references, itself included. |
| DebtPass.MarkAll | rs/src/analysis.rs:448-483 | Marks exactly the pushes into a carrier before a mandatory suffix, one or zero as the suffix can begin with a token of the loop, and records exactly the tokens of the loop some suffix competes for. |
| DebtPass.SettleLoop | rs/src/analysis.rs:390-508 | Settles one loop: dropped exactly when it has no owner or nothing owes one of its tokens, and otherwise guarded with those marks. |
| DebtPass.MarkMeans | rs/src/analysis.rs:396-402 | With exact FIRST sets a mark says that the suffix cannot vanish, and is one exactly when a derivation from it begins with a competing token. |
| DebtPass.MarkIsDelta | rs/src/analysis.rs:448-483 | Under token identity the mark is the amount the counter machine below runs on. |
| SuffixDebt.DeltaIs | rs/src/analysis.rs:450-480 | A push before a closing token adds one when the loop can begin with that token and resets otherwise. |
| SuffixDebt.AcceptsReads | rs/src/emit.rs:2218-2246 | On every stack, what the counter machine accepts its frames read in turn, by a loop that never takes an owed token while the counter is not zero. |
| SuffixDebt.ReadsAccepts | rs/src/emit.rs:2218-2246 | On every stack that pushes can build, the counter machine accepts whatever its frames read in turn. |
| SuffixDebt.ParsesIsReads | rs/src/emit.rs:2218-2246 | From the initial stack the machine accepts exactly the words a rule with nothing owed reads. |
| SuffixDebt.ParsesSound | go/emit_support.go:213-271 | The machine never accepts a word outside the language of the left-recursive rule. |
| SuffixDebt.TwoOwedFails | go/emit_support.go:248-262 | With two owed tokens the count does not say which is owed: a word of the language that the machine rejects. |
| SuffixDebt.DebtExact | rs/src/analysis.rs:390-508 | For every rule of the family that has an atom, the machine accepts exactly the language if and only if at most one closing token is also a tail token. |
| DebtFamily.SettleMarks | rs/src/analysis.rs:390-508 | Elimination, desugaring, FIRST and the debt pass run on the rule as written: the guard is dropped exactly when no closing token is a tail, and otherwise asks for exactly the owed tokens, with each push inside a wrap marked as the machine calls for. |
| DebtFamily.SettleFamily | rs/src/analysis.rs:390-508 | The machine run on what the pass leaves accepts exactly the language of the rule as written if and only if at most one token is owed. |
| SuffixDebt.DocumentedExact | go/emit_support.go:213-271 | For A = A "y" / A "w" / "x" A "y" / "(" A ")" / "z" the machine accepts exactly the language. |
| RepeatLoop.StepKeeps | rs/src/emit.rs:2871-2979 | Over any flat grammar with any of its repetition rules emitted as loops, items with alternatives, empty items and loops re-entered through their own item included, every step keeps the invariant tying counters, depths, nodes and what each frame has read. |
| RepeatLoop.EveryRun | rs/src/emit.rs:71-88 | In every run each counter is 0 or 1, every slot is at the depth it was pushed at, a loop has no node before its entry, and after it the node holds words of the item that together are exactly what was read since the loop was pushed. |
| RepeatLoop.PushesAfresh | rs/src/emit.rs:71-88 | What a push creates has counter 0 and no node, at whatever depth of loops. |
| RepeatLoop.AllocatedOnce | rs/src/emit.rs:71-88 | Over the life of a frame its node is allocated at most once, and it has one just when that has happened. |
| RepeatLoop.LeftAfterOne | rs/src/emit.rs:71-88 | When a frame is left its node has been allocated exactly once if it is a loop, and never if it is not. |
| RepeatLoop.AcceptedExactly | go/emit.go:2419-2480 | The runs of the emitted rules accept exactly the language the grammar gives the rule, whichever of its repetitions are loops. |
| Compile.CompileRules | rs/src/emit.rs:773-785 | Elimination, validation, factoring, tail repeats, validation and desugaring one after the other, references to missing rules included: when none refuses, every rule is there and has lost no word, and unless a helper takes a missing name it is flat and derives exactly the words it did, and so do the loops emitted for it; a refusal is elimination's, or validation's of a grammar on the way. |
| Ranges.NormalizeRanges | go/ranges.go:333-360 | Sorted, with a gap after each span, and the same characters. |
| Ranges.NormalUnique | go/ranges.go:333-360 | A coverage has one normal form, so it does not matter how the class was written. |
| Ranges.CharRangesOverlap | go/ranges.go:362-379 | The two-index loop computes the specified sweep. |
| Ranges.SweepSound | go/ranges.go:362-379 | A shared character the sweep reports is there, whatever the order of the spans. |
| Ranges.OverlapExact | go/ranges.go:362-379 | On normal coverages the sweep decides intersection. |
| Ranges.LowSortedExact | go/ranges.go:362-379 | Sorting both sides by their low bounds is enough: the sweep decides intersection without merging. |
| Ranges.ClimbsDecides | go/ranges.go:362-379 | So is less: that no span on either side brings in a character below an earlier span of its side, unless one before it has that character. |
| Ranges.DecidesExactly | rs/src/factor.rs:543-561 | And that is the exact condition, for either side: the sweep is right against every normal coverage on the other if and only if it holds. |
| Ranges.GroupPassedOver | rs/src/factor.rs:543-561 | The spans factoring compares for the group of "z" and "a" against "a", case told apart: the shared character is passed over, and the condition is just what fails. |
| Ranges.CutPoints | go/ranges.go:518-534 | Exactly the low bounds and the ends past the high bounds, increasing. |
| Ranges.PartitionRanges | go/ranges.go:515-559 | Sorted disjoint atoms, each held whole by some input and cut by none, covering every input. |
| Ranges.CoverageIsAtoms | go/ranges.go:499-559 | Each input is exactly the union of the atoms it holds. |
| Ranges.AtomsDiffer | go/ranges.go:499-559 | Atoms that touch differ in which inputs hold them: the partition is no finer than it must be. |
| Ranges.AnalyseClasses | go/contested.go:1040-1070 | A class is contested exactly when another shares a character with it, and the contested classes are covered by the atoms. |
| Ranges.UncontestedAlone | go/contested.go:984-1070 | A character of a class that keeps its matcher matches no atom and no other class. |
| ContestMemo.ContestCtx.CoverageOverlap | rs/src/emit.rs:350-357 | Two exact coverages overlap exactly when they share a character. |
| ContestMemo.ContestCtx.TokensOverlap | rs/src/emit.rs:321-370 | Whatever the limit and whatever provisional entries are pending, the memoised answer is the memo-less relation's; it ends even on sets of sets, and the memo never outgrows its limit. |
| ContestMemo.ContestCtx.HeadsContest | rs/src/emit.rs:372-445 | The same for dispatch heads. |

## Left out

- LeftRec.Eliminate: no leading cycle is promised only without empty alternatives and exempt aliases, because with them literal leading references can remain; a recursion hidden behind a nullable rule ordered later, or inside a group that starts an alternative, is not a literal leading reference and can remain too.
- LeftRec.ExpandPrefixes: promises no hidden left recursion left only when its round guard was not reached; a deeply nested option takes more rounds than the rule has elements. The language is kept either way.
- LeftRec.EliminateOrdered: it is exact which grammars are refused for growth, as the run they lead to; no bound on the size of the input is given below which none is.
- Factor.LeftFactor: the first-character walk behind the disjointness test is a parameter; the result holds whatever it answers. The refusal of an annotated rule that factoring would inline is not part of this model, annotations being left out. Which rules a name taken by factoring leaves alone is stated for all rules together, not rule by rule.
- Follow.ComputeFollowPairs: pairs whose first token comes from inside a following reference are not collected, in the source either.
- Dispatch.EveryWordDispatched: stated where no path was cut short by a reference that cycles back, as the source promises no more.
- SuffixDebt.DebtExact: tails and closers are single tokens and competition is token identity; a tail or closer that is a longer sequence, and competition by character coverage, are not modelled in the machine; the pass takes the competition test as a parameter.
- RepeatLoop.AcceptedExactly: which alternative the dispatcher takes, and whether a loop goes on, is left open, so this is acceptance by some run; array collection is left out.
- Compile.CompileRules: the grammar desugared is the one the tail-repeat marks stand for; loops run without their debt guards, whose effect is proved for the family of `DebtFamily`; the probe rewriting between elimination and factoring is not modelled.
- DesugarProofs.DesugarKeepsRule: one way only. A rule that reaches a captured reference may or may not change, as the words it gains may be its own already or stand where nothing completes them.
- DebtFamily.SettleFamily: stated for families with a tail, a wrap and an atom; without a tail there is no loop, and without a wrap the loop gets no counter.
- ChoiceEmit.EmitChoice: a rule whose alternatives are all one segment makes its entries from the segments instead, with the same end; which two-token guards leave a repetition, and the rules behind the alternatives, are parameters; an alternate here is what its units and its order depend on.
- EntryOrder.ReorderKeywordShadow: the memo of contesting classes, which changes no answer, is left out.
- Ranges.AnalyseClasses: the exclusion of classes that name lead surrogates in different readings is not modelled.
- EmitBudget.Budget.Charge: the subject and step a refusal names are not modelled; charging the entries of FIRST, FOLLOW and FOLLOW2 one by one is not modelled.
- Repetitions.ValidateRepetitions: probe-helper vocabularies, tail-repeat cycles and the element a refusal points at are not modelled; Go writes an infinite upper bound as a number, which is an absent bound here as in Rust.
- The prefixes kept by `alt_prefixes` and by dispatch are compared as token sequences; the source compares them joined with spaces, which is the same for names without a space.
- Machine integers are unbounded here; the counts that saturate in the source are bounded by the limits proved.
- Provenance, source spans, value annotations, marks, user actions, removal and prose directives, the first-declared choice among duplicate productions beyond lookup, and the order of names in sets.
- The rewriting of optional prefixes into probes, whose run-time choice is a heuristic.
- The engine and its lexer: only the counter, push and replace rules the comments state are used.
- Regular expressions, escapes, case folding and UTF-16 reach: a terminal is a token name, with a test for matching nothing and a coverage where one is needed.
- Serialisation, diagnostics wording, bindings, locks.
