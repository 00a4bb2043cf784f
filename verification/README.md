# LEMON and its library routines, modelled in Dafny

LEMON reads a grammar and writes a shift/reduce parser: it computes FIRST sets, builds
the LR(0) automaton, propagates lookahead tokens, lists and resolves the actions of
every state, replaces the commonest reduce of a state by a default, and packs
everything into one table, which a fixed driver interprets. This project models that
chain from the grammar to the running parser and proves what it is for:

* **Sound.** On every token string, at every moment of the run, no assertion of the
  driver has failed, no table or stack index is out of range, everything accepted is a
  sentence of the grammar (with the tree that proves it), and the tokens kept since
  begin something the start symbol derives.
* **Exact.** If no action had to give way to another one, the parser accepts exactly the
  sentences whose parse fits the stack, each with its only tree: such a grammar is
  unambiguous. This needs lookahead sets without gaps, and `Exactness.GenerateExact` says
  exactly when the gaps do no harm, with and without default reductions.
* **Terminating.** If also no empty rule is hidden, every call of `Parse` ends, on any
  input (`NoDetours.SolidCallEnds`); and so it does for every unambiguous grammar whose
  nonterminals all derive some token string (`Termination.CallEnds`).
* **Conflicts.** Where actions had to give way, the tables hold the one that precedence and
  associativity choose, and `nconflict` counts the losses that they did not decide.
* **Errors.** A token in error is thrown away and nothing else; errors closer together than
  three shifted tokens are reported once; an error at the end of the input fails the parse
  (`Recovery.ErrorsLogged`).

`Generator.Generate` is the whole generator; its postcondition says these things of the
tables it returns, for every grammar, every stack depth and every input.
`EndToEnd.ParseString` goes on from there: it sets up the parser object on the generated
tables and feeds it a token string, and so decides for every string whether it is a
sentence. Below, each stage is a method with the loops of the C
code, proved against a definition that does not mention the algorithm (the least closed
family, the canonical collection, the union over all link paths, the champion of a
conflict, lookup in a set of pairs).

Semantic values on the parser stack are parse trees, so that what the user actions see
is part of the theorems. Lists, sets and hash tables of the generator are Dafny
sequences, sets and maps where only their contents matter; the packed action table, the
hash table, the parser stack and the sorting routines keep their arrays.

The second half models the other algorithms of the repository: LEMON's merge sort and
hash tables, and from the C library additions the quicksort, the `fnmatch` matcher, the
additive random generator, the word-at-a-time `memchr`, `frexp`/`printf_frexp` and two
macros of `intprops.h`.

Files: `Grammar`, `FirstSets`, `Automaton`, `Closure`, `States`, `FollowSets`,
`Lookahead`, `ActionLists`, `Actions`, `Compress`, `ActTab`, `Tables` and `Generator` are
the generator, `Driver` and `ParserObject` the parser, `EndToEnd` both together;
`Champions`, `Soundness`, `Completeness`, `Exactness`, `Termination`, `NoDetours`, `Prefix`,
`Recovery` and `Defaults` are theorems about them, `HiddenNullable`, `HiddenLoop`, `LongRule` and
`SpoiledSentence` the grammars that show why some conditions are needed; `Sorting` and `MergeSort` are the sorting. `Options`, `Powers` and
`CDivision` are shared definitions, and the remaining files are one routine each.

## Where code and comments disagree

* The comment at lemon/lemon.c:606 says that all nonterminals that can generate the
  empty string are found. The test at lemon/lemon.c:632 stops at every nonterminal, so
  only those with an empty rule of their own are. The model follows the code.
  `FirstSets.LambdaExactIff` says when that makes no difference to the flags, and
  `Exactness.GenerateExact` when it makes none to the parser.
  `HiddenNullable.GenerateAndRefuse` generates tables for a grammar without conflicts that
  has a sentence its parser rejects, and `HiddenLoop.GenerateEndless` for one that is
  ambiguous, has no conflicts all the same, and whose parser never returns from its first
  call. `ScansComplete`, which holds whenever every nullable nonterminal has an empty rule,
  is enough for exactness and for termination.
* `yyRuleInfo` keeps the length of a rule in a byte (lemon/lempar.c:522), while rules may
  have up to 1000 symbols (lemon/lemon.c:34). The model stores the length modulo 256.
  `Soundness.NodeValidIff` shows that the node built is a proper one exactly below 256, and
  `LongRule.GenerateLong` that the parser of s ::= X...X with n symbols is sound exactly if
  n < 256: beyond that, its only sentence fails an assertion. For any grammar, an exact
  parser is possible only if no sentence uses a longer rule (`LongRule.ExactIsShort`). So
  soundness and exactness have that condition (`RhsFits`). Soundness alone does not imply
  it: with the rules a ::= X...X a of 257 symbols and a ::= Y, the reduce pops a single
  entry, pushes the goto it finds there and goes round like that, and by the reading of the
  code no assertion fails; this is not proved here.
* Without an error symbol, a token in error is to be reported and thrown away
  (lemon/lempar.c:788-796). The parser may first reduce for it, by default or because lookahead
  sets were merged. `Recovery.DropKeepsIff` says that the stack stays what it was before the
  call if and only if it did not, and `Recovery.DroppingIsLeavingOut` that a run without such
  reduces is the run on the other tokens. `SpoiledSentence.GenerateSpoiled` is a grammar
  without conflicts where the reduce spoils the parse of a sentence.
* The scan for an offset takes an unused slot for a member if its mark, -1, happens to be
  its distance from the offset (lemon/lemon.c:529), and passes the place over.
  `ActTab.ClearIsFree` says that this is the only difference from asking whether the set
  fits; it costs room and nothing else.
* `msort` has room for 2^30 - 1 elements; beyond that it loses the first ones, and
  `MergeSort.Msort` says exactly which.
* Under FNM_PATHNAME, `fnmatch` rejects every string for a pattern in which an escaped
  slash follows a star; `Fnmatch.RightExactlyWhen` says that this is the only difference.
* INT_BITS_STRLEN_BOUND is a bound for every number of bits but zero
  (`IntProps.BoundExact`); that 2621 is the least number of bits for which it is not tight, as
  lib/intprops.h:104-105 says, is `IntProps.BoundTight` and `IntProps.NotTightAt2621`.

## Model

| member | source | states |
|---|---|---|
| Generator.Generate | lemon/lemon.c:1469-1505 | the automaton is the canonical one with the least lookahead sets, `clean` holds exactly for grammars without conflicts; `nconflict` is the number of states, tokens and rules such that nothing decides between the rule and the champion of the shift and the rules before it, so it is zero exactly if precedence or associativity settled everything; the tables belong to that automaton in their own numbering, answer with the champion of every conflict or else with the default of the state, which is its commonest rule or the error, have no other gotos, and offsets for no more states than need one; they make a sound parser for every grammar whose rules fit a byte, and an exact one if also nothing had to be resolved and the lambda flags suffice |
| Generator.FrontEnd | lemon/lemon.c:1469-1490 | first sets, states, lookahead sets and actions: the canonical automaton, its least lookahead sets and the resolved lists of all states |
| Generator.BackEnd | lemon/lemon.c:1493-1505 | compression, sorting and packing of given resolved lists: the tables are built from the lists and have all that `Generate` says of them |
| Generator.DefaultsHold | lemon/lemon.c:4021-4126 | the default of a state is the rule that is the champion of most tokens among all but the start rules, of several such the one that wins the least token, or the error if there is none or nothing is compressed |
| Generator.OneCommonest | lemon/lemon.c:4033-4056 | there is only one such rule |
| Generator.LaidOutGotos | lemon/lemon.c:4085-4132 | after state 0, exactly the states with gotos have an entry in `yy_reduce_ofst`: those without come last |
| Generator.DefaultFound | lemon/lempar.c:370-416 | a token without a candidate is answered with the default of the state |
| Generator.RenumberedReached | lemon/lemon.c:4127-4131 | every state of the tables lies on a path from state 0 |
| Generator.TablesDelivered | lemon/lemon.c:1469-1505 | all that is said of the tables, in their own numbering of the states |
| Generator.RenumberedIsLook | lemon/lemon.c:4127-4131 | the least lookahead sets stay the least under renumbering |
| Generator.ChampionFound | lemon/lemon.c:966-979 | for every state and token with a candidate, the tables hold the champion, with or without default reductions |
| Generator.TablesCorrect | lemon/lemon.c:1469-1505 | tables that decode to the final action lists, in any numbering of the states, give those two guarantees |
| Generator.TablesForHolds | lemon/lemon.c:3671-3817 | what the tables answer for a token or a nonterminal is a transition of the automaton, a completed rule, the accept of the start state, or the error |
| Generator.TablesCompleteHolds | lemon/lemon.c:3671-3817 | without conflicts, every transition and every lookahead of a completed rule is found in the tables |
| Generator.CompressedFinal | lemon/lemon.c:4021-4076 | a compressed list still answers every symbol that had an action with one of its candidates, and what it adds is a default reduce of a completed rule, not of the start symbol |
| Generator.StillAnswers | lemon/lemon.c:4021-4076 | a live action is found in the compressed list by name, or is the default and nothing else is found for its symbol |
| Generator.CleanIff | lemon/lemon.c:966-979 | nothing was taken out of any list exactly if no state has two actions for a token |
| Generator.RenumberedAutomaton | lemon/lemon.c:4127-4131 | renumbering the states leaves an automaton of the same grammar, with state 0 in place |
| Generator.Emit | lemon/lemon.c:3671-3817 | counting, sorting and packing: the tables decode to the given lists under a permutation of the states |
| FirstSets.LambdaScan | lemon/lemon.c:629-637 | how far the scan gets; to the end exactly for an empty right-hand side, as only nonterminals are flagged |
| FirstSets.FindLambdas | lemon/lemon.c:618-639 | the loop ends with exactly the nonterminals that have an empty rule |
| FirstSets.LambdaExactIff | lemon/lemon.c:606-639 | these are the nullable nonterminals if and only if every rule made of such nonterminals only has a left-hand side with an empty rule |
| FirstSets.ScanRule | lemon/lemon.c:646-663 | one rule adds what its right-hand side can begin with, and progress is reported exactly if that was something new |
| FirstSets.FindFirstSets | lemon/lemon.c:611-667 | the loop ends with the least family closed under all rules relative to the flags |
| FirstSets.FirstSound | lemon/lemon.c:642-665 | every member of a first set begins some form derived from the nonterminal |
| FirstSets.FirstExact | lemon/lemon.c:642-665 | and every token that begins one is a member, if the scans see all nullable symbols |
| FirstSets.ScansCompleteWhenExplicit | lemon/lemon.c:606-639 | they do if every nullable nonterminal has an empty rule |
| FirstSets.NullsLeast | lemon/lemon.c:606-639 | what the flags are meant to be: the nullable nonterminals are the least set closed under the rules |
| FirstSets.TrueFirstIsFirst | lemon/lemon.c:642-665 | relative to those, the least family is what the nonterminals really begin with |
| HiddenNullable.IsSentence | lemon/lemon.c:606-639 | a grammar and a sentence of it, with its parse |
| HiddenNullable.SentenceRejected | lemon/lemon.c:626-639 | tables that belong to an automaton of that grammar with its least lookahead sets report an error on the sentence |
| HiddenNullable.NoConflicts | lemon/lemon.c:626-639 | although the grammar has no conflicts |
| HiddenNullable.NotExact | lemon/lemon.c:626-639 | and accept it with no tree, at no stack depth |
| HiddenNullable.GenerateAndRefuse | lemon/lemon.c:626-639 | the tables generated for the grammar, with and without default reductions, do so: no conflicts, and not exact |
| HiddenLoop.Ambiguous | lemon/lemon.c:606-639 | a grammar with two parses of the empty string |
| HiddenLoop.NoConflicts | lemon/lemon.c:626-639 | which has no conflicts, since hidden empty rules keep the tokens apart |
| HiddenLoop.RoundHolds | lemon/lemon.c:4021-4076 | in its tables with default reductions, a token of no rule is answered with a reduce in six states that lead to each other |
| HiddenLoop.NeverEnds | lemon/lempar.c:719-814 | so the loop of the call goes on for any number of turns |
| HiddenLoop.GenerateEndless | lemon/lemon.c:1469-1505 | that is what is generated for the grammar: no conflicts, ambiguous, and a first call that does not return, at every stack depth from 4 on |
| Closures.ScanRest | lemon/lemon.c:1211-1227 | the tokens that can follow and whether the end is reached agree with the definition of FIRST of a sequence |
| Closures.Closure | lemon/lemon.c:1189-1232 | the loop ends with the least closure of the basis, and the lookahead seeds and forward links are exactly those its members call for |
| Automata.ClosureSupported | lemon/lemon.c:1189-1232 | every member of a least closure is in the basis or called for by another member |
| Automata.StartLookIsEnd | lemon/lemon.c:713-721 | the only lookahead of a start rule is the end token |
| States.StateTable.Find | lemon/lemon.c:4710-4726 | finds the state with the given basis, if there is one |
| States.StateTable.GetState | lemon/lemon.c:734-774 | returns the state of the basis, new or merged, and keeps bases distinct and the record of every shift exact |
| States.StateTable.AddState | lemon/lemon.c:759-772 | a new state gets the next number and the least closure of its basis |
| States.TakeShifted | lemon/lemon.c:813-830 | the new basis is exactly the set of advanced items, and exactly their sources are marked complete |
| States.StateTable.ShiftOver | lemon/lemon.c:816-845 | one symbol: the shift leads to the state whose basis is the advanced items |
| States.StateTable.BuildShifts | lemon/lemon.c:797-847 | every symbol after a dot gets one shift; the recursion ends |
| States.FindStates | lemon/lemon.c:674-728 | the states are the canonical LR(0) collection, numbered in the order found, the start state first, bases pairwise distinct, back links exact |
| Lookahead.FindLinks | lemon/lemon.c:852-882 | forward links are exactly the closure's links and the back links turned around |
| FollowSets.Propagate | lemon/lemon.c:907-915 | one configuration passes its tokens on; those that grew become incomplete |
| FollowSets.FindFollowSets | lemon/lemon.c:888-919 | the worklist ends with the least family above the seeds that is closed under all links |
| FollowSets.FollowByPaths | lemon/lemon.c:888-919 | a token is in a set exactly if some path of links brings it from a seed |
| Lookahead.LeastIsLook | lemon/lemon.c:888-919 | that family is the least lookahead assignment of the automaton |
| Lookahead.FindLookaheads | lemon/lemon.c:852-919 | links and propagation together give the least lookahead assignment |
| ActionLists.TransOfExact | lemon/lemon.c:797-847 | the shifts of a list stand for its transitions, one to one |
| Actions.ResolvesToOne | lemon/lemon.c:1009-1071 | of two candidates exactly one stays alive, the final assertion holds, and precedence and associativity say which; the loser is marked and counted as a conflict exactly if one has no precedence, or they have the same and are two reduces or the token is neither left nor right associative |
| Actions.ResolvedStays | lemon/lemon.c:1009-1071 | an action that has lost changes nothing any more |
| Actions.CompareOne | lemon/lemon.c:973-977 | one comparison in a group keeps the account of its champion |
| Actions.ResolveList | lemon/lemon.c:966-979 | in every group of a sorted list the champion alone is alive, and those that met a champion without a decision are marked as conflicts; an accept that shares its symbol is the only thing that trips the assertion; the count returned is the number of marks |
| Actions.ResolveCounts | lemon/lemon.c:1009-1071 | the error count returned is the number of actions that became conflicts |
| Actions.ExactlyOneLive | lemon/lemon.c:966-979 | every symbol that had an action keeps exactly one |
| Champions.WinnerIsChampion | lemon/lemon.c:966-979 | the champion of a sorted group is that of the shift and then the rules in their order |
| Champions.LiveIsChampion | lemon/lemon.c:966-979 | what is left alive for a token is the champion |
| Champions.MarkedIsClash | lemon/lemon.c:966-979 | an action is marked as a conflict exactly if it is a reduce and nothing decides between it and the champion of the shift and the rules before it |
| Champions.ConflictsOfStates | lemon/lemon.c:966-979 | the marks of all states together are as many as there are such states, tokens and rules |
| Actions.StateActions | lemon/lemon.c:934-963 | the candidates of a state are its shifts, one reduce for each lookahead of each completed rule, and the accept of state 0 |
| Actions.ResolveState | lemon/lemon.c:966-979 | the list of one state, sorted and resolved, comes from its candidates |
| Actions.FindActions | lemon/lemon.c:925-994 | so for all states; all assertions hold exactly if the start symbol is not shifted in state 0; `nconflict` is the number of unresolved conflicts |
| Compress.FindBest | lemon/lemon.c:4033-4056 | the rule chosen is reduced most often among all but the start rules and is the first such in the list, or there is none |
| Compress.CompressState | lemon/lemon.c:4032-4074 | the live actions afterwards are those of the other rules and the default |
| Compress.CompressTables | lemon/lemon.c:4021-4076 | so for every state |
| Defaults.CompressionSimulates | lemon/lemon.c:4021-4076 | up to the numbering of the states, compressed tables answer what plain ones do wherever that is not an error |
| Defaults.StepForStep | lemon/lemon.c:4021-4076 | every run without a syntax error is the same step for step: same stack, same events, same trees |
| Defaults.GenerateBoth | lemon/lemon.c:1493-1495 | the tables generated for a grammar with and without default reductions: on any input, at any stack depth and after any number of steps without a syntax error, the two parsers are in the same place |
| ActTab.Acttab.constructor | lemon/lemon.c:443-452 | an empty table |
| ActTab.Acttab.Add | lemon/lemon.c:454-480 | stages one pair of lookahead and action, keeping the extremes |
| ActTab.Acttab.Grow | lemon/lemon.c:493-511 | there is room for the staged set at every offset that will be tried |
| ActTab.Acttab.FitsAt | lemon/lemon.c:521-533 | true if and only if all slots wanted are free and no used slot, and no mark, would be taken for a member |
| ActTab.ClearIsFree | lemon/lemon.c:528-533 | then the set fits without disturbing, or being disturbed by, what is there; a set that fits is passed over only for the mark of an unused slot before the offset |
| ActTab.Acttab.SameAt | lemon/lemon.c:534-550 | true if and only if the very same set is already here, and nothing else at that offset |
| ActTab.ThereExactly | lemon/lemon.c:536-550 | which is so exactly if its members are here and their number is that of the slots taken for members |
| ActTab.Acttab.FindPlace | lemon/lemon.c:513-552 | the first offset where one of the two holds, or else the end of the table |
| ActTab.Acttab.Insert | lemon/lemon.c:489-564 | the staged set is added to the sets that can be looked up, all earlier ones included; all indices are in range |
| ActTab.NewSetHolds | lemon/lemon.c:489-564 | looking up offset plus x with the lookahead check gives the action of x in the set just written, and nothing for other x |
| ActTab.OldSetHolds | lemon/lemon.c:489-564 | and the same as before for every set written earlier |
| ActTab.SameOffsetSameSet | lemon/lemon.c:520-558 | two sets share an offset only if they have the same actions |
| TableBuilder.SetForAction | lemon/lemon.c:3018-3030 | a live action is found in its state's set under its code |
| TableBuilder.CountActions | lemon/lemon.c:4109-4126 | the counts of token and nonterminal actions and the default of a state |
| TableBuilder.ResortStates | lemon/lemon.c:4085-4132 | a renumbering of the states that keeps state 0 and puts those with more nonterminal actions first, and with more token actions if these are as many |
| TableBuilder.PlaceSets | lemon/lemon.c:3671-3721 | every nonempty set is inserted and its offset recorded; sets without an offset are empty |
| TableBuilder.EmitOffsets | lemon/lemon.c:3757-3800 | the offsets up to the last state that has one |
| TableBuilder.ReportTable | lemon/lemon.c:3671-3817 | looking a token or nonterminal up in the arrays gives the action of the state's list, or its default, for every state and symbol |
| Soundness.NodeValidIff | lemon/lempar.c:520-525 | popping by the length kept in a byte builds a proper node exactly for rules of fewer than 256 symbols |
| LongRule.RunFails | lemon/lempar.c:533-606 | with tables for s ::= X...X of 256 symbols or more, the run on its sentence fails an assertion |
| LongRule.GenerateLong | lemon/lempar.c:520-525 | the parser generated for that grammar is sound exactly if the rule has fewer than 256 symbols |
| LongRule.RunCounts | lemon/lempar.c:533-606 | whatever the tables, every node a run builds has as many children as the byte of its rule says |
| LongRule.ExactIsShort | lemon/lempar.c:517-606 | if the parser is exact, a rule used in a parse of a sentence has fewer than 256 symbols |
| LongRule.GenerateUsed | lemon/lemon.c:1469-1505 | for a grammar without conflicts and hidden empty rules, all of whose rules are used in sentences, the parser is exact if and only if all rules have fewer than 256 symbols |
| Soundness.HandleOnStack | lemon/lempar.c:581-584 | when a rule is complete in the top state, its right-hand side is on the stack with the trees of its symbols, above a state that called for it |
| Soundness.ReduceKeeps | lemon/lempar.c:533-606 | a reduce finds its goto and keeps the stack a path of the automaton |
| Soundness.IterateKeeps | lemon/lempar.c:719-814 | a turn of the loop fails no assertion and keeps the invariant |
| Soundness.RunSound | lemon/lempar.c:679-816 | so does every run on every input: the stack is a path from state 0 whose trees derive the tokens kept, in order |
| Soundness.AcceptedIsSentence | lemon/lempar.c:644-658 | an accept without errors before it has a parse of exactly the tokens since the start |
| Completeness.ScansAreReal | lemon/lemon.c:1189-1232 | the lookahead sets computed hold whatever can follow in a sentence, if the scans see all nullable symbols |
| Completeness.ParseNode | lemon/lempar.c:679-816 | from a state that calls for its rule, the parser builds exactly the given tree out of its yield, or overflows, as the need for stack tells |
| Completeness.SentenceRun | lemon/lempar.c:679-816 | on a sentence the parser accepts the given tree, or overflows exactly if the stack is too small for it |
| Completeness.LanguageExact | lemon/lempar.c:679-816 | it accepts a string with a tree if and only if that is a parse of it that fits the stack |
| Completeness.Unambiguous | lemon/lempar.c:679-816 | a grammar with such tables has one parse for a string at most |
| Exactness.AcceptRun | lemon/lempar.c:679-816 | a run that accepts a tree makes exactly the moves of the tree, bottom up |
| Exactness.ExactReduces | lemon/lempar.c:370-416 | an exact parser has the reduce of a rule in its tables wherever the rule ends in a parse of a sentence, for the token that follows there |
| Exactness.OccursClosed | lemon/lemon.c:852-919 | what follows in sentences is closed under everything the parser does |
| Exactness.ReducesExact | lemon/lempar.c:679-816 | with those reduces in the tables and no conflicts, the parser is exact |
| Exactness.OccursIsLook | lemon/lemon.c:852-919 | if all nonterminals are productive, the tokens that follow in sentences are the least lookahead sets with the right lambda flags |
| Exactness.LookIsOccurs | lemon/lemon.c:852-919 | a token is in those sets for an item of a state if and only if it follows there in some parse of a sentence |
| Exactness.CoversIff | lemon/lempar.c:370-416 | the reduces are in the tables if and only if, at the end of every rule, each token of those sets is in the computed set, or has no candidate and the rule is the default |
| Exactness.GenerateExact | lemon/lemon.c:1469-1505 | for every grammar without conflicts, with or without default reductions: exact if and only if the tables reduce wherever a rule ends in a sentence; if all nonterminals are productive, if and only if they cover the lookahead sets with the right lambda flags; without default reductions, if and only if the computed sets contain those at the end of every rule |
| Termination.EntryIsLean | lemon/lempar.c:719-814 | for an unambiguous productive grammar, no tree on the stack has a nonterminal twice over the same tokens |
| Termination.CallEnds | lemon/lempar.c:719-814 | so every call ends, after any history and on any token, within a bound |
| Termination.TurnsEnd | lemon/lempar.c:719-814 | the loop of a call goes round no more often than trees without such repetitions can grow |
| NoDetours.ForestEnds | lemon/lempar.c:719-814 | without conflicts and hidden empty rules, a token that can come next according to an item of the top state does not keep the loop going for ever |
| NoDetours.AllGood | lemon/lempar.c:719-814 | and neither does a token in a lookahead set, once the symbol of the rule is on the stack of some parser that can begin it |
| NoDetours.SameTree | lemon/lempar.c:719-814 | so two trees for the same symbol and tokens are the same, if the tables reduce their rules at all |
| NoDetours.KnownIsLean | lemon/lempar.c:719-814 | and no tree on the stack has a nonterminal twice over the same tokens |
| NoDetours.SolidCallEnds | lemon/lempar.c:679-816 | so every call ends, at every moment of every run and on any token, also if some nonterminals are unproductive |
| Prefix.StackInContext | lemon/lempar.c:719-814 | every item of the top state fits the tokens kept: the start symbol derives them, then what follows the dot |
| Prefix.RunIsViable | lemon/lempar.c:719-814 | at every moment of every run the tokens kept begin something the start symbol derives, so a token that cannot continue is never shifted |
| ParserObject.YyParser.constructor | lemon/lempar.c:257-272 | a parser with an empty stack |
| ParserObject.YyParser.FindShift | lemon/lempar.c:370-416 | reads the tables in range and finds the action of the model |
| ParserObject.YyParser.FindReduce | lemon/lempar.c:426-451 | its assertions hold where it is called |
| ParserObject.YyParser.Push | lemon/lempar.c:474-515 | shifts, or empties the stack on overflow |
| ParserObject.YyParser.PopAll | lemon/lempar.c:309-325 | empties the stack |
| ParserObject.YyParser.Reduce | lemon/lempar.c:533-606 | does the reduce of the model in place |
| ParserObject.YyParser.Turn | lemon/lempar.c:719-814 | does one turn of the model in place, with every assertion of the C code proved |
| ParserObject.YyParser.Parse | lemon/lempar.c:679-816 | a call that ends does the turns of the model for its token, and keeps the invariant |
| ParserObject.YyParser.ParseWithin | lemon/lempar.c:679-816 | the same for any grammar, giving up after a number of turns and saying so |
| ParserObject.TurnsAreSteps | lemon/lempar.c:679-816 | a call that returns is a stretch of the run over the whole input |
| Recovery.DropStep | lemon/lempar.c:796-811 | a token other than the end of input that is answered with the error action leaves the stack as it was and is thrown away |
| Recovery.OnlyErrorsLost | lemon/lempar.c:719-814 | at every moment of every run, the trees on the stack have for leaves exactly the tokens read since the parse began that were not in error |
| Recovery.DropKeepsIff | lemon/lempar.c:719-814 | after a call that throws its token away, the stack is what it was before the call if and only if the call made no reduce |
| Recovery.DroppingIsLeavingOut | lemon/lempar.c:719-814 | if no reduce was made for the tokens thrown away, the run on the other tokens throws none away and arrives at the same stack, having accepted the same trees |
| Recovery.CountIsSinceError | lemon/lempar.c:799-803 | `yyerrcnt` is three less the tokens shifted since the last error of the parse, and negative if there was none |
| Recovery.ErrorsLogged | lemon/lempar.c:796-811 | at every moment of every run, a syntax error is reported exactly if the tables answer with the error action and at least three tokens were shifted since the last error of the parse, or it has had none; the parse fails exactly if the token is the end of the input, and then the stack is emptied |
| SpoiledSentence.NoConflicts | lemon/lemon.c:966-979 | a grammar without conflicts and without empty rules |
| SpoiledSentence.SpoilsHolds | lemon/lemon.c:4021-4076 | in its tables, a token of no rule makes the parser reduce the commoner of two rules |
| SpoiledSentence.GenerateSpoiled | lemon/lempar.c:719-814 | so the generated parser, which is exact, accepts the sentence X, and accepts nothing if that token comes behind X, although it throws it away |
| EndToEnd.Feed | lemon/lempar.c:660-678 | one call after the other takes the parser object where the run of the model goes |
| EndToEnd.ParseString | lemon/lemon.c:1469-1505 | for every grammar without hidden empty rules: generating, and if there is no conflict setting up the parser and feeding it any token string, ends, and the log is one accept with a tree exactly if that is a parse which fits the stack |
| Sorting.StableSortSorted | lemon/lemon.c:1606-1618 | the specification of sorting gives a sorted list |
| Sorting.StableSortElements | lemon/lemon.c:1606-1618 | with the same elements |
| MergeSort.StableSortStable | lemon/lemon.c:1606-1618 | and elements of equal rank in their order |
| MergeSort.Merge | lemon/lemon.c:1568-1604 | merges, ties going to the second list |
| MergeSort.MergeSorts | lemon/lemon.c:1568-1604 | merging a sorted later part with a sorted earlier part is the stable sort of both |
| MergeSort.SlotSize | lemon/lemon.c:1631-1640 | a slot is empty or holds 2^i elements, as the binary digits of the number of elements taken in say |
| MergeSort.AddElement | lemon/lemon.c:1631-1640 | each slot holds the stable sort of its stretch of the list after one more element, higher slots earlier stretches |
| MergeSort.Msort | lemon/lemon.c:1620-1644 | the stable sort of the list exactly if it has fewer than 2^30 elements; otherwise of the list without its first ones, and of how many |
| MergeSort.MsortExact | lemon/lemon.c:1619-1644 | for any number of slots, nothing is lost exactly below 2^slots elements |
| HashTables.Table.FindNode | lemon/lemon.c:4710-4726 | walking one chain answers for all nodes |
| HashTables.Table.Find | lemon/lemon.c:4710-4726 | agrees with a linear search in the order of insertion |
| HashTables.Table.Double | lemon/lemon.c:4672-4697 | doubling keeps the entries in their order |
| HashTables.Table.Insert | lemon/lemon.c:4650-4708 | refuses a key that is present, otherwise adds the entry at the end |
| HashTables.Table.ArrayOf | lemon/lemon.c:4728-4742 | the data in the order of insertion |
| HashTables.Table.Clear | lemon/lemon.c:4871-4882 | an empty table again |
| HashTables.FirstInsertWins | lemon/lemon.c:4650-4708 | over any run of inserts, a key finds what was first inserted for it |
| States.ConfigCmp | lemon/lemon.c:4558-4566 | zero exactly for the same rule and dot, negative exactly for a smaller rule or the same rule and a smaller dot |
| HashTables.StateCmp | lemon/lemon.c:4568-4583 | zero exactly for equal basis lists, and otherwise the order of the dictionary |
| HashTables.HashAppend | lemon/lemon.c:4585-4598 | the hash of a basis list is a polynomial in 571 of its rules and dots, modulo 2^32 |
| QuickSort.MedianOfThree | lib/qsort.c:123-139 | the ends and the middle are in order afterwards |
| QuickSort.ScanLeft | lib/qsort.c:149-150 | the scan without a bound check stops in the part |
| QuickSort.ScanRight | lib/qsort.c:152-153 | and so does the other one |
| QuickSort.Collapse | lib/qsort.c:141-172 | everything left of the walls is at most the pivot, everything right of them at least; both sides are nonempty |
| QuickSort.Partition | lib/qsort.c:123-172 | the part is rearranged so that its first half comes before the rest |
| QuickSort.StackFits | lib/qsort.c:62-70 | the parts waiting are always fewer than the bits of `size_t` |
| QuickSort.SplitPartsOk | lib/qsort.c:174-203 | taking the smaller half first halves the size from one stack level to the next |
| QuickSort.SplitFront | lib/qsort.c:174-203 | the front of the array is a part of its own, short or still to be sorted |
| QuickSort.SplitWork | lib/qsort.c:174-203 | every split leaves less work |
| QuickSort.QuickPhase | lib/qsort.c:109-205 | the smallest element ends up among the first five, the elements being the same |
| QuickSort.FindSmallest | lib/qsort.c:216-226 | looking at the first five finds the smallest of all |
| QuickSort.FindPlace | lib/qsort.c:234-240 | the scan without a bound check stops after the first element, at the place for the new one |
| QuickSort.Rotate | lib/qsort.c:241-255 | moves the elements up by one and the last to the front |
| QuickSort.InsertionPhase | lib/qsort.c:214-257 | the array is sorted, with the same elements |
| QuickSort.Quicksort | lib/qsort.c:97-258 | for every total preorder and every length of type `size_t`, a sorted permutation, with every index in range |
| Fnmatch.Match | lib/fnmatch_loop.c:41-79 | matches exactly if the string falls into pieces for the pattern's elements, and the pattern has no escaped slash after a star under FNM_PATHNAME |
| Fnmatch.MatchStar | lib/fnmatch_loop.c:80-197 | the same for what follows a star, runs of `*` and `?` collapsed |
| Fnmatch.MatchSlash | lib/fnmatch_loop.c:170-178 | before a slash only the next slash of the string will do |
| Fnmatch.MatchLater | lib/fnmatch_loop.c:151-194 | before another character every occurrence up to the next slash is tried |
| Fnmatch.Fnmatch | lib/fnmatch_loop.c:41-197 | the whole pattern against the whole string, FNM_NOESCAPE and FNM_LEADING_DIR included |
| Fnmatch.RightExactlyWhen | lib/fnmatch_loop.c:151-194 | the matcher agrees with the glob relation on all strings if and only if the pattern has no escaped slash after a star, or FNM_PATHNAME is off |
| Fnmatch.EscapedSlashMissed | lib/fnmatch_loop.c:179-194 | a pattern and a string where it does not |
| Fnmatch.GlobStarAny | lib/fnmatch_loop.c:94-124 | a star and a question mark can change places |
| Fnmatch.GlobLastStar | lib/fnmatch_loop.c:126-147 | what a star at the end matches |
| Random.SeedStep | lib/random_r.c:214-224 | 16807 times the word modulo 2^31 - 1, for every 32-bit word, in 32-bit steps |
| Random.RandomData.Seed | lib/random_r.c:188-241 | the table is the seeded sequence after ten rounds |
| Random.RandomData.Random | lib/random_r.c:379-428 | draws the next number of the generator in use and moves it one step on |
| Random.RandomData.MoveOn | lib/random_r.c:408-421 | the cursors keep their distance although only one is checked when the other wraps |
| Random.CursorsApart | lib/random_r.c:408-421 | they never both wrap |
| Random.AfterIsStream | lib/random_r.c:397-421 | after any number of draws the table holds the end of the sequence |
| Random.StreamRecurrence | lib/random_r.c:397-421 | which is x(n) = x(n-deg) + x(n-sep) modulo 2^32, in plain arithmetic |
| Random.DrawnIsStream | lib/random_r.c:404-407 | the number drawn next is the next word of the sequence, halved |
| Random.ClassicalHolds | lib/random_r.c:188-241 | after seeding, the numbers drawn are those of the sequence that begins with the seed and its multiples by powers of 16807 modulo 2^31 - 1, then the first of these again, then the sums, from the eleventh round on |
| Random.SeedAndDraw | lib/random_r.c:188-428 | for the polynomials x^7 + x^3 + 1, x^15 + x + 1, x^31 + x^3 + 1 and x^63 + x + 1, seeding and drawing any number of times gives those numbers; for type 0 the congruential sequence |
| Random.TypeForBest | lib/random_r.c:270-291 | the generator chosen for an array is the largest that fits it |
| Random.RandomData.InitState | lib/random_r.c:257-308 | saves the generator in use and seeds the best one for the size, or refuses fewer than 8 bytes and goes on with the one in use |
| Random.RandomData.SetState | lib/random_r.c:321-363 | saves the generator in use so that the array holds it, and goes on with the one left in the other array |
| Random.Interlude | lib/random_r.c:312-320 | switching away, drawing any number of times and switching back goes on as if never switched |
| Memchr.MinusIs | lib/memchr.c:146-147 | the bytewise difference is the subtraction of words |
| Memchr.TestExact | lib/memchr.c:109-147 | the mask test is nonzero exactly if some byte of the word is zero, for any number of bytes |
| Memchr.Repeat | lib/memchr.c:86-107 | a byte doubled until it fills the word |
| Memchr.Memchr | lib/memchr.c:59-168 | the least index of the byte among the first n, or none, for every alignment, word size and byte order |
| Frexp.ClimbUp | lib/frexp.c:88-112 | squaring up: x stands for the argument and is between one and 2^2^i |
| Frexp.ClimbDown | lib/frexp.c:122-146 | squaring down |
| Frexp.Frexp | lib/frexp.c:58-168 | mantissa from one half to one times 2^exponent is the argument, for every real; ends; reads filled table entries only, of which there are few |
| Frexp.SplitUnique | lib/frexp.c:58-168 | there is only one such pair |
| Frexp.TableFits | lib/frexp.c:81-84 | the tables need no more entries than the exponent has bits |
| Frexp.ClimbDownTo | lib/printf-frexp.c:122-149 | squaring down no further than the least exponent |
| Frexp.StepDownTo | lib/printf-frexp.c:150-163 | and then by smaller steps, until one is passed or the least exponent is reached |
| Frexp.PrintfFrexp | lib/printf-frexp.c:87-183 | the product is the argument, the exponent is at least MIN_EXP - 1, the mantissa below two, and at least one unless that exponent is reached |
| IntProps.Convergent | lib/intprops.h:103-106 | 2^485 < 10^146 |
| IntProps.BelowPowerOf10 | lib/intprops.h:103-106 | 2^b has no more digits than the bound, for every b > 0 |
| IntProps.BoundExact | lib/intprops.h:103-106 | the bound holds for all numbers of b bits if and only if b > 0 |
| IntProps.ConvergentBelow | lib/intprops.h:103-106 | 10^643 < 2^2136 |
| IntProps.BoundTight | lib/intprops.h:103-106 | below 2621 bits the bound is the number of digits of the largest number |
| IntProps.NotTightAt2621 | lib/intprops.h:103-106 | for 2621 bits it is not |
| IntProps.StrlenFits | lib/intprops.h:108-117 | every value of an integer type fits the bound for its type, sign included |
| IntProps.StrlenTight | lib/intprops.h:108-117 | below 2621 bits, some value of the type needs all of it |
| IntProps.MultiplyExact | lib/intprops.h:179-194 | the test is true exactly for the products outside the type |

## Left out

- Reading the grammar file, options, the template, the text of the report and of the generated parser: input, output and string handling; the model starts from the parsed grammar and ends with the arrays.
- The `error` symbol and the recovery it drives, `%fallback`, `%wildcard` and MULTITERMINALs: grammars with them are outside the data model.
- `FindRulePrecedences`: a rule's precedence symbol is part of the grammar.
- A start symbol that occurs on a right-hand side, or that is a token: LEMON reports the first as an error and goes on; `Generate` requires its absence.
- The stack that grows on demand (YYSTACKDEPTH <= 0): the stack has a fixed depth.
- The shortcut of NDEBUG builds that pushes after a reduce without the overflow test (lemon/lempar.c:586-598): a reduce that pops an entry has room for one, so it does the same as the modelled branch.
- Memory allocation failures, destructors, tracing and the text of messages.
- The linked lists, bit arrays and the arena of configurations in the generator: modelled as sequences, sets and maps, so that aliasing of list nodes is not captured.
- ParserObject.YyParser.Parse: requires that the call ends, which `NoDetours.SolidCallEnds` proves for grammars without conflicts and hidden empty rules, and `Termination.CallEnds` for unambiguous grammars whose nonterminals are productive; for other grammars it may not, as `HiddenLoop.GenerateEndless` shows, and `ParseWithin` takes a bound. Whether it can fail to end without conflicts and without default reductions is left open.
- TableBuilder.ResortStates: the order of states with equal counts is that of a stable sort, where the C library's sort may choose another; nothing proved depends on it.
- MergeSort.Merge: the lists are values; relinking of nodes is not captured. The generator's own lists are sorted by the specification, that is, are taken to have fewer than 2^30 elements.
- HashTables.Table.Insert: nodes are kept in a sequence and linked by number; the back links (`from`), which nothing reads, are not modelled. The mask `size - 1` is the remainder by a power of two.
- QuickSort.Quicksort: elements are moved as wholes, not byte by byte; the element size is not zero.
- Fnmatch.Fnmatch: no bracket expressions, FNM_PERIOD, FNM_CASEFOLD, FNM_EXTMATCH or multibyte characters.
- Random.RandomData.Seed: the error returns for null pointers and for an invalid type are not modelled.
- Memchr.Memchr: needs n bytes to be readable, and words of at least four bytes.
- Frexp.Frexp: exact reals; no rounding, denormals, infinities or NaN.
- The other overflow macros of `intprops.h`, and the remaining C library replacements: wrappers and one-line definitions.
