# Session assembly and judging, verified

A Dafny model of the logic that turns landed records of an agent's sessions into
an index, a conversation tree and a judged account of what it cost. Each module
follows one part of the repository, in its form: what the source does with
loops over memo maps, cursors, worklists and builders is done here by methods
over the same maps, cursors, worklists and builders, proved against
specifications that say what the part is for.

- **Call histories** (`Messages`, `OrderTest`, `HistoryCounts`, `BodyLists`, `Threads`, `HistoryWalk`, `HistoryCompare`):
  the message list of each model call is rebuilt from base-relative lists and provider
  threads by memoised walks that survive cycles. The walks are proved equal to the
  recursive meaning in any order of queries; a changed history is explained by multiset
  counts and a longest-common-subsequence test that is proved to be one.
- **Bounded JSON** (`JsonGrammar`, `JsonPoints`, `JsonLex`, `JsonAutomaton`, `JsonScanner`): a push-down automaton and
  a byte-reading scanner that accept exactly the texts of RFC 8259, sections 2 to 7, within stated limits.
  The grammar is concrete trees and the bytes that spell them, independent of the automaton; what a string
  says is its code points, however each is spelled.
- **The cost ledger and the close** (`Costs`, `Ledger`, `Starters`, `NameOrder`, `RollUp`, `SubtaskForest`, `RollUpWalk`, `LedgerTotals`,
  `SubtaskCalls`, `LedgerCompute`, `StableSort`, `Serving`, `Shares`, `CloseCost`, `WorkLabels`, `Scores`, `Spans`, `Pricing`):
  every call is counted under one owner, child streams roll up through a graph that may hold cycles, shared calls are
  split in whole tokens, and nothing is lost or counted twice.
- **Failure markers** (`FailureMarkers`): any number of reads and checks interleave step by step, every storage operation
  may fail and every process may stop between two steps.
- **The derived index** (`IndexData`, `IndexTables`, `IndexViews`, `IndexCodec`, `IndexFile`, `IndexIO`, `Recovery`):
  append-only tables, the cut at a watermark, the file format in both directions, and runs of crashes and recoveries.
- **Redaction** (`RedactViews`, `Redact`, `RedactText`): views of a text with levels of escapes decoded, each byte knowing where it came from.
- **Goals** (`Goals`, `GoalScan`): what an evaluator answers, part after part, whatever it answers.
- **Assembly** (`ProviderJoin`, `Streams`, `Calls`, `Tools`, `Spawns`, `Epochs`, `Talks`, `Containers`, `Placement`,
  `StepTree`, `Assembly`, `SessionTree`, `SessionSays`, `Segments`, `TalkTimes`,
  `Windows`, `Relations`): records become streams, epochs, talks, runs, calls and steps; the
  result is a rooted tree whose leaves are exactly those the records call for.

Tokens are `int`, money and scores are `real`. `dafny verify dfyconfig.toml` verifies the project.

One natural claim holds only under a condition, which the model states exactly.
With a window over part of the talks, the printed parts come to the selected talks' cost only when the main stream's loose
calls and the unattributed calls cost nothing (`CloseCost.WindowAddsUp`); `CloseCost.WindowMisses` computes a ledger for which they do not.

## Model

| member | source | states |
|---|---|---|
| OrderTest.LcsBounds | internal/assemble/history.go:715-719 | no order-preserving matching of two identity sequences has more pairs than the recursive length Lcs says |
| OrderTest.LcsReached | internal/assemble/history.go:715-719 | and one with exactly that many pairs exists, so Lcs is the longest |
| OrderTest.TakeRow | internal/assemble/history.go:737-746 | taking one entry's positions in falling order, each put by binary search, turns the least ends of common subsequences of one row into those of the next |
| OrderTest.Tails | internal/assemble/history.go:733-748 | the loop over both lists ends with as many tails as the longest common subsequence has entries, for lists of any identities |
| OrderTest.LongestDecides | internal/assemble/history.go:713-719 | that length reaches the number matched exactly when some order-preserving matching pairs that many messages |
| OrderTest.OrderChanged | internal/assemble/history.go:720-750 | the verdict: unavailable exactly for a repeated id or too many pairs, else changed exactly when no matching in order pairs all that matched |
| HistoryCounts.Walk | internal/assemble/history.go:682-695 | one side's walk over its tally counts the entries both sides hold and leaves, per id, the occurrences not shared |
| HistoryCounts.KeptAndChanged | internal/assemble/history.go:682-699 | kept is the size of the multiset intersection of the messages; kept and changed together, of their identities |
| HistoryCounts.Counts | internal/assemble/history.go:673-712 | the whole card: with dropped and added the four numbers account for every message of both lists, none is negative, and the order is reported as OrderTest decides |
| BodyLists.Table.MeasureOnce | internal/assemble/history.go:428-477 | a body has one measure, so a memoised one cannot depend on what was asked before |
| BodyLists.OwnLists.RefusedByBase | internal/assemble/history.go:452-478 | a base that is refused, at the depth bound or shorter than what is kept leaves no depth at which the list over it holds |
| BodyLists.OwnLists.OwnOne | internal/assemble/history.go:452-475 | one body's measure from its base's: the branches refuse exactly the lists with no recursive meaning within the bounds |
| BodyLists.OwnLists.OwnOf | internal/assemble/history.go:428-449 | the walk back to a measured or whole body and forward again takes the right measure of the body, keeps it, and changes none taken before |
| BodyLists.OwnLists.Own | internal/assemble/history.go:479-494 | a request's own list is given exactly when its recursive list holds within depth and size, and is then that list; else the reason |
| BodyLists.OwnLists.Fill | internal/assemble/history.go:499-513 | writing into the caller's slice from its end, base by base, leaves in it the first entries of the recursive list, as many as it has room for |
| Threads.Session.MeasureIsHistory | internal/assemble/history.go:323-372 | the measure computed down a thread exists exactly when the recursive history, of the call continued, its reply and the own list, does within both bounds, and gives its length and links |
| Threads.Session.LoopNeverEnds | internal/assemble/history.go:316-322 | calls that each go on to one of their set have no history of any depth |
| Threads.Session.RightDecides | internal/assemble/history.go:296-302 | whatever was asked before, a right measure decides whether there is a history, and its length and links |
| Threads.Session.ContinuesWhen | internal/assemble/history.go:323-372 | a request goes on from a call exactly when it says it continues, and the call of its stream it names has a request and an entry for a reply, all of one form |
| Threads.Session.BrokenBecause | internal/assemble/history.go:372-390 | and why a request that says it continues goes on from nothing: no such call of its form, a call without a reply, or a reply of another form |
| Threads.Session.ReplyReadable | internal/assemble/history.go:518-530 | a reply can be compared exactly when it is there as an entry, in the form of the later request |
| Threads.Session.SystemLoop | internal/assemble/history.go:595-642 | calls that each leave the system prompt to another of their set are never told one |
| Threads.Session.PromptSays | internal/assemble/history.go:595-642 | a request of its own says its prompt, one that continues without a system block has that of the call it goes on from, and no other call's is known |
| HistoryWalk.Historian.MeasureOne | internal/assemble/history.go:343-370 | one call's measure is right once that of the call it continues is |
| HistoryWalk.Historian.Length | internal/assemble/history.go:303-339 | the memoised walk back and forward gives the right measure and keeps every measure taken before, in any order of queries and over cyclic threads |
| HistoryWalk.Historian.CutLoop | internal/assemble/history.go:314-322 | a chain that comes back to itself leaves no call of it with a measure |
| HistoryWalk.Historian.List | internal/assemble/history.go:391-412 | the history is returned exactly when the measure exists, and is the recursive history at the measured links; the walk down ends by the links |
| HistoryWalk.Historian.SystemOf | internal/assemble/history.go:595-642 | a call's system prompt is the one said along its thread, whatever was asked before, and none over a thread with no start |
| HistoryCompare.ContinuesPredecessor | internal/assemble/history.go:257-264 | a request that continues its predecessor's reply has the predecessor's history as a prefix and that reply next, so the shortcut gives the verdict of the full test |
| HistoryCompare.PrefixTest | internal/assemble/history.go:644-654 | the loop decides whether one list is a prefix of the other |
| HistoryCompare.Find | internal/assemble/history.go:557-568 | the search for the reply: back with its digest, changed under its id, or not there, decided over the whole list |
| HistoryCompare.Full | internal/assemble/history.go:265-289 | the full comparison: kept exactly when the earlier history is a prefix, with the reply's fate searched where each case says |
| HistoryCompare.CompareMeasured | internal/assemble/history.go:255-290 | shortcut and full comparison agree: either way the verdict is the one on the two recursive histories |
| HistoryCompare.Compare | internal/assemble/history.go:216-290 | one call against the one before it, errors included: no predecessor, no history of either, or the verdict on both |
| HistoryCompare.Predecessors | internal/assemble/history.go:159-183 | each call is compared with an earlier call of its epoch that no record says is the framework's own, when only such calls stand between; and with none exactly when there is no such nearest call or it is of another epoch |
| HistoryCompare.ClassIs | internal/assemble/history.go:187-205 | a call is the framework's own exactly when a record says so, else a turn when a record or the form of its request says so |
| HistoryCompare.RefusalIs | internal/assemble/history.go:222-253 | a call that is not compared is given the first row of the table that applies, and there is none when none does |
| JsonLex.StringExact | internal/boundedjson/scanner.go:269-348 | a string is read, with its decoded characters, exactly where the grammar spells one of at most 65536 decoded bytes with no unpaired surrogate |
| JsonLex.NumberExact | internal/boundedjson/scanner.go:372-429 | a number is read exactly where section 6 of RFC 8259 spells one |
| JsonAutomaton.NextExact | internal/boundedjson/scanner.go:142-219 | in every state, the next token is taken exactly where what is left can be completed to a text, and completing is unchanged by taking it |
| JsonAutomaton.AcceptsExactly | internal/boundedjson/scanner.go:109-220 | reading tokens to the end succeeds on exactly the byte strings that are one text of sections 2 to 7 of RFC 8259 within 16 open containers, 4096 members, 65536 bytes and no duplicate names |
| JsonAutomaton.Uint64Exact | internal/boundedjson/scanner.go:66-73 | a number has an unsigned 64-bit value exactly when it is a whole number without sign and its decimal value is at most 2^64-1 |
| JsonPoints.EncodeReads | internal/boundedjson/scanner.go:333-345 | every code point but the surrogate halves is written as one well-formed UTF-8 character (section 3 of RFC 3629) whose bits read as it |
| JsonPoints.ReadEncodes | internal/boundedjson/scanner.go:333-345 | and every well-formed character is how the code point it reads as is written |
| JsonPoints.Utf8Injective | internal/boundedjson/scanner.go:333-345 | different code points are written as different bytes |
| JsonPoints.HexValueIs | internal/boundedjson/scanner.go:350-370 | four bytes are hexadecimal digits exactly when they spell a number, and then that number: its digits 0 to 9, and a to f in either case for ten to fifteen |
| JsonPoints.UnitSpells | internal/boundedjson/scanner.go:284-335 | every character of a string, raw, escaped, or one or two \u escapes, spells exactly one code point and decodes to its UTF-8 |
| JsonPoints.StringSays | internal/boundedjson/scanner.go:264-346 | so a string decodes to the UTF-8 of the code points it spells |
| JsonPoints.SameName | internal/boundedjson/scanner.go:200-210 | and two names are duplicates exactly when they spell the same code points, whatever escapes each uses |
| JsonPoints.PointSpelled | internal/boundedjson/scanner.go:284-335 | every code point can be spelled by one \u escape below U+10000 and by a surrogate pair above, which decode to it |
| JsonPoints.BytesAre | internal/boundedjson/scanner.go:142-262 | whitespace, digits, exponent marks, punctuation, brackets and literal names are the characters RFC 8259 names |
| JsonPoints.DecimalIs | internal/boundedjson/scanner.go:66-73 | a digit more makes ten of what stands before it, and itself |
| JsonAutomaton.NextHeight | internal/boundedjson/scanner.go:142-232 | the stack of open containers grows and shrinks by the token alone |
| JsonAutomaton.ReadOnHeight | internal/boundedjson/scanner.go:115-141 | reading a value to its end leaves as many containers open as before it |
| JsonScanner.Scanner.HexRune | internal/boundedjson/scanner.go:350-370 | four hexadecimal digits as their number, and a refusal exactly where fewer stand |
| JsonScanner.Scanner.ReadString | internal/boundedjson/scanner.go:269-348 | the byte loop reads the strings the grammar has, keeping the decoded bytes or dropping them, and stops right behind |
| JsonScanner.Scanner.ReadNumber | internal/boundedjson/scanner.go:372-429 | the digit loops read the numbers the grammar has, with exact overflow of 64 bits detected digit by digit |
| JsonScanner.Scanner.Next | internal/boundedjson/scanner.go:109-111 | one call does the automaton's step on the unread bytes; once ended or failed it says so for ever and moves no more |
| JsonScanner.Scanner.ReadAll | internal/boundedjson/scanner.go:142-219 | reading to the end of input accepts exactly the texts of the grammar within the limits |
| JsonScanner.Scanner.Skip | internal/boundedjson/scanner.go:115-140 | skipping a value ends at the same byte and in the same state as reading it token by token, and fails when that does |
| Costs.SumIgnoresOrder | internal/judge/ledger.go:412-440 | the calls of a scope cost the same in whatever order they are listed |
| Costs.SumUp | internal/judge/ledger.go:412-439 | the accumulating loop computes that sum, with unknown, unfinished, unpriced and time bounds counted |
| Costs.SumCounts | internal/judge/ledger.go:412-439 | every call is counted, and so are those whose usage, output or price is not known |
| Costs.SumAmounts | internal/judge/ledger.go:412-440 | each token type is added up on its own, and money exactly where some call was priced |
| Costs.TokensAddUp | pkg/sessionjudge/sessionjudge.go:1487-1489 | the tokens of a sum are its calls' input, output, cache-read and cache-write tokens together |
| Costs.SumTimes | internal/judge/ledger.go:412-440 | a cost runs from the earliest to the latest time of its calls, times that say nothing left out |
| Ledger.Walker.AddCall | internal/judge/ledger.go:292-300 | a call is appended once and listed under the owner it was met under |
| Ledger.Walker.ReadDocument | internal/judge/ledger.go:221-258 | the walk lists every call of every tree under the talk or the loose owner of its tree, the owners once each in order, and gives every node and call its place and the call around it |
| Ledger.Walker.Meet | internal/judge/ledger.go:222-231 | coming to a node gives it the next place of its owner, names the call it lies inside of, and counts it when it is a call |
| Ledger.PlaceOfVisit | internal/judge/ledger.go:221-236 | where no two nodes share an id, a node's place is how many nodes of its owner were read before it, and the call it was asked by is the nearest one around it |
| Ledger.PlaceInTree | internal/judge/ledger.go:221-236 | within one tree that count is where the node comes in it, each node before what is inside it |
| Ledger.OwnersPartition | internal/judge/ledger.go:216-258 | different owners that own every call hold every call exactly once |
| Ledger.OwnersAddUp | internal/judge/ledger.go:264-272 | and their costs add up to the conversation's |
| Ledger.DocumentAddsUp | internal/judge/ledger.go:216-272 | for every document, the owners found by the walk hold each call once and cost what the conversation costs |
| Starters.FindStarters | internal/judge/ledger.go:481-502 | per stream exactly the owners whose steps start it are found, each with its earliest such step |
| Starters.OneChain | internal/judge/ledger.go:503-515 | the chain of sole starters from a stream leads to one main talk, in one number of steps |
| RollUp.FindChildren | internal/judge/ledger.go:503-518 | an owner's children are exactly the streams it alone starts, each with its earliest starting step, in rising order of name |
| RollUp.ChildrenDetermined | internal/judge/ledger.go:503-518 | so the list of an owner's children is one list, whatever order starters were met in |
| NameOrder.OneOrder | internal/judge/ledger.go:516-518 | lists in rising order of name that hold the same elements are the same list |
| NameOrder.PrecedesIs | internal/judge/ledger.go:516-518 | one name is before another exactly when, after what they share, it ends or its next character is the lower |
| RollUp.WorkIsDone | internal/judge/ledger.go:552-580 | when the worklist of a main talk is read to its end, every stream whose chain leads there was claimed by it |
| RollUpWalk.Roller.PlaceChild | internal/judge/ledger.go:557-565 | a child claimed becomes a sub-task with the parent, main talk and depth its chain gives |
| RollUpWalk.Roller.ReadChildren | internal/judge/ledger.go:553-580 | reading one owner claims its children that are not claimed yet and appends their owners, each at the place of the step that started the branch |
| RollUpWalk.Roller.RollTalk | internal/judge/ledger.go:547-581 | one main talk's worklist ends, over any relations graph, and reaches exactly the owners whose chain leads to it |
| RollUpWalk.Roller.RollTalks | internal/judge/ledger.go:547-598 | after all main talks the streams claimed are exactly those whose chain leads to some main talk |
| RollUpWalk.Roller.KeepAllUnplaced | internal/judge/ledger.go:615-640 | every other stream but main becomes one unplaced sub-task with its reason |
| RollUpWalk.Roller.AdoptUnplaced | internal/judge/ledger.go:641-652 | an unplaced sub-task with one starter is listed by its parent; the lists of children then hold each child once |
| LedgerTotals.RollUpAll | internal/judge/ledger.go:465-653 | for any relations, cyclic or ambiguous, the roll-up ends with every stream but main as exactly one sub-task, and every main talk's reach as its chain says |
| LedgerTotals.PlacedIff | internal/judge/ledger.go:557-580 | a sub-task is placed under a main talk at a depth exactly when its chain of sole starters leads there in that many steps |
| LedgerTotals.CyclesUnplaced | internal/judge/ledger.go:508-515 | a stream that is below itself is placed under no main talk |
| LedgerTotals.ReachDistinct | internal/judge/ledger.go:547-581 | no owner is in two main talks' reach |
| LedgerTotals.PartsAreOwners | internal/judge/ledger.go:599-614 | every owner is in one main talk's reach, or the main stream's loose owner, or left over, and never two of these |
| LedgerTotals.RollUpConserves | internal/judge/ledger.go:581-614 | main talks with what they reach, the main stream's loose calls and the unattributed calls hold each call once and cost what the conversation costs |
| SubtaskCalls.WalkOne | internal/judge/ledger.go:670-680 | the depth-first walk over children that may form cycles ends, and enters each sub-task once |
| SubtaskCalls.CallsUnder | internal/judge/ledger.go:666-685 | a sub-task's calls, with or without what is under it, are exactly the calls of the streams at or under it, each once |
| LedgerCompute.Compute | internal/judge/ledger.go:210-274 | the whole ledger of a document: calls owned once, nodes and calls at their places in the trees, roll-up sound, and all parts together the conversation's total |
| Serving.CollectClaims | internal/judge/close.go:68-73 | per talk, the targets that claim it |
| Serving.FindDirected | internal/judge/close.go:238-248 | the targets of a talk that an input directs work to, each once |
| Serving.SortedRules | internal/judge/close.go:253-261 | sorting the cuts by place, stably, and taking the last begun chooses the cut that rules there |
| Serving.ServedBy | internal/judge/close.go:254-262 | the loop over sorted cuts gives the ruling cut's targets, or all that claim the talk before the first |
| Serving.ServedAreClaims | internal/judge/close.go:226-265 | what a call served is some of the targets that claim its talk, each once, and none only when none claims it |
| Serving.OneTalkEach | internal/judge/ledger.go:721-727 | no call is in two main talks' calls |
| Serving.PlaceIs | internal/judge/close.go:225-265 | a call falls in a talk at its own place there, or, for a child's call, at the step its stream's chain of sole starters leaves the talk at |
| Shares.PartsAreWhole | internal/judge/close.go:514-524 | the whole-token parts of a count, with its remainder spread over the first of them, add up to the count |
| Shares.SharesAreWhole | internal/judge/close.go:496-540 | the shares of a call over the targets it served are the call, in every token type and in money |
| Shares.AmountFor | internal/judge/close.go:501-540 | the loop adds up a target's share of each call |
| Shares.CallIsShared | internal/judge/close.go:496-540 | over all targets, the shares of a call come to the call when it served any and to nothing otherwise |
| Shares.TargetsAddUp | internal/judge/close.go:496-540 | all the targets' amounts come to the calls that served any target |
| CloseCost.FindWho | internal/judge/close.go:226-265 | each call of each claimed talk is given exactly the targets it served |
| CloseCost.WhoIs | internal/judge/close.go:226-265 | a call's targets are those of the one talk that includes it |
| CloseCost.MineIsServed | internal/judge/close.go:87-105 | gathered talk by talk, a target's calls are each call it served, once |
| CloseCost.Close | internal/judge/close.go:68-203 | per target the amount of its calls, and the cost of what no target claims |
| CloseCost.JudgedAddUp | internal/judge/close.go:84-203 | over any judged talks that hold all claims, the targets and the unassigned calls cost what those talks cost |
| CloseCost.RunAddsUp | internal/judge/close.go:46-203 | with no window, targets, unassigned and unattributed together are the conversation's total, in every token type and in money |
| CloseCost.WindowAddsUp | internal/judge/close.go:152-170 | with a window the same three come to the selected talks exactly when the main stream's loose calls and the unattributed ones cost nothing: both stay counted whatever was selected |
| CloseCost.WindowMisses | internal/judge/close.go:152-170 | a document and a selection, with the ledger computed from them, for which they do not: one selected talk and one loose call of the main stream with tokens |
| WorkLabels.TalkParts | internal/judge/close.go:291-313 | the parts a talk's labels name, ordered by place, with each that would begin no later than the one before begun at its step |
| WorkLabels.PartsAreRuns | internal/judge/close.go:305-327 | wherever the call that asked for a step falls: every part up to the one that labels a call has begun there, so the part never goes back as calls go on |
| WorkLabels.FindPart | internal/judge/close.go:318-327 | the loop finds the last part begun at the call, or the whole talk's |
| WorkLabels.AvoidableHasCause | internal/judge/close.go:363-494 | an avoidable label always says whose doing it was or that it is not known, and no other label says |
| WorkLabels.SubtaskCharged | internal/judge/close.go:410-429 | a sub-task's own work is labeled as was decided: given the wrong task or work already done it charges whoever gave the task, other avoidable work the sub-task, and no other work anyone |
| WorkLabels.GiverIs | internal/judge/close.go:379-389 | who gave a task is the agent above where the sub-task is nested, and the main agent else |
| WorkLabels.TalkCharged | internal/judge/close.go:390-441 | other work is labeled by its part of the talk: avoidable work is the main agent's doing, and work on an untrue report the sub-task's, its giver's or of unknown cause as its dispatch says |
| WorkLabels.PartsAre | internal/judge/close.go:291-313 | the parts are exactly those of the labels whose step has a place, each at its step and at the call that asked for it |
| WorkLabels.WholeIs | internal/judge/close.go:291-313 | a whole talk's label is the last that names no step |
| WorkLabels.LabelCalls | internal/judge/close.go:370-494 | one pass groups a target's calls by label, talk, split and cause, and lists the avoidable, unreviewed, sub-tasks' and causeless ones |
| WorkLabels.GroupsPartition | internal/judge/close.go:370-494 | whatever the labels, the groups hold each of the target's calls exactly once |
| Scores.ListsWithin | internal/judge/close.go:549-592 | what was avoidable and what was not reviewed come to no more than the target's whole exact cost |
| Scores.ScoreSum.AddTarget | internal/judge/close.go:568-592 | adding a target keeps the sums within each other, adds its amounts, and counts its record score when it stands |
| Scores.ScoreSum.Scored | internal/judge/close.go:594-615 | the scores are the stated quotients of the sums, in money or in tokens, each given exactly when its denominator is not nothing, and every one is in [0, 1] |
| Scores.TargetWork | internal/judge/close.go:370-494 | a target's own groups and lists fit its calls and its cost, as the scores need |
| Scores.ScoreRun | internal/judge/close.go:74-182 | over all targets in one run: each one's groups hold each of its calls once, and the scores are those of the sums of all targets' exact amounts |
| Scores.ScoresMeasureServed | internal/judge/close.go:549-592 | the cost the scores are shares of is the whole cost of the calls that served any target, each once, in money and in tokens: exact shares lose nothing |
| Scores.VerdictCounts | internal/judge/report.go:279-299 | what was achieved scores one, what was not nothing, a part something, and what cannot be said is not judged |
| Scores.PartlyCounts | internal/judge/report.go:279-299 | a target partly met scores its criteria met over all of them and the claims contradicted, and half without criteria |
| Scores.WorseIsLess | internal/judge/report.go:279-299 | one more contradiction, or one criterion less met, never scores more |
| Scores.AchievementIs | internal/judge/close.go:568-605 | a run whose judged targets were all achieved scores one, and one whose were all not achieved nothing |
| Scores.AchievementBetween | internal/judge/close.go:568-605 | and any run between the least and the greatest of its judged targets |
| Scores.UnpricedWhen | internal/judge/close.go:568-582 | the scores are in tokens exactly when some call a target pays for has no usage or no price |
| StableSort.Sorted | internal/judge/close.go:253 | a sort by place: in order, and the same elements |
| StableSort.KeepsOrder | internal/judge/close.go:253 | that is stable: the elements of one place come in the order they were listed in |
| Spans.Union | internal/judge/close.go:630-653 | the total is the number of instants at least one kept range covers, for ranges in any order |
| Spans.CoveredIs | internal/judge/close.go:630-653 | an instant is covered when a range with a start takes it in, from its start and before its end |
| FailureMarkers.StepKeepsGates | internal/judge/failure.go:185-193 | in every step of any process, a gate has one holder, who alone lets it go |
| FailureMarkers.GateShared | internal/storage/navfailure.go:47-55 | markers share a gate exactly when they are of one chunk and name, whatever the attempts |
| FailureMarkers.StepKeepsMarkers | internal/judge/failure.go:156-184 | a marker is made only where none stands and removed only by the read that made it, once that ended well |
| FailureMarkers.StepKeepsChecks | internal/judge/failure.go:198-221 | while a check holds the gate no marker is made under it |
| FailureMarkers.NilMeansQuiet | internal/judge/failure.go:198-221 | in every interleaving, with any operation failing and any process stopping: a check that returned nil held the gate at a moment when no read under its markers was unfinished and none had ended fatally |
| FailureMarkers.FatalStays | internal/judge/failure.go:156-182 | a read that ended fatally stays so, whatever happens after |
| FailureMarkers.NoReadAfterFatal | internal/judge/failure.go:156-221 | after a fatal read its marker stands for ever, no other read is under way under it, and no check passes it |
| FailureMarkers.UndisturbedRead | internal/judge/failure.go:156-182 | a read nothing disturbs is made and leaves neither marker nor gate |
| FailureMarkers.UndisturbedCheck | internal/judge/failure.go:198-221 | where no marker stands, a check nothing disturbs returns nil, so the protocol does not refuse everything |
| FailureMarkers.Strict.Read | internal/judge/failure.go:117-143 | one read without a marker: what it answers, and that the first fatal error is kept and never replaced |
| IndexTables.Index.Append | internal/index/lookup.go:101-111 | one entry and its blocks are appended, the entry naming where its blocks begin and how many there are |
| IndexTables.Index.AppendRecord | internal/index/lookup.go:57-71 | a record's body is placed at the position its entry takes |
| IndexTables.Index.AppendStaged | internal/index/lookup.go:94-98 | staged rows are appended as if each had been appended on its own |
| IndexTables.RowsTile | internal/index/lookup.go:57-115 | however rows are appended, the entries' block ranges tile the block table, and the bodies' message ranges the message table |
| IndexTables.PrefixOf | internal/index/lookup.go:57-119 | the tables of a prefix of the rows are prefixes of the tables |
| IndexTables.Search | internal/index/lookup.go:128-134 | the halving search finds the least position past the watermark |
| IndexTables.CutIs | internal/index/lookup.go:128-144 | where the tables of a prefix end is said by its last entry and its last body |
| IndexTables.Through | internal/index/lookup.go:123-145 | for rows in order of sequence, the cut index is the index built from the rows at or below the watermark |
| IndexViews.FindFirsts | internal/index/lookup.go:157-180 | the first entry of each record id is found, and exactly the later ones are marked copies |
| IndexViews.GroupBy | internal/index/lookup.go:181-226 | every lookup lists, per key, exactly the positions with that key, rising |
| IndexViews.Lookups.Build | internal/index/lookup.go:148-227 | all the lookups at once |
| IndexViews.LookupsSay | internal/index/lookup.go:148-227 | under each id the lookups by call, batch, stream, run, tool, child and tool block hold exactly the entries that carry it, are no provider body and have no earlier record of their id, in landed order; by record id the first of them |
| IndexViews.ListCanonical | internal/index/lookup.go:325-334 | the loop lists the canonical entries |
| IndexViews.KeepsFirst | internal/index/lookup.go:157-180 | of the entries with one id exactly one, the first, is no copy |
| IndexViews.CanonicalKeeps | internal/index/lookup.go:157-180 | canonical keeps an entry exactly when it has no id of its own or is the first with it; bodies are always kept |
| IndexViews.ViewsCut | internal/index/lookup.go:116-227 | under a watermark the lookups by call, batch, stream, run, tool and child and the canonical view are the full ones without what came after |
| IndexViews.ToolsCut | internal/index/lookup.go:116-227 | and so is the lookup of a tool's blocks |
| IndexViews.RecordsCut | internal/index/lookup.go:116-180 | and the lookup by record id finds the same entry where it came before the watermark, and none else |
| IndexViews.Ancestor | internal/index/lookup.go:383-421 | the nearest ancestor with a run within the hop bound is found and none is passed over, though parents may form cycles |
| IndexFile.WidthsAre | internal/index/codec.go:33-40 | the record widths and offsets the field lists give are the format's constants |
| IndexFile.FieldAt | internal/index/codec.go:262-397 | each field of a packed record lies at its offset in its width |
| IndexFile.EntryStored | internal/index/codec.go:262-283 | the bytes of an entry: each field little endian at the offset the format gives it, a negative time as its two's complement |
| IndexFile.BodyStored | internal/index/codec.go:285-307 | the bytes of a body, field by field at the format's offsets |
| IndexFile.BlockStored | internal/index/codec.go:333-385 | the bytes of a block and of a list entry, field by field at the format's offsets |
| IndexFile.FileBack | internal/index/codec.go:147-258 | loading what was written gives back every table and string, whatever follows in the file |
| IndexFile.CutIsRefused | internal/index/codec.go:147-258 | every proper prefix of a written file is refused, never read as a shorter index |
| IndexIO.WriteFile | internal/index/codec.go:50-142 | the writing loops produce the file the format says |
| IndexIO.LoadFile | internal/index/codec.go:147-258 | the cursor loops read a file as the format says, errors included |
| IndexIO.Interner.Id | internal/index/intern.go:42-61 | a text gets its number, new texts the next one, and no earlier number changes meaning |
| IndexIO.Interner.Load | internal/index/intern.go:104-110 | an interner restored from its texts numbers them as before |
| IndexIO.Interner.Bijection | internal/index/intern.go:64-94 | looking a text up gives a number exactly when that number's text is it |
| IndexIO.DistinctTexts | internal/index/intern.go:64-94 | different numbers have different texts |
| Recovery.Rebuild | internal/index/rebuild.go:43-60 | indexing every landed file above a sequence completes the index of the files up to it |
| Recovery.TakenIsPrefix | internal/index/codec.go:414-426 | an index taken with its state is the index of exactly the files its state says, and nothing above |
| Recovery.Recovers | internal/parse/parse.go:492-516 | in every run of landing, extending, writing and saving, stopped anywhere and with the index or its state lost at any time, a pass that caught up holds each landed record once |
| Recovery.UnguardedDoubles | internal/index/codec.go:399-412 | an index extended from a state it is ahead of has the records in between twice, exactly when there are any: what the entry count guards |
| RedactViews.Unescape | internal/judge/redact.go:207-257 | one more level of JSON escapes is decoded, and reported exactly when something changed |
| RedactViews.EscapeSays | internal/judge/redact.go:208-290 | an escape decodes to the UTF-8 of the code point it spells and takes all its own bytes |
| RedactViews.LoneHalf | internal/judge/redact.go:262-283 | a surrogate half without its other half decodes to U+FFFD |
| RedactViews.NoEscape | internal/judge/redact.go:208-250 | and nothing else is decoded |
| RedactViews.ViewsTile | internal/judge/redact.go:194-261 | at every level the stretches behind the view's bytes are in order and tile the original |
| RedactViews.NothingLost | internal/judge/redact.go:194-261 | every position of the original is behind some byte of the view |
| Redact.Find | internal/judge/redact.go:151-179 | the recursion over views and literals finds exactly the stretches the depth allows |
| Redact.FoundIffHolds | internal/judge/redact.go:151-193 | a stretch is found exactly when a secret is there, in some view or literal within the depth |
| Redact.OccurrencesFound | internal/judge/redact.go:151-181 | every occurrence of a secret, in every view to the last level, shares a byte with a stretch found |
| Redact.LiteralsFound | internal/judge/redact.go:165-178 | a string literal that hides a secret within the levels left is found whole |
| Redact.LiteralsAre | internal/judge/redact.go:326-352 | the literals of a text are exactly those from a quote that is not escaped to the next one, where all of it decodes |
| RedactText.MergedIs | internal/judge/redact.go:113-121 | merged stretches lie apart and cover exactly what the found ones cover, each of them whole |
| RedactText.Merge | internal/judge/redact.go:113-121 | the loop over sorted stretches merges them so |
| RedactText.PutBack | internal/judge/redact.go:122-131 | with the stretches put back the text is the original: all other bytes are kept, in order |
| RedactText.Rebuild | internal/judge/redact.go:122-142 | the output is the text with each merged stretch replaced, and nothing else |
| RedactText.ReplacementIs | internal/judge/redact.go:136-142 | a stretch that is a whole literal, the same escaped quote at both ends, is put as those two quotes with the mark between; any other as the mark alone |
| RedactText.SecretGone | internal/judge/redact.go:105-142 | a secret that shares no byte with quotes, backslashes and the mark occurs nowhere in the text that comes out |
| RedactText.OccurrencesTaken | internal/judge/redact.go:105-134 | no occurrence of a secret, in the text or any view of it to the depth bound, is outside what was replaced |
| RedactText.LiteralsTaken | internal/judge/redact.go:105-134 | a literal that hides a secret is replaced whole |
| RedactText.CleanStays | internal/judge/redact.go:105-134 | something is taken out exactly where a secret is held within the depth, and a text that holds none is left as it is |
| RedactText.ChangedIffHeld | internal/judge/redact.go:105-142 | a text that has the mark "[redacted]" nowhere in it is changed exactly when it holds a secret |
| RedactText.MarkStays | internal/judge/redact.go:105-142 | the mark itself, where it is a secret, is held and comes out as it went in: why the text without it is asked for |
| RedactText.Redactor.Text | internal/judge/redact.go:105-132 | one text redacted, no such secret left in it, and the count raised by the stretches replaced |
| Pricing.Check | internal/judge/pricing.go:83-128 | a price file is accepted exactly when it is dated, no entry is there twice and no name is of two models |
| Pricing.LatestApplies | internal/judge/pricing.go:134-144 | a price is found exactly when one applies, and none that applies outranks it |
| Pricing.PaysLatest | internal/judge/pricing.go:134-144 | under a checked file a call pays the latest price of its name in force: without a date, or dated at or before the call's milliseconds; and none when there is none or the call has no name |
| Pricing.PriceCalls | internal/judge/ledger.go:363-381 | each call pays what the lookup says, and each price paid is noted once |
| Pricing.PricingOf | internal/judge/pricing.go:151-166 | the list of noted prices is made a price file and checked as one |
| Pricing.RebuildingWorks | internal/judge/pricing.go:151-166 | rebuilding from what a ledger noted never fails |
| Pricing.SameRates | internal/judge/pricing.go:134-166 | and gives every call of that ledger the rates the original file gave, or none where it gave none |
| ProviderJoin.HasGap | internal/assemble/provider.go:276-293 | over all entries, a gap is reported exactly when a transcript line of the stream landed before one that comes ahead of it |
| ProviderJoin.RequestsInjective | internal/assemble/provider.go:75-161 | no request is joined to two calls and no call gets two |
| ProviderJoin.ResponsesInjective | internal/assemble/provider.go:75-104 | the same for responses, and no body is both |
| ProviderJoin.KeyJoinExact | internal/assemble/provider.go:106-161 | a call no request names gets one only by a key that one request and one call carry; none in a stream with a gap or after a call with no known response |
| ProviderJoin.Join | internal/assemble/provider.go:55-179 | the passes over bodies and calls join exactly those |
| ProviderJoin.JoinSession | internal/assemble/provider.go:55-179 | with gaps found from the entries: exactly those joins, no request joined to two calls, and in a stream that skips a line only requests that name their call |
| Goals.SettleInput | internal/judge/goals.go:136-193 | the relations kept for one input are exactly what each given one is kept as, the count says how many were weakened, and so a goal starts once, and continue, adjust and return follow an earlier input that acted on the goal |
| Goals.ValidIsKept | internal/judge/goals.go:148-187 | a given relation that starts a goal of a key not started, or follows an input that acted on its goal, is kept as it is |
| Goals.KeptIsValid | internal/judge/goals.go:148-187 | and one kept of its kind was such a relation |
| Goals.WeakenedTo | internal/judge/goals.go:148-187 | a return to a goal the input just before acts on becomes a continue of it; any other relation that is not valid claims nothing but its request |
| Goals.KeptAs | internal/judge/goals.go:148-187 | a valid relation keeps its statement only where it sets or adjusts a goal, and follows nothing where it starts one |
| Goals.SettledMore | internal/judge/goals.go:118-193 | settling later inputs keeps all relations consistent: one start per goal, at its earliest input |
| Goals.IdsDiffer | internal/judge/goals.go:211 | goals of different numbers have different ids |
| GoalScan.Scan.SettleAll | internal/judge/goals.go:134-193 | all answered inputs settled in order, those of earlier parts untouched |
| GoalScan.AnsweredIs | internal/judge/goals.go:134-193 | what is settled for each answered input: that no person wrote it, that it is unclear when nothing was given, or what is kept of each relation given, in order |
| GoalScan.KeysAre | internal/judge/goals.go:98-112 | a name is a key exactly when a relation given for an input of the part gives it and no goal found so far has it for its id |
| GoalScan.Scan.AllotIds | internal/judge/goals.go:200-217 | each key acted on gets the next free id, once, in the order the inputs' relations first carry it |
| GoalScan.NamesAllotted | internal/judge/goals.go:200-217 | the keys given ids are exactly those started, and no two goals then share an id |
| GoalScan.RenamedOk | internal/judge/goals.go:204-217 | putting ids for keys keeps the relations consistent |
| GoalScan.Scan.NameGoals | internal/judge/goals.go:200-217 | new goals are added with those dense ids, old ones never renumbered, and the relations say ids where they said keys |
| GoalScan.GoalOf | internal/judge/goals.go:79-101 | which goal an entry names, and the keys given by then |
| GoalScan.EntryNames | internal/judge/goals.go:79-101 | an entry with a found id names that goal, one with a started key no entry gave yet the goal its key started, and one with both or neither none |
| GoalScan.Scan.PlaceMembers | internal/judge/goals.go:276-292 | a target joins one goal at most, once, only one its first input relates to, and does when the entry lists it and it has no goal yet |
| GoalScan.Scan.SettleMain | internal/judge/goals.go:298-328 | a goal's main is empty or one of its members, and is the one the entry says where it may be |
| GoalScan.Scan.PlaceEntry | internal/judge/goals.go:246-328 | one entry changes its own goal alone: members and main as it says where they may be |
| GoalScan.Scan.CheckPart | internal/judge/goals.go:64-353 | one part of a scan after the others: relations settled and renamed as stated, goals added for the keys that started, every listed target homed, and every property of goals, homes, mains and relations kept |
| Streams.PartitionStreams | internal/assemble/streams.go:142-173 | every record that names a stream is in that stream's list and no other, in landed order, and there is one list per stream named |
| Streams.OneLane | internal/assemble/streams.go:142-173 | a record is in one list exactly when it names a stream |
| Calls.GroupCalls | internal/assemble/calls.go:73-121 | a call's fragments are exactly the streamed agent records that name it, whatever streams they landed in, each once, in landed order |
| Tools.JoinTools | internal/assemble/tools.go:69-99 | per tool id: the first request, the first result, and ambiguous exactly when several results carry the id |
| Tools.ExactIsUnique | internal/assemble/tools.go:109-120 | a result counts as joined for certain exactly when it is the one block that answers the id |
| Spawns.KeepEdges | internal/assemble/spawn.go:81-94 | every usable edge is kept once |
| Spawns.ResolveEdges | internal/assemble/spawn.go:145-195 | edges resolved are exactly those of landed streams with a known call or, naming none, a landed parent; who a sidecar names is kept either way |
| Spawns.ReturnedTo | internal/assemble/spawn.go:402-439 | a way back is given exactly when all claims name one call, in no batch, whose one own result came, unreported and undisputed |
| Spawns.OneWayBack | internal/assemble/spawn.go:402-439 | a stream has one way back at most |
| Spawns.EvidenceNeverTurns | internal/assemble/spawn.go:389-401 | more edges, whatever sidecars, notifications and tool records then say, can take a way back away but not turn it to another call |
| Epochs.FirstBoundary | internal/assemble/epoch.go:141-148 | the reset that opens an epoch, if one does |
| Epochs.CutEpochs | internal/assemble/epoch.go:52-137 | a stream's epochs each hold entries, follow each other and tile it |
| Epochs.BeginsExactly | internal/assemble/epoch.go:116-136 | an epoch begins at an entry exactly when it is the first or a reset, and every entry is in one |
| Epochs.EpochOf | internal/assemble/epoch.go:58-80 | an entry is in one epoch only |
| Epochs.EpochIdsDiffer | internal/assemble/epoch.go:60-76 | epochs of a stream have ids of their own |
| Epochs.EpochIdIs | internal/assemble/epoch.go:60-76 | an epoch's id: the stream's first exactly when it begins at no reset, else the reset's record, or where it stands when it has none |
| Talks.StartsTalk | internal/assemble/talk.go:177-193 | a run opens an interaction exactly on the main stream, when a record of it says an outside trigger or none says any |
| Talks.TalkBuilder.MeetRun | internal/assemble/talk.go:119-129 | a run met first begins a talk when none is going on or it opens one, and else joins the one going on |
| Talks.TalkBuilder.PlaceStream | internal/assemble/talk.go:86-149 | one pass over a stream leaves the talks, runs and containers its entries say |
| Talks.EveryEntryPlaced | internal/assemble/talk.go:239-256 | every entry gets a container, the innermost node that holds it, and no other record's is touched |
| Talks.RunsAreTogether | internal/assemble/talk.go:239-256 | records of one run have one container |
| Talks.ChildIsOneTalk | internal/assemble/talk.go:95-104 | a child stream is exactly one talk, which holds all its entries |
| Talks.MainTalks | internal/assemble/talk.go:117-130 | the main stream's talks are one per run that begins one, in order of their first records |
| Talks.LaneTalks | internal/assemble/talk.go:83-134 | the talks a stream adds are a child's only one, or one for each run of the main stream that begins one, and no others |
| Talks.BeforeAnyTalk | internal/assemble/talk.go:230-256 | an entry is in its epoch alone exactly when it names no run and came before every run of the main stream |
| Containers.AfterHoused | internal/assemble/talk.go:195-237 | every talk is in an epoch, every run in the talk that lists it, and every container is one of the three |
| Containers.EmitTalks | internal/assemble/talk.go:269-297 | the loops write each talk and the runs it lists |
| Containers.TalkNodes | internal/assemble/talk.go:269-297 | what is written is each talk in its epoch and each run in its talk, and nothing else |
| Placement.CutAll | internal/assemble/epoch.go:49-137 | over all streams, every record of a stream is said to be in the epoch it is in, and every epoch was written under its stream |
| Placement.PlaceAll | internal/assemble/talk.go:83-152 | over all streams, every record is in the node its place in its stream says |
| Placement.SessionTalks | internal/assemble/talk.go:83-134 | the talks of a session are exactly those of its streams |
| Placement.EpochNodes | internal/assemble/epoch.go:52-137 | the epochs written are exactly those cut, each in its stream |
| Placement.UnderSession | internal/assemble/assemble.go:231-244 | containment is a tree: from every node but a reset or summary without a stream the parents lead to the session, in no more steps than its level |
| StepTree.Writer.WriteCall | internal/assemble/calls.go:139-208 | a call, its history card and what its fragments say are written, the call where its first fragment is |
| StepTree.Writer.WriteSilent | internal/assemble/emit.go:67-95 | what agent records that name no call say is written where they are |
| StepTree.Writer.WriteTools | internal/assemble/emit.go:37-49 | tool uses are written in their call where that was written, else where their record is |
| StepTree.Writer.WritePass | internal/assemble/emit.go:105-166 | each pass writes the one step its cases give a record |
| StepTree.Writer.WriteOutputs | internal/assemble/spawn.go:256-317 | each child stream has one output, at its last own response or at what it returned |
| Assembly.CallsAre | internal/assemble/calls.go:139-208 | the nodes written for calls are exactly the calls, their cards and what their fragments say, each where it belongs |
| Assembly.SilentIs | internal/assemble/emit.go:67-96 | and those for records without a call exactly what they say |
| Assembly.ToolsAre | internal/assemble/emit.go:37-49 | and those for tools exactly the uses whose request landed |
| Assembly.PassIs | internal/assemble/emit.go:105-166 | and those of a pass exactly the steps its cases give |
| Assembly.OutputsAre | internal/assemble/spawn.go:256-317 | and those for outputs exactly the child streams with a record to show |
| SessionTree.TalksAttach | internal/assemble/talk.go:269-297 | talks and runs attach to epochs that were written, so every container was written |
| SessionTree.WriteUpper | internal/assemble/assemble.go:231-241 | the nodes above the leaves are exactly the session, the streams, the epochs cut, the talks and runs begun and the windows, each in the node it belongs to, and they hold every container |
| SessionTree.UpperStays | internal/assemble/assemble.go:231-246 | writing the leaves leaves all of that as it was |
| SessionTree.LayersApart | internal/assemble/emit.go:32-52 | no node is written by two of the passes |
| SessionTree.LeavesAre | internal/assemble/emit.go:32-52 | the leaves over the upper levels are exactly those there should be, each under the node its record or its join says |
| SessionSays.WordsKept | internal/assemble/emit.go:54-96 | for every block of every record: a text or a thought is kept exactly when the record is an agent's and names no call or is in a stream; it is then in the call, which is there, or where its record is |
| SessionSays.TreeSays | internal/assemble/emit.go:32-166 | in terms of the records alone: which texts, thoughts, boundaries, summaries, launches, notices, inputs, injections, errors, turns, commands, calls, cards, tools and outputs are there, each exactly when its record says so, where each is, and that nothing else is |
| SessionSays.Assemble | internal/assemble/assemble.go:231-246 | for any records: streams, calls and tool joins are those of the records; the upper nodes are exactly the epochs, talks, runs and windows they give, the epochs tiling each stream; every node's parent was written and lies less deep; and the leaves are what TreeSays says |
| Segments.CutWindows | internal/assemble/segment.go:53-88 | windows are the talks in order of their start, cut exactly where the quiet between neighbours exceeds the gap, with their time ranges |
| TalkTimes.TimeTalks | internal/assemble/talk.go:130-147 | each talk of the main stream, in the order they began, with the place it began at and the earliest and latest time of the records in its runs |
| TalkTimes.MetWhereBegun | internal/assemble/talk.go:117-130 | the talk of a record's run is met for the first time exactly where it begins |
| Windows.FindWindows | internal/assemble/segment.go:43-86 | a session's windows are cut from the main stream's talks at the times of their records |
| Relations.Relater.Relate | internal/assemble/assemble.go:304-337 | the relations say what all sightings so far support, with all landed evidence kept, and a sighting changes its own edge only |
| Relations.OrderFree | internal/assemble/assemble.go:313-357 | in whatever order an edge is sighted, the same sightings leave it with the same quality |
| Relations.StrongestStands | internal/assemble/assemble.go:337-357 | a conflict stands over all; else the strongest seen: certain, ambiguous, strongly and weakly inferred, and unresolved only where nothing else was seen |
| Relations.ConflictStays | internal/assemble/assemble.go:318-327 | a conflict, once seen, stays |

## Left out

- Call histories: the reason given for a call that leads into a thread cycle depends on which call was asked first, as internal/assemble/history.go:317-321 says; whether there is a history, its length and its links do not, and only these are claimed. Attribute texts and references of the card are not modelled.
- Messages: that a message without an id has digest 0 for it is taken from internal/index/fromrecord.go:173-187.
- Scanner: the input is a byte sequence; errors of the underlying reader and buffer capacities are not modelled. Signed values (`Int64`) are left out beside unsigned ones.
- JsonScanner.Scanner.Skip: that failing leaves the scanner at the same byte as reading does is not stated, only that it fails when reading does.
- Ledger: reading usage from records and normalising it by dialect (internal/judge/ledger.go:304-361, 392-410) happen before; calls come with their usage and price. Widening a cost by a talk's own start and end, and `Select`, are left out.
- Sub-tasks are known by their stream's name, which names a stream of the document; the order of unplaced ones is not stated.
- Close: outcome counts, avoidable time spans, statements and the rounding of scores to four places (`round4`) are left out; scores are exact reals.
- Shares.AmountFor: money is split as exact reals, not floating point.
- Pricing: dates are compared through an abstract clock whose readings of equal texts are equal; reading and parsing the file is left out.
- FailureMarkers: creating, removing and listing marker files and taking a gate are atomic actions that may fail; the file system below them is not part of this model.
- Index: conversion of records to rows, string contents beyond equality and bytes, and the writer's temporary file are left out; putting a written index in place is one atomic step of `Recovery`.
- Recovery: landing, extending, writing and saving are the steps; several sessions and locks are left out.
- Redact: the decoding of a JSON literal is an abstract decoder; `value`, `credentials` and `proxySecrets` only feed or walk the text redactor.
- ProviderJoin: `bodiesInWindow`, which drops bodies landed twice, and `promptOf` give the bodies and calls it starts from.
- GoalScan.Scan.CheckPart: statements, evolution and citations of goals are not kept; inputs are numbers in recorded order, and the target's creating input and status are given.
- Node ids are a datatype, so ids are equal only when their parts are; `pkg/sessionflow` is not part of this model.
- Records are known by their place in the canonical view, which is landed order; a record's run is given, as `index.Index.RunOf` finds it (`IndexViews.Ancestor`).
- Talks: a run's first position is left out. The times of talks are gathered in a pass of their own (`TalkTimes.TimeTalks`), for the main stream, whose talks alone cut windows.
- Streams: the order of streams by name, their labels and the title are left out; every result holds for any order of streams. Roles of streams appear where outputs are written.
- SessionSays.Assemble: which calls have a history card, which stream is the main one and the idle gap are parameters; node kinds, attributes and references are not modelled, nor are unresolved entries.
- Spawns: finding edges in records (internal/assemble/spawn.go:96-135) and the notifications' relations are left out; edges are given.
- Segments.CutWindows: times are never negative; which delegated talks fall in a window is left out.
- Relations: `via` texts are left out.
- Commands, configuration, adapters, processes, provider calls, reports and navigation over an evaluator's answer are not part of this model; they would add local keep-or-drop rules.
