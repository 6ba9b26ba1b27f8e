# Mailflow: a verified model of its rule processor

Mailflow watches a mailbox and applies rules to the mail it finds: it matches each message against an ordered
list of rules and carries out the actions of the first rule that matches. This project models the four parts
of it whose correctness is not visible from one function at a time, and proves what they promise.

**The poller** (`Imap`, `PollerSpec`, `PollerObjects`, and the proof modules `SessionProofs`, `AddressingProofs`,
`ConservationProofs`, `AccountingProofs`, `TerminationProofs`, `WrapProofs`, `OnceProofs`, `TakenProofs`,
`AgainProofs`, `FailureProofs`, `DeletedProofs`, `StatsProofs`, `ThrottleProofs`, `EffectProofs`, `ActionProofs`,
`HandlingProofs`). The IMAP server is a state machine: messages by folder and UID, the next UID of each folder, the
selected mailbox, and a trace of the commands it was sent. An *oracle* gives every interaction its fate:
whether it succeeds, fails, or is carried out with its reply lost, whether a move reports the new UID, what other
clients did in between, what the matcher answers, what time it is. A statement about all oracles is a statement about
all runs. Ticks, applies and action lists are functions over that state, and the classes of `PollerObjects` update
their fields in place, with loops, and are proved equal to those functions. An apply need not end, so a run takes any
number of its turns: what is proved of runs holds at every moment of them, on every server.

**The rule evaluator** (`Engine`, `EngineProofs`, `ConditionProofs`, `ReportProofs`, `EngineObjects`, `Schedule`). The short-circuit
evaluator, the evaluator that reports every condition, the fetch memo shared by all rules, first-match selection,
and the weekly schedule window. Regular expressions, case folding, MIME decoding and date syntax are parameters.

**Three encodings of a condition tree.** Database rows (`RuleStore`, `RuleStoreProofs`, `RuleRoundTrip`, `GroupTree`,
`RuleObjects`), the HTML form with path ids (`FormCodec`, `FormProofs`, `FormArrays`, `FormObjects`), and the portable
export with its validator (`RuleExport`, `Validate`, `ValidateProofs`, `ProblemProofs`).

**The rule table and the poller's health.** Order and the catch-all (`RuleOrder`, `CatchAllProofs`), import and the
names it shares with the migration (`Importing`, `ImportProofs`, `ImportContents`, `ImportObjects`, `FreeNames`,
`UniqueNames`), alerts and backoff (`Health`).

`Wrappers`, `Text`, `Seqs`, `Ordering` and `RuleTypes` are shared vocabulary. `dafny verify dfyconfig.toml` checks
everything.

## What came out differently from what one would expect

- RFC 3501 lets a server answer `UID SEARCH UID n:*` with the last message even when its UID is below n (section
  6.4.8). The program relies on answers at or above n. On such a server an apply to a folder with mail never ends while
  matching fails (`WrappedApplyNeverEnds`), and when a rule matches and moves nothing, the last message gets its actions,
  forwards and webhooks included, again on every turn that is left (`WrappedApplyActsAgain`, `WrappedTickRepeats`). An
  apply is sure to end and to handle each UID once exactly when the server does not wrap or the folder is empty
  (`ApplyOnceIff`); a tick is sure to handle each once exactly when the server does not wrap, or the folder is empty, or
  holds at least batchSize messages (`TickOnceIff`).
- A UID handled once is not a message taken once. A rule that moves a message into the folder it is in gives it a new
  UID above the floor, and it is taken again; a delete in the trash folder does the same. The built-in catch-all does so
  in INBOX: a message alone there is taken `limit` times in one apply (`CatchAllTakesAgain`). With no other client at
  work, a tick is sure to take no message twice exactly when the folder is empty, or holds at least batchSize messages,
  or the server does not wrap and no rule moves mail of that folder into that folder (`TickTakesOnceIff`); an apply
  exactly when the folder is empty, or the server does not wrap and either no rule does that or the limit is one
  (`ApplyTakesOnceIff`).
- The guard that keeps set_flag from storing \Deleted compares one spelling, while a server reads flag names without
  case (section 9 of RFC 3501): "\deleted" gets through (`LowerCaseIsFlagged`). In every run a server is asked for that
  flag exactly when the log has a set_flag row whose value is \deleted in any other case (`DeletedIsAskedForIff`), and a
  tick is sure never to ask exactly when no rule has such an action or there is nothing to handle (`TickNeverAsksIff`).
- The validator accepts times without their leading zero, because Go's layout 15:04 does not insist on two digits for
  the hour, and the evaluator compares strings. "9:00" counts as a moment behind every time of day: as a start it never
  comes, as an end it never passes, and "9:00" to "17:00" becomes midnight to five in the afternoon (`NineToFive`).
  `ScheduleReads` says which window any accepted bounds are read as, and `ScheduleMeaningIff` exactly when that is what
  they mean: when no day is scheduled, or no bound lacks its zero, or both do and the window is all the time.
- The report of the test page has one entry for each root group. Behind the first root that fails they are never
  filled in and show FAIL, whatever the group is (`UnreachedShownAsFailed`): an entry is right exactly when no root
  before it fails or its own group does not hold (`EntryRightIff`), and all are exactly when no root behind one that
  fails holds (`AllEntriesRightIff`).
- A group operator other than AND and OR is "never" for the matcher and "or" for the test page
  (`OtherOperatorsAgreeIff`). The form parser passes any submitted operator through.
- The validator bounds a day count by what Atoi returns on overflow, which is positive; the evaluator then refuses
  the same text (`AcceptedErrsIff`). Below that, 106752 days overflows the nanoseconds and "older than" holds
  for a message from now (`WrappedDays`, `DaysExactIff`).
- Opening a rule without conditions in the form and saving it turns "every message" into "no message": the empty
  list comes back as one empty OR group (`FormGivesNearest`). Exporting one empty OR group and importing it does the
  reverse (`EmptyRootVerdict`).
- An export that has both conditions and groups is validated on its groups and imported from its conditions
  (`BothLetAnythingThrough`, `UncheckedConditionsIff`). The "error" policy of an import reports a rejection and imports
  the other rules nevertheless (`ErrorPolicyNotAtomic`): the rules are left alone exactly when the preview flags the
  whole file (`ErrorPolicySparesIff`).

## Model

| member | source | states |
|---|---|---|
| Imap.Hit | internal/imap/client.go:146-164 | a search limited to one UID answers with the least present UID at or above the floor; if there is none, not at all, or, when the server wraps and the folder has mail, with the last UID |
| Imap.Least | internal/imap/client.go:146-164 | the least UID of a non-empty set |
| SessionProofs.SelectSound | internal/imap/client.go:142-144 | a SELECT, granted or refused, leaves all mail that no other client expunges where it is, and the message being worked on the same |
| SessionProofs.SearchSound | internal/imap/client.go:146-164 | a search names no message, and keeps every command so far about its message |
| SessionProofs.FetchFocus | internal/imap/client.go:166-202 | a fetch that succeeds fixes the message that the session's UID then stands for |
| SessionProofs.StoreFocus | internal/imap/client.go:245-277 | a flag store under the current UID reaches that message or none, whatever other clients did |
| SessionProofs.MoveFocus | internal/imap/client.go:211-223 | a move reaches the fetched message or none; with a reported UID the message is at the destination under it, without one its place is unknown |
| SessionProofs.SelectFocus | internal/imap/client.go:225-228 | selecting the destination pairs the new UID with the new mailbox; a refused SELECT leaves nothing selected |
| SessionProofs.MoveQuiet | internal/imap/client.go:211-223 | alone with the mailbox, a move keeps every message exactly once and changes no other UID |
| SessionProofs.StoreQuiet | internal/imap/client.go:245-277 | alone with the mailbox, a flag store loses and moves nothing |
| PollerObjects.ImapClient.SelectMailbox | internal/imap/client.go:225-228 | the session object selects, in place, as the server model says |
| PollerObjects.ImapClient.SearchMessages | internal/imap/client.go:146-164 | SELECT, then SEARCH, in place |
| PollerObjects.ImapClient.FetchMessage | internal/imap/client.go:166-175 | fetch of the envelope in the selected mailbox |
| PollerObjects.ImapClient.FetchRawMessage | internal/imap/client.go:395-412 | the fetch that is not a peek, and so sets \Seen, even when its reply is lost |
| PollerObjects.ImapClient.StoreFlag | internal/imap/client.go:245-277 | adds or removes one flag, in whatever case it is named, of one message in place; an error may hide that it did |
| PollerObjects.ImapClient.MoveMessage | internal/imap/client.go:204-223 | moves to a fresh UID in place; reports it, or that it is unknown; an error may hide that it moved |
| PollerObjects.LogRepo.Insert | internal/db/log.go:28-36 | appends one row |
| PollerObjects.StatsRepo.IncrementStat | internal/db/stats.go:43-47 | adds one to a counter, creating it at one |
| PollerObjects.AutoReplyRepo.HasReplied | internal/db/autoreply.go:29-40 | an error exactly when the read fails; otherwise yes exactly when some row is for this address and day |
| PollerObjects.AutoReplyRepo.RecordReply | internal/db/autoreply.go:42-48 | inserts the row once |
| PollerObjects.AutoReplyRepo.Prune | internal/db/autoreply.go:51-54 | keeps exactly the rows of the cutoff day and later |
| PollerObjects.Poller.LogAction | internal/poller/poller.go:374-413 | one log row; per message once the message counters, and for every row the action counters |
| PollerObjects.Poller.MoveAndFollow | internal/poller/poller.go:425-441 | move, log, follow to the destination; stop when the new UID is unknown |
| PollerObjects.Poller.ForwardAndLog | internal/poller/poller.go:472-487 | fetch, send, log |
| PollerObjects.Poller.GetTrashFolder | internal/poller/poller.go:763-798 | the cached trash folder, or the one the listing names: the first flagged \Trash, else the first called Deleted Messages; then cached |
| PollerObjects.Poller.DeleteAndLog | internal/poller/poller.go:488-506 | a delete is a move to the trash, followed like any move |
| PollerObjects.Poller.TryReply | internal/poller/poller.go:523-561 | never to the own address; check, send, record, in that order; whom it answers is `TryReplyAnswers` |
| PollerObjects.Poller.Act | internal/poller/poller.go:422-592 | one action, with the skipped empty values and unknown kinds |
| PollerObjects.Poller.ExecuteActions | internal/poller/poller.go:358-595 | the loop over the actions of a rule, and whether the message moved away |
| PollerObjects.Poller.HandleUid | internal/poller/poller.go:248-281 | fetch, match, act, and \Seen when nothing moved the message |
| PollerObjects.Poller.RunTick | internal/poller/poller.go:192-288 | the loop of a tick with its floor and its skip set |
| PollerObjects.Poller.ApplyToFolder | internal/poller/poller.go:305-356 | the loop of an apply with its result counters, after any number of turns on any server |
| ActionProofs.ActTells | internal/poller/poller.go:422-592 | an action that has something to do sends its command, sends one forward, webhook or due answer, and logs one row, about this message, rule and action, that says "success" exactly when a move or flag command was carried out and answered or something was sent |
| ActionProofs.SkippedIsNothing | internal/poller/poller.go:422-592 | an action without a value where one is needed, a word that is no flag, nobody to answer or an unknown kind does nothing at all |
| ActionProofs.ActFollows | internal/poller/poller.go:425-441 | later rows are filed under the folder of the last move that succeeded; a message has moved exactly when a move or delete succeeded |
| ActionProofs.NamedFlagMeaning | internal/poller/poller.go:505-515 | remove_flag takes a flag written out, or one of four words in any case, and nothing else |
| ActionProofs.TrashMeaning | internal/poller/poller.go:777-795 | a listing names as trash the first folder flagged \Trash, if it has a name, else the first called Deleted Messages in any case; none exactly when there is no such folder |
| ActionProofs.TrashFound | internal/poller/poller.go:763-798 | the trash folder once found is kept and not asked for again; before, it is found exactly when the listing succeeds and has one |
| ActionProofs.TryReplyAnswers | internal/poller/poller.go:523-561 | exactly one answer is attempted when one is due, none otherwise; one that was sent takes the slot of the day on which it is recorded |
| HandlingProofs.DueIsSent | internal/poller/poller.go:523-561 | an auto_reply with a value attempts one answer, to the sender, exactly when that is not the account and no row that can be read is for the sender and the day |
| HandlingProofs.SenderIsAnswered | internal/poller/poller.go:523-561 | over any run from an empty table, a sender all of whose successful answers were recorded on other days is answered |
| HandlingProofs.HandlingIsAboutTheMessage | internal/poller/poller.go:248-281 | every log row and every message sent while a UID is handled carries the sender and subject of the message fetched, the rule that matched, and one of its actions; without a match nothing is logged, counted or sent |
| HandlingProofs.LogIsTheRule | internal/poller/poller.go:418-595 | the rows of a matched message are the actions of its rule in order, without those that have nothing to do, cut short only behind a move that did not tell where the message is |
| HandlingProofs.TurnReports | internal/poller/poller.go:319-353 | what one turn of an apply adds to its report, by what the search, the fetch and the matcher answer |
| HandlingProofs.MatchedMeansActed | internal/poller/poller.go:305-356 | over any number of turns, Matched counts the messages whose actions ran |
| HandlingProofs.MessageCounters | internal/poller/poller.go:374-413 | the first row of a message, and no later one, counts it under its rule, its sender, its day and its week |
| HandlingProofs.PruneMeaning | internal/db/autoreply.go:51-54 | a prune takes the slots of more than so many days ago, and no other |
| AddressingProofs.ActOnJob | internal/poller/poller.go:422-592 | every action keeps UID and selected mailbox paired on the fetched message, or nothing is selected, or the list stops |
| AddressingProofs.ActKeepsUid | internal/poller/poller.go:425-441 | the effective UID changes only together with the moved flag |
| AddressingProofs.TickSound | internal/poller/poller.go:192-288 | a tick keeps every command about the message fetched last, wrap or not |
| AddressingProofs.ApplyStepSound | internal/poller/poller.go:319-353 | so does every turn of an apply |
| AddressingProofs.EveryCommandIsAboutTheFetchedMessage | internal/poller/poller.go:192-356 | at every moment of every run, on every server, every body, header, raw, move and flag command that reaches a mailbox names a UID that belongs to the message fetched last; none stores the flag \Deleted in this spelling |
| DeletedProofs.DeletedIsAskedForIff | internal/poller/poller.go:455-471 | in every run a STORE of \Deleted in any case is sent exactly when a set_flag is executed whose value is \deleted in any case but that one, as often as the log has such rows |
| DeletedProofs.NeverWithoutASlip | internal/poller/poller.go:455-471 | rules without such an action never send it |
| DeletedProofs.TickNeverAsksIff | internal/poller/poller.go:455-471 | a tick alone with the mailbox never sends it exactly when no rule has such an action, or the folder or the batch is empty |
| DeletedProofs.LowerCaseIsFlagged | internal/poller/poller.go:460-463 | set_flag \deleted passes the guard, is stored, and the message has the flag |
| FailureProofs.FailingActAll | internal/poller/poller.go:418-593 | while every command fails, an action list runs to its end and leaves the message and the selection where they were |
| ConservationProofs.NothingIsLost | internal/poller/poller.go:240-595 | alone with the mailbox, no run loses or doubles a message, and every command finds its message, but for the final \Seen after a move without a UID |
| AccountingProofs.EveryMessageIsAccountedFor | internal/poller/poller.go:240-595 | with any other clients and lost replies, a message that is there was there before or was delivered meanwhile, and one that is missing was expunged meanwhile by another client from where it was |
| ConservationProofs.TickHandlesTheSmallest | internal/poller/poller.go:217-284 | with no rule moving mail back into the folder, a tick handles exactly the batchSize smallest UIDs, or a prefix when a search fails |
| ConservationProofs.ApplyHandlesTheSmallest | internal/poller/poller.go:305-356 | so does an apply to any folder, until it has processed as many messages as its limit allows (50 unless it is from 1 to 200) or has handled all there were, or a search fails |
| ConservationProofs.SmallestMeaning | internal/poller/poller.go:217-284 | what the n smallest UIDs of a folder are: ascending, members, and below all others |
| TerminationProofs.TickAscends | internal/poller/poller.go:217-247 | a tick handles UIDs in strictly ascending order, at most batchSize |
| TerminationProofs.TickErrors | internal/poller/poller.go:217-230 | a tick ends with an error only when its last command was a SELECT or SEARCH that failed; finding nothing more is no error |
| TerminationProofs.ApplyReportAddsUp | internal/poller/poller.go:305-356 | Matched ≤ Processed ≤ limit, Processed + Errors counts the UIDs handled, at every moment; none twice unless the server wraps |
| TerminationProofs.ApplyEnds | internal/poller/poller.go:318-353 | an apply ends on every server that does not wrap |
| TerminationProofs.SearchGoesBackIff | internal/imap/client.go:150-153 | a search goes below its floor exactly when the server wraps and nothing is left above |
| WrapProofs.WrappedApplyNeverEnds | internal/poller/poller.go:319-353 | with the wrap, an apply to any non-empty folder goes on for any number of turns while matching fails: once through the folder, then the last message for ever |
| WrapProofs.WrappedApplyActsAgain | internal/poller/poller.go:319-353 | with the wrap and a rule that matches and moves nothing, an apply sends the rule's forwards and webhooks limit times, however few messages there are |
| WrapProofs.WrappedTickRepeats | internal/poller/poller.go:219-282 | with the wrap, a tick goes once through the folder and spends the rest of its batch on the last message, failing or matched, with all its actions |
| OnceProofs.TickOnceIff | internal/poller/poller.go:192-288 | every tick alone with the mailbox handles each UID at most once exactly when the server does not wrap, or the folder is empty or holds at least batchSize messages |
| OnceProofs.ApplyOnceIff | internal/poller/poller.go:305-356 | every apply alone with the mailbox ends and handles each UID at most once exactly when the server does not wrap or the folder is empty |
| TakenProofs.HandleTakes | internal/poller/poller.go:248-281 | handling a UID takes the one message its fetch gives, and no other |
| AgainProofs.TickTakesOnceIff | internal/poller/poller.go:192-288 | every tick alone with the mailbox takes no message twice exactly when the folder is empty, or holds at least batchSize messages, or the server does not wrap and no rule moves mail of the folder into it |
| AgainProofs.ApplyTakesOnceIff | internal/poller/poller.go:305-356 | every apply alone with the mailbox ends and takes no message twice exactly when the folder is empty, or the server does not wrap and no rule moves mail of the folder into it or the limit is one |
| AgainProofs.CatchAllTakesAgain | internal/poller/poller.go:318-353 | with one message in INBOX and the catch-all of internal/db/rules.go:426, an apply to INBOX takes it limit times |
| AgainProofs.UnmatchedHandledOnce | internal/poller/poller.go:217-247 | when nothing fails and no rule matches, a tick handles each of the batchSize smallest UIDs once, even on a server that wraps |
| AgainProofs.UnmatchedMailStands | internal/poller/poller.go:248-270 | a message that no rule matches, or whose fetch or match fails, is left as it is, flags and all |
| StatsProofs.IncrementMeaning | internal/db/stats.go:43-47 | one counter grows by one, all others stand |
| StatsProofs.CountersAgreeWithTheLog | internal/poller/poller.go:374-413 | over any run, rule, day and week counters each sum to the messages with a logged action; action and status counters to the log rows; folder counters to the moves |
| ThrottleProofs.OneReplyADay | internal/poller/poller.go:523-561 | over any run, no address gets two successful replies checked on one UTC day, and the own address none |
| ThrottleProofs.FailedSendKeepsTheSlot | internal/poller/poller.go:553-560 | a failed send consumes no slot |
| EffectProofs.ActLands | internal/poller/poller.go:422-592 | what one action does to a message: its place and its flags, whose names have no case |
| EffectProofs.MatchedMessageLands | internal/poller/poller.go:358-595 | without failures, a message ends where the last move of its rule puts it, with the flags the whole list leaves |
| EngineObjects.MsgExtras.EnsureBody | internal/rules/engine.go:31-50 | fetches the body once, in place |
| EngineObjects.MsgExtras.EnsureHeader | internal/rules/engine.go:52-72 | fetches each header name once, in place |
| EngineObjects.BindCaptures | internal/rules/engine.go:255-261 | binds capture:0 and the named groups in a loop |
| EngineObjects.EvalCondition | internal/rules/engine.go:180-266 | the condition evaluator with its memo and captures |
| EngineObjects.EvalGroup | internal/rules/engine.go:149-178 | the loops of the short-circuit group evaluator |
| EngineObjects.EvaluateRule | internal/rules/engine.go:132-147 | the loop over root groups |
| EngineObjects.MatchRules | internal/rules/engine.go:74-92 | the loop over rules with one shared memo |
| EngineObjects.ReportGroup | internal/rules/engine.go:353-387 | the loops of the reporting evaluator, and all/any of the parts |
| EngineObjects.EvaluateWithResults | internal/rules/engine.go:333-351 | the reporting evaluator of a rule, with its slice of one entry for each root |
| EngineProofs.FieldValueIsFresh | internal/rules/engine.go:277-296 | a memoised field equals a fresh fetch |
| EngineProofs.EvaluateRuleIsFresh | internal/rules/engine.go:132-147 | a rule evaluated over any memo gives what it gives without one |
| EngineProofs.MemoIsInvisible | internal/rules/engine.go:14-92 | matching with the shared memo returns the same rule, captures and error as fetching afresh each time, and sends no request twice |
| EngineProofs.MatchMeaning | internal/rules/engine.go:74-92 | the answer is about the first rule that does not let the message pass, and there is none exactly when all do |
| ConditionProofs.EvaluateAsks | internal/rules/engine.go:180-275 | a rule of one condition holds exactly when the condition asks for what the message has, told per operator on the strings themselves, and errs exactly when it names no number of days or no date |
| ConditionProofs.EvaluateMeaning | internal/rules/engine.go:126-178 | without such errors a rule holds exactly when all its roots do: AND groups all of their members, OR groups some |
| ConditionProofs.HoldsAsks | internal/rules/engine.go:180-266 | where that meaning, at its leaves, is what each condition asks |
| ConditionProofs.PartIsFresh | internal/rules/engine.go:277-307 | which part of the message a field names |
| ConditionProofs.DaysParsed | internal/rules/engine.go:268-275 | a text names a number of days exactly when it is blanks, a plus sign or none, and digits, whatever follows, from 1 to 2^63−1 |
| ConditionProofs.CapturesMeaning | internal/rules/engine.go:245-262 | when an AND rule holds, its captures are what its expressions found, condition by condition, the last group of a name winning; a rule that does not hold has none |
| ConditionProofs.GroupStopsAtFirst | internal/rules/engine.go:149-178 | a group answers with its first member that is in error or decides it, conditions before subgroups |
| ReportProofs.ReportConditionIsOutcome | internal/rules/engine.go:389-450 | the two condition evaluators agree on result, error and captures |
| ReportProofs.EvaluatorsAgree | internal/rules/engine.go:132-178 | whenever the reporting evaluator gives no error, the short-circuit one gives none and the same verdict, and its captures are covered |
| ReportProofs.ReportMeaning | internal/rules/engine.go:333-387 | the report holds when all roots do, and has an entry for each: all/any meanings throughout for a root that is reached, zero for the others |
| ReportProofs.EntryRightIff | internal/rules/engine.go:339-347 | an entry's flag is its group's meaning exactly when no earlier root fails or the group does not hold |
| ReportProofs.AllEntriesRightIff | internal/rules/engine.go:339-347 | all flags are exactly when no root behind one that fails holds |
| ReportProofs.UnreachedShownAsFailed | internal/web/templates/rules_test_result.html:5-13 | behind an empty OR group, an empty AND group, which holds, is shown as failed |
| ReportProofs.ReportErrsIff | internal/rules/engine.go:333-387 | the report errs exactly when a condition, at any depth, of a root that is reached is in error |
| ReportProofs.OtherOperatorsAgreeIff | internal/rules/engine.go:149-178 | for a group with another operator, over any subgroups without errors, the two agree exactly when no member holds |
| Schedule.DayTestIsMembership | internal/rules/engine.go:101-112 | the substring test on the day list is membership in it |
| Schedule.ScheduleReads | internal/rules/engine.go:101-124 | for all bounds the validator accepts, in schedule exactly when the window the strings are read as holds the moment on some scheduled day |
| Schedule.ScheduleMeaning | internal/rules/engine.go:101-124 | for zero-padded bounds that window is the one they mean, windows over midnight included |
| Schedule.ScheduleMeaningIff | internal/db/validate.go:172-179 | for all bounds the validator accepts, the schedule means what it says at every moment exactly when no day is scheduled, no bound is unpadded, or both are and the window is all the time |
| Schedule.NoScheduleMeaning | internal/rules/engine.go:94-99 | without a schedule, always |
| Schedule.UnpaddedStartOpensLate | internal/rules/engine.go:117-119 | without days and end, an unpadded start opens at (h+1)·10 o'clock, or never |
| Schedule.NineToFive | internal/rules/engine.go:107-116 | from "9:00" to "17:00" is from midnight to 17:00 |
| GroupTree.EachRootedRowOnce | internal/db/rules.go:310-319 | the tree is built over any parent links, and shows a row once if its parents lead to a root and not at all otherwise |
| RuleObjects.BuildTree | internal/db/rules.go:310-319 | the recursive loop over the rows |
| RuleObjects.RulesRepo.SaveGroup | internal/db/rules.go:339-362 | writes a group, its conditions and its subgroups in preorder, in place |
| RuleObjects.RulesRepo.SaveActions | internal/db/rules.go:370-378 | appends the actions |
| RuleObjects.RulesRepo.Create | internal/db/rules.go:178-202 | a fresh rule id with its groups and actions |
| RuleObjects.RulesRepo.Update | internal/db/rules.go:204-231 | replaces a rule's row, groups and actions |
| RuleObjects.RulesRepo.Reorder | internal/db/rules.go:238-258 | numbers the listed rules in a loop, then puts the catch-all behind |
| RuleObjects.RulesRepo.EnsureCatchAll | internal/db/rules.go:380-430 | both branches: repair an existing catch-all (`KeptCatchAll`), or create one (`NewCatchAll`) |
| RuleObjects.RulesRepo.AllConditionGroups | internal/db/rules.go:104-123 | a map from rule id to that rule's groups in id order |
| RuleObjects.RulesRepo.ConditionsByGroup | internal/db/rules.go:125-143 | a map from group id to its conditions in id order |
| RuleObjects.RulesRepo.AllActions | internal/db/rules.go:145-160 | a map from rule id to its actions in id order |
| RuleObjects.RulesRepo.LoadAll | internal/db/rules.go:77-102 | batch hydration gives every rule its own groups and actions |
| RuleObjects.RulesRepo.List | internal/db/rules.go:52-75 | all rules in (priority, id) order, hydrated |
| RuleObjects.RulesRepo.Get | internal/db/rules.go:162-176 | one rule, equal to what List shows under that id; none exactly when no row has it |
| RuleStoreProofs.SaveGroupsAppends | internal/db/rules.go:337-368 | a save appends one preorder block of groups and touches nothing else |
| RuleStoreProofs.BuildBlock | internal/db/rules.go:310-319 | a block inside any table is read as the forest it was written from |
| RuleRoundTrip.SavedForestReadBack | internal/db/rules.go:260-368 | any forest written is read back the same, whatever other rows there are |
| RuleRoundTrip.CreateRoundTrip | internal/db/rules.go:178-202 | a created rule is read back as given, and no other rule changes |
| RuleRoundTrip.UpdateRoundTrip | internal/db/rules.go:204-231 | an updated rule is read back as given, and no other rule changes, with or without foreign keys enforced |
| RuleOrder.ListedMeaning | internal/db/rules.go:52-53 | List is the table in (priority, id) order, nothing added or left out |
| RuleOrder.CatchAllListedLast | internal/db/rules.go:52-53 | with its priority above the others', the catch-all is the last of the list and the only one |
| RuleOrder.ReorderMeaning | internal/db/rules.go:238-258 | a reorder naming every user rule once makes List follow it, with the catch-all last, and changes only priorities |
| RuleOrder.ReorderSets | internal/db/rules.go:238-258 | for any ids, with repetitions and ids of no rule: a user rule gets the number of positive ids before its last place, one not named keeps its priority, and the catch-all goes above them |
| RuleOrder.EnsureCatchAllMeaning | internal/db/rules.go:380-430 | afterwards one catch-all, without conditions, with a move, last in the list |
| CatchAllProofs.NewCatchAll | internal/db/rules.go:408-429 | with no catch-all before, the new rule is read back enabled, without schedule and groups, with exactly the move to INBOX, above all priorities; the other rows stand |
| CatchAllProofs.KeptCatchAll | internal/db/rules.go:380-407 | with one before, its enabled flag, schedule and actions stand, plus the move to INBOX exactly when it had no move; its groups go |
| CatchAllProofs.EnsureSparesUsers | internal/db/rules.go:380-430 | EnsureCatchAll leaves every user rule as it was |
| CatchAllProofs.ReorderOrders | internal/db/rules.go:238-258 | any reorder leaves the catch-all behind all user rules |
| CatchAllProofs.CatchAllTakesTheRest | internal/rules/engine.go:74-92 | Match takes the catch-all only when every user rule lets the message pass |
| CatchAllProofs.EveryMessageIsAnswered | internal/rules/engine.go:74-92 | after EnsureCatchAll, enabled and unscheduled, every message gets a rule unless a rule fails |
| CatchAllProofs.EveryMessageIsAnsweredAtFirst | internal/db/rules.go:380-430 | with no catch-all before, every message gets a rule afterwards unless a rule fails, whatever the other rules are |
| FormProofs.PathsDistinct | internal/web/rules.go:242-269 | path ids are pairwise different at every depth |
| FormProofs.PageStands | internal/web/templates/rules_form.html:288-311 | the page in document order stands for the preorder rows of the forest |
| FormProofs.RenamedTree | internal/web/rules.go:350-370 | a tree built under other ids is the same forest |
| FormProofs.ConditionsCollected | internal/web/rules.go:329-349 | each group collects the conditions that name it, in order, or the first bad pattern is reported |
| FormProofs.FormGivesNearest | internal/web/rules.go:242-375 | for every forest, the form gives back the nearest forest it can show, or the first pattern that does not compile |
| FormProofs.FormRoundTrip | internal/web/rules.go:242-375 | the forest comes back unchanged exactly when it is not empty, is AND/OR, each condition can be shown, and patterns compile |
| FormProofs.NormalIff | internal/web/rules.go:250-269 | the nearest forest is the forest itself exactly when the form can show all of it |
| FormProofs.ShownMeaning | internal/web/rules.go:261-292 | the form shows a condition exactly when its field is one of eight or a header with a name, and its operator one of thirteen |
| FormArrays.RefusedIff | internal/web/rules.go:294-405 | any submitted arrays are refused exactly for the first pattern that does not compile, even if its condition names no group |
| FormArrays.GroupsFormat | internal/web/rules.go:304-378 | any other arrays with group ids give the tree of the last group under each id, with every condition that names it in order; one empty OR group when no group is without a parent |
| FormArrays.OlderFormat | internal/web/rules.go:380-405 | without group ids the conditions make one group, in order, under the operator named or OR; no conditions make none |
| FormObjects.ReadNodes | internal/web/rules.go:312-349 | the loops that fill the map of nodes, for any arrays |
| FormObjects.Wire | internal/web/rules.go:350-356 | the loop that lists children under their parents |
| FormObjects.Build | internal/web/rules.go:357-365 | the closure build ends on any parent links, and gives the group of the row |
| FormObjects.BuildRoots | internal/web/rules.go:366-370 | the loop over the roots |
| FormObjects.Parse | internal/web/rules.go:294-405 | the parser for both formats, for any submitted arrays, loops in parent links included |
| RuleExport.ExportRoundTrip | internal/db/ruleexport.go:86-136 | reading an export gives every field back, other operators as OR, and a single empty root group gone |
| RuleExport.ForestSurvivesIff | internal/db/ruleexport.go:287-318 | the forest survives exactly when it is AND/OR and not a single empty root group |
| RuleExport.EmptyRootVerdict | internal/db/ruleexport.go:96-105 | in that case AND keeps its verdict on every message and OR goes from never to always |
| RuleExport.ImportedOperators | internal/db/ruleexport.go:123-136 | an imported rule has only AND and OR, whatever the file says |
| RuleExport.NeverBoth | internal/db/ruleexport.go:86-110 | an exported rule has conditions or groups, not both, and an operator only with conditions |
| Validate.Tally.ValidateGroup | internal/db/validate.go:78-93 | the recursive validator adds a group's conditions and problems to the shared total and list |
| Validate.Check | internal/db/validate.go:41-76 | the whole validator with its loops, which `ReportedIff` describes |
| ValidateProofs.ConditionIff | internal/db/validate.go:95-129 | a condition has no problem exactly when it is good |
| ValidateProofs.ActionIff | internal/db/validate.go:131-156 | an action has no problem exactly when it is good: one of nine kinds, with a value, an address or a web address where its kind needs one |
| ValidateProofs.AcceptedIff | internal/db/validate.go:41-156 | what acceptance means: name, operators, good conditions, at most 50 of them and five levels, good schedule, good actions, each told without the lists of problems |
| ProblemProofs.ReportedIff | internal/db/validate.go:41-182 | a problem is reported exactly when the rule has it |
| ProblemProofs.ConditionProblemIff | internal/db/validate.go:95-129 | which problems a condition has |
| ProblemProofs.ActionProblemIff | internal/db/validate.go:131-156 | which problem an action has |
| ProblemProofs.ScheduleProblemIff | internal/db/validate.go:162-182 | the one problem of a schedule: its first unknown day, else its start, else its end |
| ValidateProofs.AcceptedNeverErrs | internal/rules/engine.go:180-275 | an accepted rule has AND/OR only and evaluates without error on every message while day counts fit in 64 bits |
| ValidateProofs.AcceptedErrsIff | internal/rules/engine.go:333-351 | the full evaluation of an accepted rule fails exactly when a root with a day count that does not fit comes behind roots that hold and fit |
| ValidateProofs.AcceptedListErrsIff | internal/rules/engine.go:333-351 | for a flat list, exactly when a day count does not fit, whatever the message |
| ValidateProofs.DaysExactIff | internal/rules/engine.go:197-214 | 106751 is the last day count whose nanoseconds fit |
| ValidateProofs.OlderAndNewerExclude | internal/rules/engine.go:197-214 | no message is older than M and newer than N days for N ≤ M ≤ 106751 |
| ValidateProofs.WrappedDays | internal/rules/engine.go:197-205 | with 106752 days, a message from now is "older" |
| ValidateProofs.BothLetAnythingThrough | internal/db/validate.go:53-61 | with groups present, any flat conditions are accepted and imported |
| ValidateProofs.UncheckedConditionsIff | internal/db/validate.go:53-61 | conditions that are no good are accepted beside a rule's groups, exactly when it has groups; with groups or conditions alone, all that is imported has been looked at |
| Importing.FreeName | internal/db/ruleexport.go:263-268 | the first free "name (n)" from 2 on, which always exists |
| FreeNames.FirstFree | internal/db/ruleexport.go:263-268 | counting up from n reaches a free number, and it is the first |
| ImportObjects.Rename | internal/db/ruleexport.go:263-268 | the rename loop ends with that name |
| ImportObjects.PreviewImport | internal/db/ruleexport.go:199-220 | the loop of the preview: the flags, and the same errors an import would reject the file for |
| ImportObjects.Import | internal/db/ruleexport.go:224-285 | validation of the file, then the loop with its policies, over the rule tables |
| ImportProofs.ImportedNamesAreNew | internal/db/ruleexport.go:224-285 | under every policy, created names differ, trimmed and in lower case, from each other and from all before; Imported + Skipped + Errors is the number of rules |
| ImportProofs.PreviewMeaning | internal/db/ruleexport.go:209-218 | a rule is flagged exactly when its name is taken or occurs earlier in the file |
| ImportProofs.SkipIsThePreview | internal/db/ruleexport.go:245-279 | under "skip" the skipped rules are exactly the flagged ones, and the others are created in order |
| ImportProofs.ErrorPolicyNotAtomic | internal/db/ruleexport.go:258-283 | under "error" the other rules are imported all the same |
| ImportProofs.ErrorPolicySparesIff | internal/db/ruleexport.go:258-283 | under "error" a valid file leaves the rules alone exactly when the preview flags every rule in it |
| ImportContents.ImportCreatesTheFile | internal/db/ruleexport.go:224-318 | under every policy a valid file leaves all rules as they were and creates, in order, exactly its rules that the preview does not flag, or all under "rename"; each is read back with what the file says, under its trimmed name or, if that is taken and the policy is "rename", that name with the first free number |
| ImportContents.RejectedChangesNothing | internal/db/ruleexport.go:224-241 | a file with errors changes nothing |
| ImportContents.FileErrorsIff | internal/db/ruleexport.go:230-241 | a file is rejected for exactly the problems its rules have, each under its rule's number and name |
| ImportContents.ImportReportsTheFlagged | internal/db/ruleexport.go:245-283 | under any policy but "rename" the report names exactly the rules the preview flags, in order: under "error" each as an error with its number, else each as skipped |
| ImportContents.ExportedRulesComeBack | internal/db/ruleexport.go:71-318 | rules exported and imported into empty tables, under any policy, are listed again, the same in the same order, up to ids |
| UniqueNames.UniqueNamesMeaning | internal/db/migrate.go:141-187 | afterwards names are pairwise different; the lowest id of a name keeps it, so non-duplicates stand; the rest get a number, and no lower number is left unused |
| UniqueNames.Migrate | internal/db/migrate.go:141-187 | the loops, with the unbounded counter, end and do that |
| Health.EveryInterleaving | internal/poller/poller.go:848-1007 | in every interleaving alerts alternate from unhealthy, the flag means three failures, one reconnect at most; delays are 5 to 60 seconds, begin with 5 and repeat or double, and double each time unless the poller was stopped meanwhile |
| Health.ThirdFailureAlerts | internal/poller/poller.go:848-862 | in every interleaving the third failure since a clearing alerts |
| Health.ClearForgets | internal/poller/poller.go:871-882 | a clearing resets failures and backoff, and announces recovery exactly when there was an alert |
| Health.ThirdFailureReconnects | internal/poller/poller.go:863-868 | from the third failure on, a running poller that can connect starts a reconnect when none is in flight |
| Health.TwoFailuresAskNothing | internal/poller/poller.go:863 | before it none is asked for |
| Health.ReconnectDials | internal/poller/poller.go:976-989 | a reconnect sleeps five seconds, or the backoff, and dials |
| Health.ReconnectEnds | internal/poller/poller.go:990-1007 | a dial that succeeds clears; one that fails counts, doubles the backoff up to a minute, and lets the next reconnect in |
| Health.AlertsKept | internal/poller/poller.go:848-882 | no step breaks the alternation of alerts |
| Health.OneWorkerKept | internal/poller/poller.go:863-868 | no step lets a second reconnect in |
| Health.BackoffKept | internal/poller/poller.go:976-1007 | every step keeps the growth of the delays and the five values |
| Health.Monitor.CountError | internal/poller/poller.go:848-862 | the failure count and the alert decision, in place |
| Health.Monitor.AskReconnect | internal/poller/poller.go:863 | whether a reconnect is wanted: the load of the running flag |
| Health.Monitor.ClaimReconnect | internal/poller/poller.go:863-868 | the compare-and-swap that starts it, won only while none is in flight |
| Health.Monitor.ClearLastError | internal/poller/poller.go:871-882 | clearing, and whether recovery is announced |
| Health.Monitor.ReconnectDelay | internal/poller/poller.go:976-983 | the delay to sleep |
| Health.Monitor.ReconnectFailed | internal/poller/poller.go:990-1001 | a failed dial counts, and doubles the backoff up to a minute |

## Left out

- Replacing the client in the middle of a tick, and the loop of a poller that is started again after a stop: the code promises nothing there.
- Concurrency inside a tick: ticks, applies and prunes are serialised by the session lock; `Health` alone interleaves.
- PollerObjects.ImapClient.SearchMessages: takes the limit to be one, which is what ticks and applies ask for.
- ConservationProofs.NothingIsLost: speaks of runs without other clients and lost replies; `EveryMessageIsAccountedFor` says what holds with them.
- OnceProofs.TickOnceIff: speaks of runs without other clients, who can empty or fill the folder during the tick; so does `ApplyOnceIff`. Without the wrap `TickAscends`, `ApplyReportAddsUp` and `ApplyEnds` hold with them too.
- ConservationProofs.TickHandlesTheSmallest: assumes no action moves mail into the polled folder and no other client acts, since otherwise the smallest UIDs change during the tick.
- AgainProofs.TickTakesOnceIff: begins with a fresh session and a UID left in the folder, with one trash folder; so does `ApplyTakesOnceIff`. Other clients may move any message back at any time.
- Folder names are one only when spelled alike, while to a server INBOX is one folder in any case (section 5.1 of RFC 3501).
- StatsProofs.CountersAgreeWithTheLog: assumes counter and log writes succeed; the program ignores their errors.
- DeletedProofs.DeletedIsAskedForIff: tells what was executed by the log, whose writes are assumed to succeed.
- ThrottleProofs.OneReplyADay: assumes the throttle table's reads and writes succeed and that the clock does not go back; addresses are compared by their spelling, as the program does, so the own address in another case is replied to.
- EffectProofs.MatchedMessageLands: speaks of runs without failures; with them, the addressing and conservation results say what still holds.
- The matcher inside the poller: there it is any verdict after any number of fetches, so the poller's results hold for every evaluator; the evaluator is modelled on its own.
- Folders are never deleted or renamed, UIDs stay below 2^32−1, and a folder's UIDVALIDITY does not change.
- Nil arguments: a missing client in the poller, a nil message, repositories that are not configured.
- Contents of mail that is sent: MIME building, reply templates and the order in which captures are substituted, webhook payloads. Sends succeed or fail.
- Retrying and delivery of alerts; only the decision to send one is modelled.
- Regular expressions, MIME decoding, date and address syntax and case folding in conditions are parameters; letters beyond ASCII keep their case in names and day lists.
- Time zones and clock changes: the schedule counts minutes, and a message's age and day are given.
- `CompiledRegex` is compiled where it is used instead of when a rule is loaded; the pattern is the same text.
- The display text of a ConditionResult.
- SQL, transactions and failing statements: tables are sequences of rows with growing ids, and inserts succeed.
- RuleObjects.RulesRepo.AllConditionGroups: visits rows by id instead of by rule and then id; only the order within one rule is used.
- RuleObjects.RulesRepo.Get: takes conditions in id order, which its query leaves to the database.
- FormObjects.ReadNodes: nodes are values in a map, where the program keeps references to them; no two keys share a node, so nothing is lost.
- Browser behaviour beyond document order and the choice of a select: line breaks in a text field, scripts that add and remove groups.
- JSON: a file to import is a list of portable rules; created_at and updated_at are not kept.
- UniqueNames.Migrate: the other steps of the migration, and the unique index created at the end.
- Importing.FreeName: keys are compared in ASCII lower case.
- ImportContents.ExportedRulesComeBack: takes rules listed in the order of their priorities, valid, with trimmed names that differ and forests that survive an export (`ForestSurvivesIff` says which do).
- HandlingProofs.SenderIsAnswered: a slot is named by the day on which the reply was recorded, which is not the day of the check when midnight falls between.
- Health.EveryInterleaving: does not model the error text, which is written outside the mutex, nor a loop tick that counts its failure twice, which is two failures here.
- Small pieces that would add only easy members: folder synchronisation, backups, the log buffer, statistics queries, contact collection, configuration, the web pages other than the condition form.
