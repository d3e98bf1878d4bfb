# Nuvrail gateway: a verified model

Nuvrail is an IMAP/SMTP approval gateway. What an agent wants to change is staged, shown to the
agent as if it had happened, and later executed, rejected, expired or undone, with every decision
in a hash-chained log. This project models the parts in which that promise lives and proves what
they keep, for every input, every run or every interleaving.

| file | models |
|---|---|
| `Wrappers.dfy`, `Text.dfy`, `Flags.dfy` | option and result types, strings, decimal numbers, sorted flag lists |
| `UidSets.dfy` | UID sets: one meaning and the five implementations of it |
| `ImapParser.dfy`, `OperationParser.dfy`, `CommandRouter.dfy` | the command line parser, the staged form of a command, which commands may be forwarded |
| `ClientPump.dfy`, `ForwardingSafety.dfy`, `LiteralOpacity.dfy`, `HeldCopy.dfy`, `Gate.dfy`, `WriteTurns.dfy` | the client-to-upstream pump and what it lets through, refuses, consumes and holds |
| `ResponseLine.dfy`, `FlagPatch.dfy`, `UpstreamPump.dfy`, `RelayFraming.dfy`, `AgentView.dfy`, `LineView.dfy`, `SplitLine.dfy` | the upstream-to-client pump, its line rewrites, what the agent reads, and how a flag can cut a line in two |
| `Mirror.dfy`, `Overlay.dfy` | the local mirror with snapshots and reverts, and the overlay of pending operations |
| `ImapServer.dfy`, `Execution.dfy`, `Undo.dfy`, `UndoOnce.dfy`, `EndToEnd.dfy`, `FlagRoundTrip.dfy` | an IMAP server with other clients at work, replaying staged operations, undoing them |
| `Lifecycle.dfy`, `Overlap.dfy`, `Deadlines.dfy`, `ExpiryLog.dfy`, `LifecycleLog.dfy`, `Operations.dfy` | the life of an operation under requests, scheduler passes and expiry passes, approvals that overlap other steps, when an operation may be taken up, what the log says and what the mirror shows after it |
| `AuditChain.dfy`, `AnchorRuns.dfy` | the audit chain and its external anchor |
| `SendRate.dfy`, `AuthAbuse.dfy`, `SecretCache.dfy` | the send limiter, the login limiter, the secret cache |

The loops and the classes that change state are methods proved against functions on values; the
promises are lemmas about those functions. Servers, clocks, other clients, database contents and
staging failures are parameters, so a lemma holds for every choice of them.

Where the code departs from its own documentation, the model follows the code and a lemma names
the departure:

- The FLAGS patch passes the merged flags as a replacement text in which a backslash is special,
  so it fails, silently, for every list with a system flag (`ResponseLine.PatchTakesEffectIff`).
- The same escapes let a pending flag put a line end into a relayed FETCH line
  (`SplitLine.FlagSplitsLine`); when that is, is `RelayFraming.HandleKeeps`.
- A FETCH line of a message with a pending move is passed on when it announces a literal
  (`AgentView.PendingFetchHiddenIff`).
- A scheduled operation whose execution fails before it starts is left approved for good, not
  failed (`Lifecycle.StrandedIff`).
- The expired audit row is written, and the mirror reverted, even when nothing expired
  (`ExpiryLog.ExpiredRowsExact`, `ExpiryLog.ExpiryRevertFitsIff`).
- Expiry reverts oldest first, which undoes a stack of changes to one message in the wrong order
  (`Mirror.FifoRevertIff`).
- An approval overlapped by another approval, a claim, an expiry or a rejection still relays
  (`Overlap.RelayedTwiceIff`, `Overlap.DecidedThenExecuted`).
- An APPEND whose message was not stored is executed without contacting the server
  (`Lifecycle.AtMostOnce`).
- A literal marker inside an open list or string does not stop a line from being forwarded
  (`ForwardingSafety.MarkerForwardedIff`).
- A held COPY takes its messages from the folder selected when it is staged
  (`HeldCopy.LaterFolderIff`), and merges on any flag with "deleted" in its name
  (`HeldCopy.KeywordMovesMessages`).
- A quoted destination that itself starts and ends with a quote, or reads as a literal marker, is
  not staged as sent (`OperationParser.QuotedDestinationStagedIff`).
- The mailbox of an APPEND is cut at its first white space, quoted or not
  (`WriteTurns.AppendFolderKeptIff`).
- Bare flags after the first are dropped at staging (`Execution.BareFlagsKeepMeaningIff`).

To verify: `dafny verify dfyconfig.toml`.

## Model

| member | source | states |
|---|---|---|
| `UpstreamPump.UpstreamToClient.Receive` | gateway/proxy.py:1230-1531 | One chunk from upstream: the inner loop over buffer, literal count and continuation mark, and the flush at its end, is the pump specification `Received` |
| `UpstreamPump.UpstreamToClient.HandleLine` | gateway/proxy.py:1257-1520 | A complete line: what is sent, the tags left and the literal announced are those of `Handle` |
| `UpstreamPump.UpstreamToClient.RelayLiteral` | gateway/proxy.py:1244-1256 | Announced literal bytes are written as they are and counted down; at zero the next line continues the response |
| `RelayFraming.RelayCommutesWithFraming` | gateway/proxy.py:1230-1531 | For every well-formed upstream stream, every session and whatever is pending, in any chunks that cut no response line: the bytes sent to the agent read back as the upstream items with lines rewritten, suppressed or preceded by injected FETCH lines, and every literal unchanged and in place, if and only if no flag written into a line holds a line end; the literals themselves are kept in every case |
| `RelayFraming.HandleKeeps` | gateway/proxy.py:1262-1512 | For every session and whatever is pending, the lines sent for one upstream line announce a literal exactly when that line did, of the same size, and no other line among them announces one; they are single lines exactly when no flag of a revert told now, and no merged flag as re.sub reads it, holds a CRLF |
| `RelayFraming.PatchKeeps` | gateway/proxy.py:1462-1489 | A FETCH line the patch changes announces no literal, and it is cut in two exactly when the patch applies and the text of some merged flag holds a CRLF |
| `FlagPatch.ListSplitsIff` | gateway/proxy.py:1472-1480 | For every merged list: re.sub accepts the replacement exactly when it accepts each flag, and what it writes holds a CRLF exactly when some flag's text does (escapes, octal numbers and \g<0> included) |
| `SplitLine.FlagIsStaged` | gateway/proxy.py:1005-1113 | The failing input: a UID STORE whose flag spells the escapes of CR and LF with backslash letters passes every check and is staged as it is |
| `SplitLine.FlagSplitsLine` | gateway/proxy.py:1472-1489 | With that flag pending, the agent reads two response lines where upstream sent one FETCH line, the second of the agent's own choosing |
| `RelayFraming.ContinuationUntouched` | gateway/proxy.py:1257-1260 | A line that goes on after a literal, an empty one included, is passed on byte for byte, for every session |
| `RelayFraming.GrammarContinuation` | gateway/proxy.py:1208-1222 | Every line the grammar lets follow a literal (empty, or starting with a space or a closing parenthesis) is such a line |
| `RelayFraming.DrainRelays` | gateway/proxy.py:1243-1520 | Running the loop over a whole stream leaves nothing buffered and has written the relayed items |
| `RelayFraming.DrainFed` | gateway/proxy.py:1243-1520 | Feeding bytes later is the same as having had them at once, literals cut in two included |
| `RelayFraming.CutLineEscapesFilter` | gateway/proxy.py:1522-1531 | A chunk boundary inside a CAPABILITY line defeats the rewrite: the two halves reach the agent unfiltered, the whole line filtered |
| `UpstreamPump.QuietIsTransparent` | gateway/proxy.py:1230-1531 | With no tag outstanding and nothing pending in the folder, output bytes equal input bytes for every chunking |
| `UpstreamPump.ParseRender` | gateway/proxy.py:1208-1222 | The reference reader of lines and literals inverts rendering on every framed stream |
| `ResponseLine.CapabilitiesFiltered` | gateway/command_router.py:157-180 | The agent reads exactly the offered capabilities that are not hidden |
| `ResponseLine.PatchTakesEffectIff` | gateway/proxy.py:1462-1489 | The FLAGS rewrite goes through exactly when the merged list holds no system flag; otherwise the replacement text is refused |
| `ResponseLine.SystemFlagHidesPatch` | gateway/proxy.py:1462-1495 | A pending change on a message that keeps or gains a system flag leaves the FETCH line as upstream sent it |
| `AgentView.PatchedLineReads` | gateway/proxy.py:1456-1489 | When the patch goes through, the agent reads exactly the upstream flags plus pending additions minus pending removals |
| `AgentView.ExistsShown` | gateway/proxy.py:1287-1307 | The count the agent reads is the upstream count less the pending UIDs, never below zero |
| `AgentView.SearchShown` | gateway/proxy.py:1309-1334 | The search result the agent reads is the upstream one without pending UIDs |
| `AgentView.PendingFetchHiddenIff` | gateway/proxy.py:1351-1446 | Of the FETCH lines that name a message with a pending move, those that close on the line and announce no literal are withheld, and only those: the header line of a fetched body passes whole, with its literal |
| `LineView.RevertsTold` | gateway/proxy.py:340-388 | For every session and upstream line: exactly when the line is the OK of the outstanding command, read on its characters, the pending reverts come first, in order, each a FETCH line the agent reads as that sequence number, UID and flags; after them comes what the line gives alone, and the command is no longer outstanding |
| `LineView.ToldOncePerCommand` | gateway/proxy.py:1277-1286 | Over every stretch of lines, reverts are told at most once for each command that lets them be told |
| `LineView.CapabilityShown` | gateway/command_router.py:119-180 | On what is sent: while the agent's CAPABILITY command is outstanding the response shows the offered atoms other than those of the hidden extensions, named one by one; otherwise it is passed as it is |
| `LineView.OutstandingUntilAnswered` | gateway/proxy.py:1267-1276 | Over every stretch of lines the CAPABILITY command stays outstanding until the line that answers its tag, and no longer |
| `LineView.CountShown` | gateway/proxy.py:1287-1307 | On what is sent for an EXISTS line, by its digits: the count less the pending UIDs of the selected folder, never below zero |
| `LineView.SearchResultShown` | gateway/proxy.py:1309-1334 | On what is sent for a SEARCH line: in a UID SEARCH of the selected folder, the tokens that name no pending UID, in order; otherwise the line as it is |
| `LineView.FetchShown` | gateway/proxy.py:1448-1495 | On what is sent for a closed FETCH line of a message in view: where the patch applies, a flag is read exactly when upstream has it or it is added, and it is not removed; otherwise the line as it is |
| `LineView.OverlayShown` | gateway/proxy.py:1456-1489 | With the answers of the database query, the flags read are those of the overlay over the upstream flags |
| `LineView.AnnouncesIff` | gateway/proxy.py:1500-1512 | A line announces n literal bytes exactly when it ends in n in braces and is an untagged response other than OK, NO, BAD, BYE and PREAUTH, or goes on after a literal |
| `LineView.FetchLiteralIff` | gateway/imap_response_parser.py:109-112 | A FETCH line is taken for the header of n literal bytes exactly when it names a UID and ends in n in braces, one closing parenthesis and white space aside |
| `LineView.FindUidFirst` | gateway/imap_response_parser.py:114-116 | The UID of a line is the number after the first UID that stands there as a word of its own, in any case |
| `ClientPump.ClientToUpstream.Run` | gateway/proxy.py:593-1192 | The read loop does, turn by turn, what `ServeAll` says of the stream |
| `ClientPump.ClientToUpstream.ServeOne` | gateway/proxy.py:593-860 | One turn: framing, refusal, staging or forwarding in the order the code checks them |
| `ClientPump.ClientToUpstream.ServeLiteral` | gateway/proxy.py:619-766 | A line that waits for a literal: refused before its continuation, or an APPEND staged, suppressed or refused as MULTIAPPEND |
| `ClientPump.ClientToUpstream.ServeParsed` | gateway/proxy.py:768-1192 | A parsed command: refused literal, class dispatch, session folder, ENABLE filter, held COPY and staging |
| `ClientPump.ClientToUpstream.DiscardNonsyncLiterals` | gateway/proxy.py:530-570 | The loop consumes what `Discard` consumes, or ends the connection on a short or oversized literal |
| `ForwardingSafety.ForwardedIsSafe` | gateway/proxy.py:593-860 | For every client stream, session and outcome of staging: each line written upstream is one line with no line end inside, a whole command of a listed class, with no bare CR or NUL and no non-synchronizing literal; it is byte for byte a line read where a command begins, unless it is an ENABLE cut to the allowed extensions |
| `Gate.ForwardedIsPassable` | gateway/proxy.py:593-860 | The same on characters and names: every line written upstream has no NUL and no CR but the one that ends it, does not end in {n+} or {n-}, waits for no literal, and is one of the 28 listed read commands or a bare DONE |
| `Gate.TurnForwardsIff` | gateway/command_router.py:199-216 | And only that: a turn writes its line upstream exactly when it is such a line (ENABLE apart, which may be cut) |
| `Gate.StrayIsBad` | gateway/security_controls.py:221-234 | A turn answers BAD exactly when the line holds a NUL or a CR that does not end it; nothing else then happens, the answer carries neither character, and the next line is read |
| `Gate.NonsyncIff` | gateway/command_router.py:183-196 | The non-synchronizing marker is seen exactly when the line ends in digits and a sign in braces, white space aside |
| `WriteTurns.MarkerSizes` | gateway/proxy.py:530-570 | The sizes read from {n}, {n+} and {n-} are the decimal numbers written there |
| `ForwardingSafety.ForwardedInOrder` | gateway/proxy.py:593-860 | What goes upstream is, in order, what each command line passes by itself: no session, staging outcome, literal or earlier command adds, drops or moves a line |
| `ForwardingSafety.PassedIff` | gateway/command_router.py:183-216 | A command line goes upstream as it came exactly when it is a complete read command with nothing forbidden in it (an ENABLE of nothing apart); anything else that goes is an ENABLE cut to its allowlist, itself such a command |
| `ForwardingSafety.EnableMayForward` | gateway/proxy.py:832-848 | The rebuilt ENABLE line itself parses as a read command with allowed arguments |
| `ForwardingSafety.MarkerForwardedIff` | gateway/proxy.py:617-640 | A read command, UID FETCH and UID SEARCH included, that ends in a literal marker is forwarded exactly when the marker does not begin a token (inside an open list, string, bracket or atom) and the command is not ENABLE |
| `ForwardingSafety.OpenListForwarded` | gateway/imap_parser.py:117-134 | The failing family is inhabited: a UID SEARCH whose list is still open is forwarded, marker included |
| `LiteralOpacity.PayloadsAreOpaque` | gateway/proxy.py:593-860 | Two streams that differ only inside literals of equal length give the same forwarded lines, replies, session and staged operations, bodies of staged messages apart |
| `LiteralOpacity.NonsyncConsumed` | gateway/proxy.py:768-784 | A command refused for its non-synchronizing literals leaves the stream at the next fresh command, however many there were |
| `LiteralOpacity.MultiAppendConsumed` | gateway/proxy.py:684-711 | MULTIAPPEND is refused whole: nothing staged, and the next line read is a fresh command |
| `LiteralOpacity.AppendConsumed` | gateway/proxy.py:646-766 | A single APPEND is staged with exactly its literal and its mailbox unquoted |
| `WriteTurns.OnlyAppendWaits` | gateway/proxy.py:619-645 | A line that waits for a literal is asked for it exactly when it is an APPEND without UID whose marker is no literal8; any other is refused at once and nothing of the stream is consumed |
| `WriteTurns.AppendFolderKeptIff` | gateway/proxy.py:649-651 | The mailbox of an APPEND is the third word of its line: a quoted name is staged as that name exactly when it has no white space |
| `WriteTurns.AppendFlagsRead` | gateway/proxy.py:652-655 | Its flags are read from the first list in parentheses on the line |
| `WriteTurns.AppendSuppressedIff` | gateway/provider_profiles.py:196-207 | An APPEND that arrived whole is dropped and answered as done exactly when its folder is, in any case, one the provider fills itself |
| `WriteTurns.AppendOversize` | gateway/proxy.py:657-682 | A literal past 10485760 bytes is consumed and staged without its body, any other with exactly its bytes; one cut short ends the connection |
| `WriteTurns.NonsyncOversize` | gateway/proxy.py:530-570 | A non-synchronizing literal past the limit ends the connection with BYE, one cut short without a word |
| `CommandRouter.EnableKeepsAllowed` | gateway/command_router.py:148-154 | The kept ENABLE arguments are exactly the allowed ones |
| `HeldCopy.CopiesConserved` | gateway/proxy.py:875-1004 | In every run in which staging succeeds, for each UID set and destination: copies answered "OK COPY completed" = flushed copy operations + copies merged into a MOVE + the one held |
| `HeldCopy.RunBalanced` | gateway/proxy.py:875-1004 | The same balance over every run, with the copies lost to failed staging on the right-hand side |
| `HeldCopy.CopiesConservedIff` | gateway/proxy.py:906-1000 | In every run, whatever fails: that balance holds for a UID set and destination exactly when at no turn an attempt to stage a held copy of them meets a failing store, read off the outcomes the caller chose |
| `HeldCopy.LaterFolderIff` | gateway/proxy.py:906-931 | After any number of reads in between, a held COPY is staged from the folder it was given in exactly when the last of them to SELECT or EXAMINE a folder, if one does, names that folder |
| `HeldCopy.KeywordMovesMessages` | gateway/proxy.py:877-882 | Any flag with "deleted" in its name merges the pair into a MOVE, also one that is not \Deleted |
| `WriteTurns.CopyHeldIff` | gateway/provider_profiles.py:210-234 | A UID COPY is answered as done and held exactly when its destination is the provider's archive, trash or junk folder, in any case; any other is staged at once; a copy held before is staged first |
| `WriteTurns.StoreMeetsHeld` | gateway/proxy.py:876-1004 | With a copy held, a UID STORE that marks its UID set becomes one MOVE; one that marks another set is staged by itself and the copy stays held; one that marks nothing has the copy staged first |
| `WriteTurns.OthersAreRefused` | gateway/command_router.py:199-216 | EXPUNGE, DELETE and CLOSE are answered without effect, and every command that is neither a listed read nor a listed write is refused by name, with the session as it was |
| `WriteTurns.SequenceNumbersRefused` | gateway/proxy.py:954-975 | STORE, COPY and MOVE without UID are refused and stage nothing of their own |
| `ImapParser.TokenizeArgs` | gateway/imap_parser.py:75-171 | The index loops compute `Tokenize` and end on every input |
| `ImapParser.SkipNTokens` | gateway/imap_parser.py:56-72 | The index loop returns what follows the first n space-delimited tokens |
| `ImapParser.ParseCommandLine` | gateway/imap_parser.py:174-207 | Tag, UID prefix, verb, arguments, or None for a trailing synchronizing literal |
| `ImapParser.TokenizeQuoted` | gateway/imap_parser.py:93-112 | Escaping, quoting and joining any list of strings tokenizes back to the list |
| `ImapParser.ParseUidCommand` | gateway/imap_parser.py:174-207 | A quoted destination reaches the parsed command whole, unless it reads as a literal marker |
| `ImapParser.MarkerSeenIff` | gateway/imap_parser.py:200-205 | A marker at the end of the arguments makes the parser wait exactly when the token it falls in is empty so far, or "~" |
| `ImapParser.ScanFinishes` | gateway/imap_parser.py:75-171 | The tokenizer agrees with a one-character-at-a-time reading of the same states |
| `OperationParser.UnquoteInvertsQuote` | gateway/operation_parser.py:14-35 | The two sequential replacements undo quoting for every name |
| `OperationParser.QuotedDestinationStagedIff` | gateway/operation_parser.py:135-160 | A quoted MOVE or COPY destination is staged as exactly that name if and only if the name is not a literal marker and does not itself start and end with a quote |
| `Execution.ExecuteImapUpstream` | gateway/execution.py:487-610 | The command-by-command replay is `Replay`: mailbox, success, folder_to and audit detail, for every answer of the server |
| `Execution.ParseCopyUid` | gateway/execution.py:98-114 | One UIDVALIDITY and the joined destination sets, or None when the codes disagree or are absent |
| `Execution.CopyUidIff` | gateway/execution.py:98-114 | A destination is known exactly when all codes carry one UIDVALIDITY, and is then every UID they list |
| `Execution.StagedStoreMeaning` | gateway/execution.py:554-588 | For every mailbox state, replaying a staged +/-FLAGS with a non-empty list (a move to Trash apart) does what the agent's own command would have done |
| `Execution.StagedTrashMeaning` | gateway/execution.py:528-553 | Adding \Deleted, with a Trash folder known and a server that can move, executes as UID MOVE of the set to that folder |
| `Execution.ReplacementFails` | gateway/execution.py:577-586 | A FLAGS replacement or an empty list fails with the mailbox unchanged |
| `Execution.BareFlagsKeepMeaningIff` | gateway/proxy.py:150-157 | Bare flags after the first are dropped, added or removed (a move to Trash apart): the effect is the agent's exactly when every matched message already has the dropped additions, or lacks the dropped removals |
| `Execution.StagedTransferMeaning` | gateway/execution.py:590-610 | From the line on the wire: a quoted UID MOVE or COPY, staged and replayed, is that command |
| `Execution.RewriteMeaningIff` | gateway/proxy.py:979-1005 | MOVE for COPY, STORE, UID EXPUNGE (section 3.3 of RFC 6851) looks the same to every client exactly when the STORE sets \Deleted or all the messages had it |
| `EndToEnd.ServedTransferMeaning` | gateway/proxy.py:987-1158 | From the bytes of a UID MOVE or ordinary UID COPY through the pump to the replay: one staged operation, and its execution has the command's own effect |
| `EndToEnd.MergedCopyMeaning` | gateway/proxy.py:875-1005 | From the bytes of the two lines, in any spelling, silent or not, the flags in a list or bare: the COPY is answered and held, the STORE of \Deleted merges it into one operation, the stream goes on after both, and executing the operation looks to every client like COPY, STORE, UID EXPUNGE |
| `ImapServer.StepKeepsOnePlaceEach` | gateway/undo.py:44-48 | No step of any client puts one message in two places; new messages have new identities |
| `ImapServer.RunKeepsTraced` | gateway/undo.py:181-198 | Over every interleaving of deliveries, deletions, moves, copies, renames, re-creation and renumbering, a recorded UID under its folder name and UIDVALIDITY never comes to mean another message |
| `Undo.Gateway.ExecuteOperation` | gateway/execution.py:895-923 | Replay, status executed or failed, cleared folder_to and the audit row with its detail |
| `Undo.Gateway.UndoOperation` | gateway/undo.py:143-239 | All refusals in order, the inverse commands, and status and audit row only on success |
| `Undo.Gateway.MoveBackUpstream` | gateway/undo.py:273-313 | SELECT, UIDVALIDITY check, UID MOVE back, COPYUID needed for success, counts compared |
| `UndoOnce.NotAdmittedIsRefused` | gateway/undo.py:157-181 | An undo of an operation that is not there or not executed, of a type other than the six, or past its deadline is refused, and server, operations and log are as before |
| `UndoOnce.SecondUndoRefused` | gateway/undo.py:165-169 | After a successful undo, whatever is staged, executed, undone or done by other clients next, a further undo of that operation is refused and changes nothing |
| `UndoOnce.UndoneAtMostOnce` | gateway/undo.py:212-224 | Over every run an operation is undone at most once, and its executed, failure and reverted rows are one each exactly as its status says |
| `UndoOnce.FlagUndoSucceedsIff` | gateway/undo.py:315-339 | An admitted flag undo succeeds exactly when flags were recorded and the server selects the folder and carries out the STORE |
| `UndoOnce.MalformedDestinationRefused` | gateway/undo.py:110-140 | A MOVE whose recorded destination is missing, or holds anything but digits, colons and commas, is not undone and nothing is sent |
| `UndoOnce.TrashFallbackNotUndone` | gateway/execution.py:528-610 | A trash operation carried out as a STORE of \Deleted names no folder the messages went to, is logged with the folder that was meant, and is never undone |
| `Undo.UndoNeverTouchesAStranger` | gateway/undo.py:110-140 | For every interleaving between a forward MOVE and its undo: every message the undo moves is one the MOVE moved, and no message is lost or made |
| `Undo.UndoReportsExactly` | gateway/undo.py:295-313 | A reported success moved at least one message and says exactly how many of the recorded ones; "all" just when none had left the folder |
| `Undo.FailedUndoChangesNothing` | gateway/undo.py:273-305 | On a server that reports its moves, a refused or failed undo leaves every mailbox as it was |
| `Undo.UndoSucceedsIff` | gateway/undo.py:181-198 | On a server that answers truly and within the window, the undo of a MOVE succeeds exactly when the destination still has its UIDVALIDITY and at least one recorded message is still there |
| `Undo.UndoAtOnceRestores` | gateway/undo.py:273-313 | With nothing in between, a successful undo gives every folder exactly its original messages, flags included |
| `Undo.FlagUndoRestoresIff` | gateway/undo.py:315-339 | A flag undo restores the mailbox exactly when no touched message already had an added flag or lacked a removed one |
| `FlagRoundTrip.ServedStoreUndone` | gateway/operation_parser.py:60-130 | From the agent's line: a UID STORE that adds or removes a list with \Seen or \Flagged (and adds no \Deleted) is staged as one operation which, executed and undone, leaves the server as it was exactly when no message of the set already had an added flag or lacked a removed one |
| `FlagRoundTrip.ServedStoreMeaning` | gateway/proxy.py:1005-1113 | From the agent's line to the server: a UID STORE that adds or removes one list is staged as one operation whose execution is that STORE, or the move to the Trash folder known at staging when \Deleted is added and the server can move |
| `FlagRoundTrip.OtherStoreNotUndone` | gateway/operation_parser.py:60-130 | A STORE of other flags is never undone |
| `Mirror.MessagesDb.SnapshotMessages` | gateway/state_db.py:1148-1176 | The loop captures the state of every matching row, or fails on a set that does not parse |
| `Mirror.MessagesDb.ApplyOptimisticFlagUpdate` | gateway/state_db.py:1179-1215 | Matching rows get the sorted merge of their flags; no other row changes |
| `Mirror.MessagesDb.RemoveMessagesFromFolder` | gateway/state_db.py:1119-1145 | Exactly the matching rows go |
| `Mirror.MessagesDb.RestoreFromSnapshot` | gateway/state_db.py:1218-1287 | Rows still there get their flags back, missing ones are inserted with flags, sequence number, sender and subject |
| `Mirror.MessagesDb.StageOptimistically` | gateway/proxy.py:1009-1130 | Snapshot then update or removal, with the synthesised snapshot for unmirrored UIDs |
| `Mirror.RejectInvertsStageIff` | gateway/state_db.py:1218-1287 | Rejecting restores the visible mirror exactly when the staged flag set was not a lone unmirrored UID |
| `Mirror.LifoRevertIsInverse` | gateway/state_db.py:1218-1287 | For any stack of flag and move operations over any folders, rejecting in reverse order returns every row to what it was |
| `Mirror.FifoRevertKeepsFirstChange` | gateway/state_db.py:1262-1267 | Two flag changes of one UID set rejected oldest first: the first one is left in place, so the mirror is restored exactly when it altered no row |
| `Mirror.FifoRevertIff` | gateway/expiry.py:56-86 | Expiry reverts oldest first: for any stack of flag and move operations over any folders (none with an unmirrored row), that restores the visible mirror exactly when for every row the last operation that matched it found the flags it had to begin with; no row is lost in any case, and each matched row is left with the flags its last operation found |
| `Overlay.GetPendingFlagChangesForUid` | gateway/state_db.py:1051-1115 | The loop returns the concatenated lists of the selected rows: pending flag operations of that agent and folder that name the UID |
| `Overlay.QueryReadsStores` | gateway/state_db.py:1068-1090 | For every table of staged UID STORE, MOVE and COPY commands with plain sets, as the parser types them: a flag is to be added (removed) exactly when some STORE +FLAGS (-FLAGS) that waits for a decision, of that agent and folder, names the message and the flag; decided rows, other agents and other folders say nothing |
| `Overlay.GetPendingMoveUidsForFolder` | gateway/state_db.py:1000-1048 | The pending UIDs are exactly those an entry of a pending move of that agent out of that folder names |
| `Overlay.QueryReadsMoves` | gateway/state_db.py:1017-1022 | For every such table these are the UIDs of the waiting MOVEs, and of no other command |
| `Overlay.PatchAgreesIff` | gateway/proxy.py:1462-1471 | The merged flags equal applying the pending operations one by one exactly when no removed flag is added again later |
| `Overlay.PatchAgreesInAnyOrderIff` | gateway/proxy.py:1462-1471 | They equal it in every order exactly when no flag is both added and removed |
| `Overlay.MirrorReplays` | gateway/state_db.py:1179-1215 | For every run of one agent's UID STOREs in a folder, of whatever type the parser gives them, the mirror equals replaying the selected rows one by one |
| `Overlay.ExistsAgainstSearch` | gateway/proxy.py:1287-1334 | The adjusted EXISTS never exceeds what the filtered SEARCH of the whole mailbox lists; equality exactly when all pending UIDs are present or cover the mailbox |
| `UidSets.ExpandUidSet` | gateway/state_db.py:904-937 | The loop over the tokens computes the expansion, errors included |
| `UidSets.ExpansionMeaning` | gateway/state_db.py:904-937 | The sorted, duplicate-free list of exactly the known UIDs the sequence-set denotes (section 9 of RFC 3501, `*` the largest known) |
| `UidSets.CountUidSetForUndo` | gateway/undo.py:101-107 | The total of the loop, or the error on a token that is no number |
| `UidSets.CountUidSetForSummary` | gateway/batch_summary.py:57-78 | The total of the loop, unparsable tokens counting once |
| `UidSets.CountersAgree` | gateway/batch_summary.py:57-78 | On closed sets the two counters agree, on the summed size of the parts |
| `UidSets.ExpansionWithinCount` | gateway/undo.py:101-107 | On closed sets the expansion is never longer than the count, and as long as the set itself exactly when all its UIDs are known |
| `UidSets.OpenRangeUndercounted` | gateway/batch_summary.py:57-62 | The closed restriction is needed: an open range counts once and expands to more |
| `UidSets.PendingMoveUids` | gateway/state_db.py:1000-1046 | The nested loops give exactly the union over the stored entries |
| `UidSets.PendingMeaning` | gateway/state_db.py:1034-1045 | The pump's two pending-UID tests agree, are always sound, and are exact on a closed set exactly when it is one UID or one ascending range |
| `Lifecycle.AtMostOnce` | gateway/scheduler.py:66-120 | With any scheduler and expiry passes interleaved statement by statement, each operation is relayed or replayed at most once, never if rejected or expired, and, if executed, once exactly when it is not an APPEND without a stored body |
| `LifecycleLog.SendsCounted` | gateway/scheduler.py:66-120 | The count is that of the steps that send: in every run at most one approval, rule or pass sends an operation upstream |
| `Lifecycle.ExecutedWithoutContact` | gateway/execution.py:517-525 | Such an APPEND is marked and logged as executed, whatever upstream would have answered, and nothing was sent |
| `Lifecycle.ExecutedRowsExact` | gateway/execution.py:906-920 | Once no pass holds it, an operation has one executed audit row if it is executed or reverted and none otherwise |
| `Lifecycle.StatusMoves` | gateway/staging.py:435-463 | Status moves only from pending to a decision, from approved to executed or failed, and from executed to reverted |
| `Lifecycle.TerminalForever` | gateway/expiry.py:73-114 | A rejected, expired, failed or reverted operation stays so in every later run, and a rejected or expired one is never relayed |
| `Lifecycle.RunKeepsInv` | gateway/scheduler.py:66-120 | Every run keeps: at most one pass holds an operation, and its status, contacts and audit rows fit what that pass is about to do |
| `Lifecycle.StrandedIff` | gateway/scheduler.py:104-120 | Over every run of the modelled steps, which always settle what they start, an operation is approved with no pass at work on it exactly when a pass claimed it and its execution failed before it started (a process that stops, or an exception other than ExecutionError, between claim and settling leaves one approved as well) |
| `Lifecycle.PreflightFailureStrands` | gateway/scheduler.py:104-120 | Such an operation stays approved for ever: no later request or pass takes it up |
| `Deadlines.NeverBeforeItsTime` | gateway/staging.py:160-176 | In every run after an operation is staged at t under any decision of the rules: it is taken up only by a rule that approves at once, a human, or a scheduler pass that lists it and started at or after t + max(delay, 0), under a rule that delays it; and it expires only by a pass that lists it and started at or after t + 172800 |
| `Deadlines.TakenWhenTimeIsUp` | gateway/scheduler.py:48-63 | And then it may: after any such run, a scheduler pass started on it executes it exactly when it is pending, was delayed and the delay is over, and an expiry pass expires it exactly when it is pending and 172800 seconds have gone by |
| `Deadlines.PassesStartIff` | gateway/expiry.py:56-70 | A pass may start with up to a hundred different pending operations whose time has come, and nothing else |
| `LifecycleLog.LogTellsStatus` | gateway/staging.py:126-150 | Over every run the log has one staged row for each operation there is, one rejected row exactly when it was rejected, one reverted row exactly when it was undone, and one failure row exactly when it failed, unless a pass is about to write it |
| `LifecycleLog.RefusalsLogged` | gateway/execution.py:808-834 | Over every run each execution the send limiter refused, and no other, is logged as such |
| `ExpiryLog.ExpiredRowsExact` | gateway/expiry.py:81-114 | In every run the expired rows of an operation are one if it is expired, plus one for each time an expiry pass reached it when it was no longer pending: a row is true exactly when the operation was still pending at that step |
| `ExpiryLog.ExpiredRowsTrue` | gateway/expiry.py:56-114 | When no other step decides an operation between the selection of an expiry pass and its update, there is one expired row if it expired and none otherwise |
| `ExpiryLog.ExecutedYetLoggedExpired` | gateway/expiry.py:90-114 | Otherwise the log may lie: from every state with a stale row a run exists that executes the operation and logs it as expired |
| `ExpiryLog.ExpiryRevertFitsIff` | gateway/expiry.py:73-100 | The mirror is reverted before the conditional update: afterwards it fits the operation's status exactly when the operation was pending, rejected or expired at that step, or its staging had changed nothing visible |
| `Lifecycle.OverlappingApprovalsExecuteTwice` | api/routes/operations.py:493-501 | Requests must be serialised: two approvals that both saw pending execute twice |
| `Overlap.RelayedTwiceIff` | api/routes/operations.py:493-501 | Approval taken statement by statement, with claims, expiry and rejection in between: in every run of one operation, two relays come within reach exactly when some check or claim takes it up while another is still at work on it |
| `Overlap.NoOverlapIsSafe` | gateway/execution.py:707-920 | In every run in which nobody takes up or decides an operation while another is at work on it, it is relayed at most once, exactly once if executed, and never if expired or rejected |
| `Overlap.DecidedThenExecuted` | gateway/expiry.py:88-99 | The other overlap is real: expired or rejected during an approval, it is relayed and marked executed all the same |
| `Operations.OperationsDb.BatchApprove` | api/routes/operations.py:340-402 | The loop is the single approvals in order; every id is answered once, approved ones were pending and are executed, bad lists change nothing |
| `Operations.OperationsDb.BatchReject` | api/routes/operations.py:405-463 | The same for rejections |
| `Operations.OperationsDb.ApproveOp` | api/routes/operations.py:483-501 | Executed only if pending; the verdict says which |
| `Operations.OperationsDb.RejectOp` | api/routes/operations.py:505-519 | Rejected only if pending |
| `Operations.OperationsDb.ExecuteDueScheduled` | gateway/scheduler.py:87-120 | The scheduler loop, with anything others do before each of its statements, is that run of the step relation: rows decided meanwhile are passed over, and the count is the executed rows this pass wrote |
| `Operations.PassAlone` | gateway/scheduler.py:87-120 | With no one else at work every due row is claimed and ends by its own outcome, others are untouched, and the count is those executed |
| `Operations.OperationsDb.Claim` | gateway/scheduler.py:66-84 | The conditional UPDATE and its row count |
| `Operations.OperationsDb.ExpireStaleOperations` | gateway/expiry.py:119-140 | The expiry loop, with anything others do before each row, is that run of the step relation; it counts the rows it went through |
| `Operations.ExpiryAlone` | gateway/expiry.py:119-140 | With no one else at work exactly the stale rows become expired |
| `AuditChain.PayloadInjective` | gateway/audit.py:57-92 | When one of two rows has no separator in a field, their payloads are equal exactly when every hashed field is; nothing is asked of the other row, a forger's included |
| `AuditChain.SeparatorNeeded` | gateway/audit.py:57-92 | When both hold separators, two different rows can share a payload |
| `AuditChain.VerifyAuditChain` | gateway/audit.py:214-282 | The loop reports no error if and only if every link and every recomputed hash holds |
| `AuditChain.AlterationSeenIff` | gateway/audit.py:245-282 | Replacing one separator-free row by any row under the same entry hash goes unreported exactly when no hashed field changes and its link still fits |
| `AuditChain.AlteredRowReported` | gateway/audit.py:245-282 | A row that differs in a hashed field from the separator-free row its entry hash was computed for is reported, whatever the rest of the table holds |
| `AuditChain.InteriorDeletionReportsOne` | gateway/audit.py:245-282 | Deleting a contiguous interior block is reported as exactly one broken row |
| `AuditChain.DeletionUnseenIff` | gateway/audit.py:245-282 | A deleted block goes unseen exactly when it is a prefix or a suffix |
| `AuditChain.HonestRunPasses` | gateway/audit.py:127-172 | Over every run of atomic inserts, anchors and verification passes the chain verifies and the anchor is found |
| `AuditChain.AnchorTheorem` | gateway/audit.py:460-500 | If any live chain verifies and contains the anchored head, its rows up to there are a suffix, in every hashed field, of the anchored chain of separator-free rows, and all of it when the first live row links to genesis |
| `AuditChain.TamperEvidence` | gateway/audit.py:385-500 | The same from an honest run of separator-free rows and the sink alone, for every live table that passes both checks |
| `AuditChain.PayloadEvidence` | gateway/audit.py:385-500 | With separators allowed in the honest rows too: in everything that was hashed, the live rows up to the head are a suffix of what was written, and all of it when the first links to genesis |
| `AuditChain.GatewayTamperEvidence` | gateway/audit.py:57-92 | Both at once for the digest the gateway computes, over any injective hash whose values hold no separator and avoid genesis: payloads agree for every run, and every hashed field does when the inserted values were separator-free |
| `AuditChain.GatewayAlterationSeenIff` | gateway/audit.py:57-92 | The same for one replaced row |
| `AuditChain.TruncationNoticed` | gateway/audit.py:460-500 | Cutting the tail below the last anchored head is noticed |
| `AnchorRuns.AfterPassCutsAreSeen` | gateway/audit.py:503-581 | After any run and one more verification pass, with lines torn since, a table that lost any number of its last rows fails the anchor check |
| `AnchorRuns.AnchorsPointIntoChain` | gateway/audit.py:385-431 | Over every run each record of the sink gives the number of hashed rows there were and the hash of the last of them |
| `AnchorRuns.BrokenNeverAnchored` | gateway/audit.py:558-571 | A table that fails the walk or the anchor check is never anchored: however many passes run, the record compared with stays |
| `AuditChain.ReadLastAnchor` | gateway/audit.py:434-457 | The loop returns the last valid record, torn lines skipped |
| `AuditChain.AuditLog.InsertAuditEvent` | gateway/audit.py:95-172 | One row appended, linked to the last hashed row or to genesis |
| `AuditChain.AuditLog.AnchorChainHead` | gateway/audit.py:385-431 | The current head and row count appended to the sink, nothing for an empty chain |
| `AuditChain.AuditLog.VerifyAgainstAnchor` | gateway/audit.py:460-500 | Passes exactly when there is no anchor or its head is among the live hashes |
| `AuditChain.AuditLog.VerificationPass` | gateway/audit.py:503-581 | Zero broken exactly when the chain is intact and the anchor found |
| `SendRate.EveryWindowBound` | gateway/send_rate_limiter.py:298-355 | Over every serialised run with a non-decreasing clock, for every time t, the recipients recorded as executed in the closed window ending at t stay within each enabled ceiling of every agent and account |
| `SendRate.EveryWindowSent` | gateway/send_rate_limiter.py:175-245 | The same as a sum over the log, for an agent or for all agents of its account |
| `SendRate.EverySendCounts` | gateway/execution.py:808-920 | Over every run the log records, for each agent, exactly the recipients its admitted and relayed sends went to |
| `SendRate.RefusedIff` | gateway/send_rate_limiter.py:298-355 | A send is refused exactly when some enabled ceiling that applies to it cannot be counted, or the recipients its agents sent to in that ceiling's own closed window leave no room for these |
| `SendRate.StepKeepsFitted` | gateway/execution.py:808-834 | Stamping after the check keeps it so: the row still fits its own, later window |
| `SendRate.OverlappingSendsExceed` | gateway/execution.py:808-834 | Serialisation is needed: two sends checked before either is stamped record twice the cap |
| `AuthAbuse.AuthAbuseProtector.StartAttempt` | gateway/security_controls.py:90-135 | Lockouts, window pruning and the decision as in `AfterAttempt` |
| `AuthAbuse.AuthAbuseProtector.RecordFailure` | gateway/security_controls.py:153-190 | Failure windows and lockouts of both keys as in `AfterFailure` |
| `AuthAbuse.AuthAbuseProtector.RecordSuccess` | gateway/security_controls.py:137-151 | Failures and lockouts of both keys cleared, counts kept |
| `AuthAbuse.WindowBound` | gateway/security_controls.py:90-135 | Over every run, allowed attempts per IP and per account in every half-open window never exceed their maxima |
| `AuthAbuse.AllowedIff` | gateway/security_controls.py:90-135 | An attempt is allowed exactly when neither key is locked and both windows have room, counted over the run's history |
| `AuthAbuse.LocksIff` | gateway/security_controls.py:153-190 | A key is locked by a failure exactly when the history holds enough failures in the window; nothing else moves its deadline |
| `AuthAbuse.CountIsLockouts` | gateway/security_controls.py:75-88 | The stored count is the number of lockouts in the history |
| `AuthAbuse.KthLockoutDuration` | gateway/security_controls.py:75-88 | The k-th lockout lasts min(base*2^(k-1), max) |
| `AuthAbuse.DeadlineNeverMovesBack` | gateway/security_controls.py:75-88 | A deadline never moves back unless a success clears it |
| `AuthAbuse.LockoutDenies` | gateway/security_controls.py:69-73 | An active lockout denies every attempt until its deadline unless a success clears it |
| `AuthAbuse.RefusalSays` | gateway/security_controls.py:90-135 | A refusal names its cause: a lockout of the address or else of the account, with the seconds until exactly that key is unlocked, or a full window, with its length |
| `AuthAbuse.FailureSays` | gateway/security_controls.py:153-190 | A failure reports a lockout exactly when it set one, and the longest wait it caused |
| `SecretCache.CachingSecretStore.Get` | gateway/secret_store.py:265-278 | A hit, a second look after waiting for the lock, or a fetch that is stored; other calls may change the cache in between |
| `SecretCache.CachingSecretStore.Store` | gateway/secret_store.py:247-255 | The new entry is in, no other appears, never more than max; below the limit nothing goes, at it every expired entry goes, and a live one only when that was not enough |
| `SecretCache.CacheRefinesStore` | gateway/secret_store.py:231-290 | Over every serial run of put, get, delete and invalidate, through any expiry and eviction, the replies are those of the plain store and at most max entries are held |
| `SecretCache.HitIsRecent` | gateway/secret_store.py:231-278 | After every serial run, an answer that leaves the store unread dates from a call on the same reference less than ttl ago; otherwise the store is read and its answer kept for ttl |

## Left out

- `UpstreamPump`: a UTF-8 replacement character in a rewritten line, the state sync of relayed lines and header extraction are not part of this model; the loop that reads an RFC822 literal inside one iteration is merged with the general literal state, which writes the same bytes.
- `ResponseLine`: a group number in a replacement text is read as decimal digits only, as Python 3.12 and later read it; `$` before a final newline in a pattern is not modelled.
- `UidSets`: signs and underscores, which Python's int() accepts inside a number, are refused.
- RelayFraming.RelayCommutesWithFraming: needs that no chunk boundary falls inside a response line, because the code passes on and forgets a partial line; CutLineEscapesFilter shows the need.
- RelayFraming.RelayCommutesWithFraming: a well-formed stream is one RFC 3501 allows in three respects: a line after a literal does not read as a response of its own, only the announcing marker ends a FETCH line in a braced number, and SEARCH and CAPABILITY lines carry no brace.
- Lifecycle.AtMostOnce: requests by agents and humans are single steps here; approval is check-then-act over an unconditional UPDATE, and `Overlap` has the exact condition when it is taken statement by statement.
- SendRate.EveryWindowBound: sends are serialised; OverlappingSendsExceed shows the need.
- AuditChain.HonestRunPasses: insert and commit are one atomic step; the lock is released before the caller commits, and several processes share the database.
- AuditChain.GatewayTamperEvidence: the hash is a parameter, injective, without separators in its values and never the genesis value; SHA-256 is not modelled.
- Undo.UndoNeverTouchesAStranger: assumes what section 2.3.1.1 of RFC 3501 and section 3 of RFC 4315 ask of a server: a name never re-announces a UIDVALIDITY with other meanings, and COPYUID codes are true.
- Undo.UndoNeverTouchesAStranger: SELECT and the command after it are one exchange; a mailbox deleted while selected is not modelled.
- Undo.Gateway.UndoOperation: the undo window is modelled as the stored deadline, which no code path sets.
- Mirror.RejectInvertsStageIff: restoring an existing row restores its flags only, as the code does; other columns a later sync may have changed are not compared.
- SecretCache.CacheRefinesStore: runs are serial except for the wait on the per-reference lock; a delete that overtakes a fetch in flight is not modelled.
- `ClientPump`: the stream is read as it will have arrived, so stalls, disconnects in mid-write and line-length limits of the reader are not modelled; classification is on ASCII letters.
- `Execution`: CREATE, RENAME and APPEND replays, Sent-folder discovery, SMTP relay, credential lookup and OAuth are not part of this model.
- `OperationParser`: descriptions, intents, batches and push notifications are presentational and left out.
- ExpiryLog.ExpiryRevertFitsIff: one expiry of one operation whose staging is the last change to the mirror; the reverts queued for the agent, and a revert that fails and is passed over, are not part of the step.
- Overlap.RelayedTwiceIff: one operation that has something to send; rejection and expiry are one step each, audit rows and undo are those of `Lifecycle`.
- Lifecycle.StrandedIff: a process that stops, or an exception other than ExecutionError, between a claim and its settling is not a step of the model; in the code either leaves the operation approved as well.
- UndoOnce.SecondUndoRefused: an undo is one step; two undos that both saw the operation executed are not modelled.
- Deadlines.PassesStartIff: a pass may start with any of the due operations, at most a hundred; that the code takes the earliest first is not modelled.
- Retention, which deletes chained audit rows, is left out: the chain does not promise anything across it.
- SQL statements and committed transactions are steps over maps and sequences; the SQLite engine, its pragmas and migrations are left out.
- Regular expressions are written out as functions over ASCII text; Unicode digits and case folding are left out.
