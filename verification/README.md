# win-gpg-agent: a verified model

This project models the parts of win-gpg-agent whose correctness depends on more than one
function, and proves what they promise for every input, every run or every reachable state:

- the Assuan stack: percent-escaping, lines on a byte stream, data transfer in chunks, error
  lines, the server's command loop, the client's command loop, and the inquiry exchange;
- the pinentry program on top of it: settings, password dialogs, the credential vault, and the
  client that mirrors the settings and fetches the password;
- the agent's relays: the framing loop for SSH requests, the accept loops and copy goroutines
  around one WaitGroup, and the bytes that pass in one relay direction;
- two shadow indexes: the sorted lists of visible menu items, and the names kept in `WSLENV`.

`dafny verify dfyconfig.toml` checks everything.

## How it is built

| file | what it holds |
|---|---|
| Escape.dfy | percent-encoding (section 2.1 of RFC 3986), and cuts inside a triplet |
| Wire.dfy | the bounded line scanner, the line parser, reading and writing lines |
| Transfer.dfy | WriteData, WriteDataReader, SimpleCmd's and ReadData's loops |
| Errors.dfy | error codes and ERR lines |
| Pipe.dfy | the pipe as a class: loops over an input and an output |
| Client.dfy, Server.dfy | the two sides of a session |
| Replies.dfy | what the server answers to each command, line by line |
| Lockstep.dfy, LockstepRun.dfy | their interleaved runs |
| Inquiry.dfy | Inquire's loop, and what arrives of the client's offers |
| InquiryRun.dfy | the inquiry exchange as a two-party step system, over every run |
| InquirySides.dfy | the two sides as the program has them, loops over a stream, against every run |
| Pinentry.dfy | the pinentry session and its histories |
| PinReplies.dfy | what pinentry answers to each command, and a cancellation on its way to the caller |
| PinClient.dfy | the pinentry client: what its calls send, return and copy |
| PinMirror.dfy | its copy of the settings against the server's, over every run |
| SshAgent.dfy, Relay.dfy | the agent's connectors |
| Menu.dfy, WslEnv.dfy | the two indexes |

Code that works by changing things in place is a class or a method with loops, proved against a
specification function; the properties are lemmas about those functions. Concurrent parts are
step systems: a predicate says which steps are possible, and the lemmas speak of all their runs.
A Go string is a byte string, each byte one `char`. A stream that a read empties is either closed,
and the read reports the end of input, or open, and the read has not returned yet (`Blocked`).
`bufio.Scanner` with `ScanLines` is a function: the text up to a line feed, without a CR before it,
if it fits the buffer with its line feed. `url.PathUnescape` is a partial function. The user, the
vault's failures, the registry's failures, the backend that answers SSH requests, the lock as it is
seen by each read, and the order in which Go iterates over a map are parameters.

## Where the code is not what its documentation or the protocol suggests

The model follows the code.

- `WriteData` is documented as sending the bytes it is given (assuan/common/io.go:139-141), but it
  cuts the escaped text, so a cut can split a triplet and the reader then fails (`Transfer.CutPayload`).
- `WriteLine` refuses long lines (assuan/common/io.go:111-116), but measures before escaping, so it
  also writes lines no reader accepts (`Wire.AcceptedOverflowsIff`, `Errors.AcceptedErrorOverflows`).
- `ReadData` unescapes what `ReadLine` has unescaped (assuan/common/io.go:101 and 201;
  `Transfer.DoublyDecoded`).
- `WriteDataReader` is documented as sending until EOF (assuan/common/io.go:157-158), but drops the bytes
  that a reader returns together with EOF, without an error (`Transfer.ReaderSentIff`,
  `Transfer.LastReadDropped`).
- `Inquire` has a branch that reports a protocol error to the client (assuan/server/inquire.go:46-52), but
  `ReadData` returns its errors by value while the branch looks for a pointer, and so does `handleCmd`; a
  handler that passes the error on ends the command loop without a reply (`Inquiry.PassedOnEndsSession`),
  and the client of an offer that `ReadData` fails on waits (`InquiryRun.ExchangeEnds`,
  `InquiryRun.PercentStrands`).
- A reader offered to an inquiry is exhausted by its first use; a keyword asked for twice ends up with
  nothing (`InquiryRun.OwnPayloadsIff`, `Inquiry.AskedTwice`, `InquiryRun.SecondReadIsEmpty`).
- A client with an unusable offer leaves Transact without a word to the server, which waits
  (assuan/client/session.go:224-225; `InquiryRun.ExchangeEnds`, `InquiryRun.UnusableStrands`).
- Only a failed vault read in GETPIN turns caching off (cmd/pinentry/main.go:53-58); after one in
  CLEARPASSPHRASE passwords are still saved (`PinentryHistory.FailedReadTurnsOffIff`,
  `PinentryHistory.SavesAfterFailedClear`).
- A rejected OPTION is answered ERR and also OK (assuan/server/server.go:219-232), which shifts the
  answers of all later commands by one (`PinMirror.AnswerMisplaced`).
- `BYE` is answered, and the loop goes on (assuan/server/server.go:84-89; `Server.ByeGoesOn`).
- The list of built-in commands has eight elements for seven names, so HELP sends an empty comment
  (`Server.HelpListsAll`).
- The error for an unknown option (pinentry/server.go:217-220) holds a colon, which the decoder's
  pattern does not admit; the client reports malformed arguments (`Errors.UnknownOptionIsMalformed`).
- `CLEARPASSPHRASE` trims its parameter and `SETKEYINFO` does not, so a key with a blank at an end
  cannot be cleared (`PinentryHistory.UnclearableKey`).
- The client's `Reset` resets the server's settings and not the client's copy of them
  (`PinMirror.ResetForgets`).
- The quality-bar path of the client does not end when the password is empty, and truncates one
  that needs two data lines (`PinClient.QualityPathIff`).
- `serveSSH` returns nil for a cut header and an error for a clean end of input
  (agent/connector.go:580-585; `SshAgent.ReturnsNilIff`, `SshAgent.CleanEndIsAnError`).
- A relay direction that times out while writing goes on and leaves a gap (agent/connector.go:186-189;
  `RelayDirection.GapHappens`).
- `CleanUserEnvironmentVariable` is documented to reverse the settings (util/setenv.go:91), but a
  value that was there before is not put back, a variable whose list update failed is not deleted, and
  `WSLENV` loses empty parts and what others had under the names (`WslEnv.RestoredIff`,
  `WslEnv.ListRestoredIff`, `WslEnv.RegistryRestoredIff`; `WslEnv.PreviousValueLost` and
  `WslEnv.NewValueStays` are inputs).
- A menu update that fails falls through to an insertion and can show the item twice
  (`Menu.ShownTwice`); a separator that is not inserted stays in the index (`Menu.LostSeparatorBreaks`);
  so does the native item when `DeleteMenu` fails with ERROR_SUCCESS, while the index loses it
  (`Menu.QuietRefusalBreaks`).

## Model

The main results come first, then the laws they rest on and the operations, module by module.

| member | source | states |
|---|---|---|
| Transfer.WriteDataRoundTripIff | assuan/common/io.go:142-155 | for every payload: SimpleCmd reads back exactly what WriteData and an OK wrote if and only if no 997-byte cut of the escaped text falls inside a `%XX` triplet; otherwise the read fails, so different bytes are never returned |
| Transfer.CutDataFails | assuan/common/io.go:143-153 | with bad cuts, the read fails with a bad escape on exactly the line before the first one, and every later line is left unread |
| Transfer.DataLinesBound | assuan/common/io.go:145-152 | every line WriteData writes is at most 1000 bytes with its line feed, all but the last are exactly that, their number is the escaped length over 997 rounded up, and they hold the whole escaped text |
| Transfer.ReadDataRoundTripIff | assuan/common/io.go:182-208 | for a payload WriteData delivers, ReadData returns it if and only if it holds no `%`; otherwise it fails or returns a strictly shorter string, since each chunk is unescaped a second time |
| Transfer.ReaderDeliveredIff | assuan/common/io.go:159-179 | for every reader and a pipe with any limit: all blocks are delivered in order if and only if each makes a line of n + 2e + 3 bytes within the limit; otherwise the blocks before the first oversized one are, and the read fails as too long |
| Transfer.ReaderSentIff | assuan/common/io.go:164-170 | for every reader: all the bytes it returns are sent if and only if none come with the end of input or with its failure |
| LockstepRun.ResultsAreAnswers | assuan/client/session.go:148-174 | in every interleaving of a client's SimpleCmd calls and the server's loop, the results are in order a prefix of the answers to the commands handled, HELP comments and data lines included |
| LockstepRun.UnreadAreRejections | assuan/server/server.go:219-234 | between calls, with the server caught up, the unread OK and ERR lines number exactly the OPTIONs that SetOption has rejected so far, each of which was answered ERR and OK |
| LockstepRun.NothingLeftOver | assuan/server/server.go:59-148 | with none rejected, a finished call leaves both channels empty, and the k-th result, data included, is the answer to the k-th command |
| LockstepRun.NoCallHangs | assuan/client/session.go:156-173 | in every reachable state no side meets a line it cannot read, and while a live session has a call waiting there is a next step, unless the command to be handled next makes the server write a line that does not fit |
| LockstepRun.RunsServeTheLoop | assuan/server/server.go:59-148 | in every interleaving: what the client has read after the greeting, what is in the channel and what the server is about to write are together exactly what Serve's loop writes for the bytes of the commands handled so far, each of which finds the state its predecessor left |
| InquiryRun.ExchangeTerminates | assuan/server/inquire.go:35-63 | whatever the keywords and the offers, no run of Transact against Inquire is longer than a bound computed from the keywords and the lines of their offers |
| InquiryRun.ExchangeEnds | assuan/client/session.go:179-247 | whatever the keywords and the offers, every run that cannot go on ends in one way: if every keyword is served, with both channels drained, the client answered OK and the server holding what arrived; otherwise as the first keyword not served says, for a question too long to send or to read, a missing or unusable offer, and an offer ReadData fails on, with what either side waits for and what is left unread |
| InquiryRun.OwnPayloadsIff | assuan/server/inquire.go:36-60 | with every keyword offered, over every run to its end: the server replies if and only if every offer arrives, and its map is then each keyword's last arrival; it replies with each keyword's own payload if and only if no payload holds a `%`, has a bad cut or an oversized block, and no reader that holds something is asked for twice |
| InquirySides.RunsEndAsTheLoops | assuan/client/session.go:179-247 | whatever the keywords and the offers, every run that cannot go on ends as the two sequential loops do: Inquire on the bytes the client sends writes exactly the server's part of the exchange, Transact on those bytes writes exactly the client's, and result, outcome and the bytes left unread are the same as in the run |
| InquirySides.InquireCollectsAll | assuan/server/inquire.go:35-63 | for every keyword list, repeated ones included, and the bytes of offers that all arrive, one after the other: Inquire asks for each keyword in order, returns exactly the keywords, each with what arrives of its offer when it is last asked for, and leaves nothing unread |
| Inquiry.ArrivesWholeIff | assuan/server/inquire.go:43-59 | an offer is received by ReadData as it was offered if and only if it is of a usable type, holds no `%`, and has no bad cut and no block whose line is too long |
| Inquiry.GatheredIsOwnPayloadIff | assuan/server/inquire.go:36-60 | for every list of keywords whose offers arrive, repeated ones included: the server's map has each keyword with its own payload and nothing else if and only if every payload can be carried whole and no reader that holds something is asked for twice |
| PinentryHistory.RepeatedPin | cmd/pinentry/main.go:94-138 | for every vault and stream of answers, GETPIN with a repeat prompt never depends on the vault, returns exactly the password typed twice in the first matching attempt, sends PIN_REPEATED exactly then, and saves exactly when allowed, asked for and not empty |
| PinentryHistory.DialogsAlternate | cmd/pinentry/main.go:109-132 | the k-th dialog is the first or the second of attempt k/2, with that attempt's error message, and only the first can offer to save |
| PinentryHistory.CachedPinIsLastSaved | cmd/pinentry/main.go:52-67 | after every command history, a GETPIN marks its reply PASSWORD_FROM_CACHE if and only if it may use the cache, can read it and finds something, and then returns the password last saved under the KeyInfo in force and not cleared since |
| PinentryHistory.VaultFollowsHistory | cmd/pinentry/main.go:69-76 | after every command history the vault holds under every key exactly what was last saved and not cleared |
| PinentryHistory.StoredPasswordsNotEmpty | cmd/pinentry/main.go:134-137 | no history stores an empty password |
| PinentryHistory.FailedReadStopsSaving | cmd/pinentry/main.go:53-58 | after a GETPIN whose vault read failed, neither it nor any later command saves a password until the caching option is sent again, RESET included |
| PinentryHistory.TurnedOffIff | cmd/pinentry/main.go:53-58 | of all commands, exactly two turn caching off: a GETPIN that tries the cache and cannot read the vault, and a RESET to settings without it |
| PinentryHistory.FailedReadTurnsOffIff | pinentry/server.go:99-107 | of the commands that read the vault, GETPIN and CLEARPASSPHRASE, a failed read turns caching off if and only if the command is GETPIN |
| PinentryHistory.NothingSavedUnasked | pinentry/server.go:208-211 | a session that has not been sent the caching option, and does not start with it, saves nothing and keeps the option off |
| PinentryHistory.ClearableIff | pinentry/server.go:99-118 | a stored key can be cleared by some CLEARPASSPHRASE if and only if it has no blank at either end |
| PinentryHistory.UnclearableKey | pinentry/server.go:99-118 | a history that saves a password under a key no CLEARPASSPHRASE removes |
| PinentryHistory.SavesAfterFailedClear | pinentry/server.go:99-107 | at an input: a CLEARPASSPHRASE that cannot read the vault, and a GETPIN after it that saves |
| PinReplies.GetPinReply | cmd/pinentry/main.go:92-139 | in every world and for every stream of answers: a password cached or typed is sent as data followed by OK; a cancellation is answered by the status lines and the line `ERR 83886179 operation canceled <pinentry>` and nothing else; without either there is no last line |
| PinReplies.GetPinOkIff | pinentry/server.go:271-281 | the reply to GETPIN ends in OK if and only if a password is cached and used, or given by the user |
| PinReplies.CancelReachesCaller | pinentry/client.go:219-290 | end to end, in every world: a cancelled GETPIN returns to the caller, on the plain path and on the quality-bar path, as the server's ERR, which decodes to source 5, code 99 and `operation canceled` |
| SshAgent.EveryInputInOrder | agent/connector.go:571-629 | for every input, backend and history of the lock: one frame per well-formed request of the input, in order, up to the first zero, oversized or truncated one or the first oversized reply, the backend asked exactly the requests seen unlocked, and why the loop returns |
| SshAgent.ReturnsNilIff | agent/connector.go:580-585 | for every input: nil is returned if and only if every well-formed request was answered and one to three bytes follow them |
| SshAgent.OutputIsReadBack | agent/connector.go:621-627 | the output, read by the same framing, is exactly the replies to the requests answered, with nothing left over: each frame is a big-endian length in 1..262140 and that many bytes |
| SshAgent.RepliesAre | agent/connector.go:600-627 | for every input and every request of it, on the output bytes: the i-th reply read back is the byte 5 if the lock was set or the backend failed, the byte 6 if the backend's reply was empty, and otherwise the backend's own bytes; the first request left unanswered is one whose reply is over 262140 bytes |
| SshAgent.AskedAre | agent/connector.go:604-615 | for every input: the backend is asked every request seen unlocked, in its place among those, the one whose reply is too large included, and nothing else |
| SshAgent.LockedNeverAsks | agent/connector.go:604-607 | a session locked from some request on asks the backend nothing from there on |
| WaitGroup.CounterIsOwed | agent/connector.go:161-176 | in every interleaving the counter equals the Done calls still owed, is never negative, and every inner Add and every Done happens while it is at least one |
| WaitGroup.ZeroIsFinalIff | agent/connector.go:253-266 | a zero counter stays zero in every continuation if and only if all accept loops have returned |
| WaitGroup.ConnectionsLetGo | agent/connector.go:161-203 | in every interleaving: once the accept loops have returned and the counter is zero, Done has been called exactly twice for every Assuan connection accepted and once for every SSH connection |
| RelayDirection.ReadTimeoutsKeepPrefix | agent/connector.go:179-203 | if timeouts strike only reads, the bytes forwarded over any number of rounds are a prefix of the bytes received |
| RelayDirection.PrefixIff | agent/connector.go:184-191 | for every row of rounds, with each byte tagged by its place in the stream: what is forwarded is a prefix of what is received if and only if no round writes after an earlier one lost bytes |
| RelayDirection.AtMostOneMoreCopy | agent/connector.go:205-228 | while the lock stays set, a direction starts at most one further copy, and only if it had read the lock before it was set |
| Menu.MenuAlwaysAgreesIff | systray/systray_windows.go:542-680 | through a history of adds, updates, separators and hidings with any native failures, every parent's list is all the time sorted and equal, as a sequence, to its native menu if and only if two failures never strike: a separator that is not inserted, and DeleteMenu refusing a listed item with ERROR_SUCCESS |
| Menu.InsertAtFirstIndex | systray/systray_windows.go:723-744 | inserting an id at its first index in the sorted list with the id added gives that list, and removing the id gives the list before |
| Menu.ItemsAfterAdd | systray/systray_windows.go:584-625 | the items after an addition, in every combination of failures |
| Menu.DuplicateIff | systray/systray_windows.go:596-624 | an item is shown twice after an addition if and only if it was there, its update failed and its insertion did not |
| WslEnv.SetThenClean | cmd/agent/main.go:100-141 | for every WSLENV, setVars followed by its cleaner, whether setVars got to the end or failed on the way, leaves in the list exactly the original non-empty entries that start with none of the names done; the values set are gone and not restored; a variable whose list update failed keeps its new value; every other value is unchanged |
| WslEnv.RestoredIff | util/setenv.go:91-103 | the value of any key but WSLENV is afterwards what it was if and only if no variable done sets it or it had none, and the variable left behind by a failed list update, if it is this one, had that value already |
| WslEnv.ListRestoredIff | util/setenv.go:91-139 | WSLENV is afterwards what it was if and only if no variable done is registered, or its value was its list written out, without empty parts, and none of its entries starts with a registered name done |
| WslEnv.RegistryRestoredIff | util/setenv.go:91-139 | the whole registry is afterwards what it was if and only if the list stays, every variable done was absent before, and the one left behind had its value already |
| WslEnv.PreparedList | util/setenv.go:66-81 | while the variables are set, the list is the entries of others, in their order, followed by one entry for each name |
| WslEnv.OneEntryEach | util/setenv.go:68-81 | while the variables are set, exactly one entry starts with each registered name, and it is the name's own |
| WslEnv.EntriesLook | util/setenv.go:76-80 | while the variables are set, the only entry that starts with a registered name is the name followed by `/up` if its value is a path to translate and by `/u` if not |
| WslEnv.OwnListLooks | cmd/agent/main.go:100-141 | what setVars makes of an empty registry when all seven values are there: the seven values, and a WSLENV of the six names with their suffixes, in order, with a colon between any two |
| WslEnv.WslenvAfterClean | util/setenv.go:116-139 | WSLENV afterwards: untouched if nothing was registered, otherwise the list that is left, and deleted if that is empty |
| WslEnv.PrepareTwice | cmd/agent/main.go:131-140 | setting all variables twice is setting them once |
| Errors.ErrorRoundTripIff | assuan/common/error.go:61-88 | an ERR line written for any error is decoded to the same code, the source modulo 128, the mapped source name and the trimmed message if and only if the message and the name match the decoder's pattern; every other error decodes to a malformed ERR |
| Errors.ErrorOverThePipe | assuan/common/io.go:216-218 | end to end for every error: what WriteError writes is read and decoded to the same code, the source modulo 128, the mapped name and the trimmed message if and only if the line fits and message and name match the pattern; a line that does not fit is refused, one that does not match is malformed |
| Errors.ErrorArrives | assuan/common/error.go:61-88 | end to end: a message of words without outer white space is decoded exactly as it was sent, and so is the source name, unless it spells `user defined source 1` in any case, which becomes `Assuan` |
| Errors.TrimSpaceIs | assuan/common/error.go:75 | every text is white space, the trimmed text, and white space, and the trimmed text has none at either end |
| PinClient.PlainPathIff | pinentry/client.go:224-228 | for every password: the plain client path returns exactly what the server's GETPIN sent, the empty password included, and takes the whole reply, if and only if no cut of its escaped text splits a triplet; otherwise it fails |
| PinClient.QualityPathIff | pinentry/client.go:231-290 | for every password: the quality-bar path returns it if and only if it is not empty and escapes to at most 997 bytes; an empty one leaves the call waiting; a longer one fails if one of its first two cuts splits a triplet, and otherwise arrives cut, with lines left in the channel |
| PinClient.DialogPasswordFitsOneLine | util/credui.go:180-201 | whatever the dialog can return, at most 256 UTF-16 units, escapes to at most 768 bytes and is one data line without a bad cut |
| PinClient.DialogPasswordArrives | pinentry/server.go:271-281 | end to end, in every world: a password the dialog can return, sent by the server's command loop, reaches the caller of the plain path whatever it is, and of the quality-bar path if and only if it is not empty |
| PinMirror.SettingsMirrored | pinentry/client.go:69-166 | over every interleaved run of a client making setter, Apply, Reset and other calls against the pinentry server: between calls, with no OPTION rejected, all setters and Resets were answered OK; the client's copy and the server agree on a text set if and only if no Reset came after it or the text is the default, and on a timeout set if and only if no Reset came after and it is in whole seconds, or it is the default; and what both sides have in fields never set |
| PinMirror.ApplyMirrored | pinentry/client.go:179-215 | after an Apply whose calls were all answered, whatever came before, both sides have its text in every field, and its timeout if that is in whole seconds |
| Escape.UnescapeEscape | assuan/common/escape.go:13-23 | unescaping inverts escaping on every byte string |
| Escape.EscapeConcat | assuan/common/escape.go:13-15 | escaping distributes over concatenation |
| Escape.EscapeLength | assuan/common/escape.go:13-15 | the escaped length is the length plus 2 for every escapable byte |
| Escape.EscapeAlphabet | assuan/common/escape.go:8-15 | escaped text holds no CR, LF or backslash, and is empty only for empty text |
| Escape.UnescapeAppend | assuan/common/escape.go:20-23 | unescaping distributes over concatenation after a text that can be unescaped |
| Escape.UnescapeIsIdentityIff | assuan/common/escape.go:20-23 | unescaping is the identity exactly on text without `%`, never lengthens, and strictly shortens text with one |
| Escape.SplitAtBoundary | assuan/common/io.go:146-148 | a position outside all triplets of the escaped text splits the payload as well |
| Escape.CutPrefixFails | assuan/common/io.go:146-148 | a prefix that ends inside a triplet cannot be unescaped |
| Escape.EscapesFour | assuan/common/escape.go:8-15 | CR, LF, `%` and backslash become `%0D`, `%0A`, `%25` and `%5C`; every other byte stays |
| Escape.TripletIs | assuan/common/escape.go:18-23 | a triplet stands for the byte its two hexadecimal digits spell, in either case |
| Escape.UnescapeFailsIff | assuan/common/escape.go:18-23 | unescaping fails if and only if some `%` is not followed by two hexadecimal digits |
| Wire.WriteReadIff | assuan/common/io.go:73-130 | a written line is read back as its message, the command upper-cased, if and only if the written line fits; otherwise the read fails as too long |
| Wire.WritesReadBack | assuan/common/io.go:73-130 | any sequence of writes whose lines fit is read back as exactly the non-comment, non-status ones in order |
| Wire.LineLength | assuan/common/io.go:113-129 | the written length: command, blank, parameters, line feed and 2 for every escapable byte |
| Wire.AcceptedFits | assuan/common/io.go:114-124 | WriteLine's check is enough for parameters without escapable bytes |
| Wire.AcceptedOverflowsIff | assuan/common/io.go:114-124 | a command, comment or status has parameters that WriteLine accepts and the reader refuses if and only if it is at most 997 bytes long |
| Wire.OverflowRefused | assuan/common/io.go:76-82 | a written line that does not fit is refused, whatever it is |
| Wire.CleanLine | assuan/common/io.go:80-106 | the parser on a written line: passed over, or the written message with its command upper-cased |
| Wire.CarriageReturnDropped | assuan/common/io.go:76-83 | a CR before the line feed makes no difference |
| Wire.LastLineRead | assuan/common/io.go:76-83 | the last line of a closed stream needs no line feed |
| Wire.BlankPassedOver | assuan/common/io.go:86-88 | a line of white space is passed over |
| Wire.CaseMakesNoDifference | assuan/common/io.go:122-127 | how the caller spells the command makes no difference to the line written |
| Wire.ReadIsStable | assuan/common/io.go:73-109 | what a read has delivered does not depend on bytes that arrive later |
| Transfer.DataDelivered | assuan/client/session.go:156-173 | a payload without a bad cut is appended byte for byte by the client's loop |
| Transfer.LastReadDropped | assuan/common/io.go:164-167 | at an input: bytes returned together with the end of input are not sent, and no error is reported |
| Transfer.ReaderFailsIff | assuan/common/io.go:164-176 | sending a reader fails exactly if one of its reads does, with only successful ones before it |
| Transfer.BlockLineReadIff | assuan/common/io.go:159-179 | a block of a reader travels in one line that is read back as the block if and only if it fits the pipe's limit: n + 2e + 3 bytes for n bytes of which e are escapable |
| Transfer.BlockLineLength | assuan/common/io.go:159-179 | such a line is n + 2e + 3 bytes, at most 2994 for a block of at most 997 |
| Transfer.BlocksDelivered | assuan/client/session.go:156-173 | blocks whose lines fit 1000 bytes are appended one after the other by the client's loop |
| Transfer.ReaderAlwaysArrives | assuan/common/io.go:61-67 | on an unrestricted pipe a reader of blocks of at most 997 bytes is always delivered whole |
| Transfer.ReaderAnsweredIff | assuan/client/session.go:156-173 | the client's loop gets the whole content of a reader if and only if every block's line fits 1000 bytes; otherwise it fails there and leaves the rest unread |
| Transfer.CutPayload | assuan/common/io.go:143-150 | a payload with a bad cut, and the client's failing read of it |
| Transfer.DoublyDecoded | assuan/common/io.go:201 | a payload without a bad cut that ReadData does not return |
| Transfer.CutFreeBlocks | assuan/common/io.go:142-155 | without a bad cut, WriteData writes the lines of some reader of the same content |
| Transfer.TwiceIsIdentityIff | assuan/common/io.go:196-204 | unescaping blocks a second time gives the content back if and only if it holds no `%`, and a shorter one otherwise |
| Transfer.OthersPassedOver | assuan/client/session.go:163-172 | SimpleCmd's loop passes over a message that is neither data nor OK nor ERR |
| Transfer.OthersEndData | assuan/common/io.go:193-199 | any message but data and END ends ReadData: a cancellation for CAN, an unexpected command for the others |
| Transfer.BlocksReadTwice | assuan/common/io.go:182-208 | ReadData over the lines of some blocks returns their second unescaping, or fails where one cannot be unescaped |
| Errors.CodeRoundTrip | assuan/common/error.go:90-98 | splitting a packed code gives the source modulo 128 and the code; the packed value is at most 2130771967 |
| Errors.AcceptedErrorOverflows | assuan/common/io.go:113-118 | errors that WriteError accepts and no reader does |
| Errors.PlainErrorDecodes | assuan/common/error.go:61-88 | an ERR line without a source, for every message without `<`: decoded, with an empty name, if and only if the message is words |
| Errors.SourceIs | assuan/common/error.go:52-58 | the source name is mapped to `Assuan` exactly if it spells `user defined source 1` in any case, and is unchanged otherwise |
| Errors.WordCharsAre | assuan/common/error.go:50 | the pattern's class by byte values: digits, letters, underscore and blank |
| Errors.DecodesIff | assuan/common/error.go:50-74 | the decoder accepts exactly the parameters that are one to ten digits, a blank, a description of words, and either nothing or a source of words in angle brackets |
| Errors.MatchDecodes | assuan/common/error.go:61-88 | such a line is decoded to its own description, trimmed, and its own source, mapped |
| Errors.SplitIs | assuan/common/error.go:91-94 | any number is split into the eight bits above its lower 24 and its lowest sixteen |
| Errors.DigitsRoundTrip | assuan/common/error.go:74-83 | the code survives printing and parsing in decimal |
| Errors.TailMatchesIff | assuan/common/error.go:50-77 | when the decoder's pattern matches the rest of an ERR line, and what it cuts out of it |
| Errors.UnknownOptionIsMalformed | pinentry/server.go:217-220 | the error for an unknown option holds a colon and so is never decoded by the client |
| Pipes.Pipe.constructor | assuan/common/io.go:33-44 | a new pipe reads with the restricted buffer |
| Pipes.Pipe.RestrictInputLen | assuan/common/io.go:61-67 | the line limit becomes 1000 or 64 KiB |
| Pipes.Pipe.ScanLine | assuan/common/io.go:74-79 | one token of the scanner, taken off the input |
| Pipes.Pipe.ReadLine | assuan/common/io.go:73-109 | delivers the first line that is not ignored, or the failure, and leaves the rest |
| Pipes.Pipe.WriteLine | assuan/common/io.go:113-130 | writes the escaped line, or nothing if the unescaped one is too long |
| Pipes.Pipe.WriteComment | assuan/common/io.go:211-213 | a comment line, under the same check |
| Pipes.Pipe.WriteError | assuan/common/io.go:216-218 | an ERR line, under the same check |
| Pipes.Pipe.WriteData | assuan/common/io.go:142-155 | the loop appends exactly the data lines of the payload |
| Pipes.Pipe.WriteDataReader | assuan/common/io.go:159-179 | the loop appends one data line for each read until the first that returns an error, drops the bytes of that one, and reports it unless it is the end of input |
| Pipes.Pipe.ReadData | assuan/common/io.go:182-208 | collects data lines up to END, fails on ERR, CAN and unexpected commands, as the specification function says |
| Client.Session.Init | assuan/client/session.go:84-96 | takes one line off the input; there is a session if and only if there was a line to read |
| Client.Session.SimpleCmd | assuan/client/session.go:148-174 | writes the command and returns the joined data, the ERR or the failed read; what it leaves unread |
| Client.Session.WriteOffer | assuan/client/session.go:204-226 | the lines for an offered value, nothing for a type it does not know |
| Client.Session.AnswerInquiry | assuan/client/session.go:192-232 | the lines answered to one inquiry, and whether Transact gives up |
| Client.Session.Transact | assuan/client/session.go:179-247 | writes the command, then follows the loop's specification: what is sent, the outcome, what is left unread |
| Client.Session.AnswerServer | assuan/client/session.go:186-246 | the loop itself against that specification |
| Server.Server.constructor | assuan/server/server.go:59-63 | the session starts with the protocol's handlers and state |
| Server.Server.HelpCmd | assuan/server/server.go:150-191 | one comment for each help line or command name, eight built-in ones with the empty last, then OK; stops at the first refused write |
| Server.Server.OptionCmd | assuan/server/server.go:198-234 | the option is split and set; a rejected one is answered ERR and then OK |
| Server.Server.RunHandler | assuan/server/server.go:113-147 | unknown command, or the handler's lines followed by OK or its error; any other error ends the session |
| Server.Server.HandleCmd | assuan/server/server.go:82-148 | one command: the lines written, the new state, and whether the session goes on |
| Server.Server.ServeCommands | assuan/server/server.go:69-79 | the loop writes exactly the replies to the commands of the input, until it ends or a command is fatal |
| Server.Server.Serve | assuan/server/server.go:59-80 | greeting first, then the commands; BYE is answered and the loop goes on |
| Server.ByeGoesOn | assuan/server/server.go:84-89 | after BYE and its OK the loop answers whatever comes next |
| Server.HelpListsAll | assuan/server/server.go:174-189 | HELP writes a comment for each of the seven built-in names, a bare number sign for the eighth element of the array, one comment for each handler, then OK, and goes on |
| Replies.ByeAndNop | assuan/server/server.go:84-89 | BYE and NOP are answered OK, and the session goes on unchanged |
| Server.WritesUpTo | assuan/server/server.go:165-188 | of consecutive writes, exactly those before the first that is refused are written |
| Server.StatusWritten | cmd/pinentry/main.go:44-50 | a status line is written exactly if its text is at most 997 bytes before escaping |
| Replies.HelpOfCommand | assuan/server/server.go:153-173 | HELP of a command: its texts as comments and OK, or `ERR 251658267 not found <assuan>` |
| Replies.UnknownCommand | assuan/server/server.go:115-126 | a command without a handler is answered `ERR 251658515 unknown IPC command <assuan>`, and the session goes on unchanged |
| Replies.ResetByDefault | assuan/server/server.go:105-113 | RESET without a handler is answered OK and keeps the state; a handler table gets the default handler, a missing table stays missing |
| Replies.OptionReplies | assuan/server/server.go:198-234 | OPTION in every branch, with the literal ERR lines: the lines written, the state it leaves for the next command, and whether the session goes on |
| Replies.SplitOptionIff | assuan/server/server.go:41-53 | a parameter splits into a key and a value if and only if it is the key alone, or the key, one blank or equals sign, and a value without a line feed; the key is not empty and of letters, digits, `_` and `-` |
| LockstepRun.ServeLoopIsHistory | assuan/server/server.go:59-148 | Serve's loop on the lines of some calls writes the replies of the history in which each command finds the state its predecessor left, and goes on with what follows exactly if the last one left the session running |
| Lockstep.HandleDelivers | assuan/server/server.go:82-148 | whatever the command, a client reading the reply gets exactly the command's answers: one, two for a rejected OPTION, none when the session ends |
| Lockstep.OptionDelivers | assuan/server/server.go:198-234 | the reply to OPTION in every branch |
| Lockstep.RunDelivers | assuan/server/server.go:113-147 | the reply of a handler: its blocks joined, or its error |
| Lockstep.EmitsRead | assuan/client/session.go:156-173 | status lines add nothing to the client's data, blocks exactly their bytes |
| LockstepRun.HistoryDelivers | assuan/server/server.go:68-79 | a client that reads all replies of a history gets exactly the answers, one per command and one more per rejected OPTION |
| LockstepRun.RunKeeps | assuan/server/server.go:68-79 | every reachable state splits the server's output into what the client has seen, what is in the channel and what is still to be written |
| LockstepRun.NextKeeps | assuan/server/server.go:68-79 | every step of either side keeps that invariant |
| PinMirror.AnswerMisplaced | assuan/server/server.go:219-234 | after an OPTION the pinentry server rejects, the next call gets the OK left over and not its own answer |
| Inquiry.Inquire | assuan/server/inquire.go:35-63 | the loop against its specification: the lines written, the map or the reason it has none, what is left unread |
| InquirySides.InquireOnAnswers | assuan/server/inquire.go:35-63 | for every keyword list and all offers, arriving or not: what Inquire writes, returns and leaves unread on everything the client sends |
| InquirySides.TransactOnQuestions | assuan/client/session.go:179-247 | for every keyword list and all offers: what Transact sends, how it ends and what it leaves unread on everything the server writes |
| InquirySides.TransactIsSimple | assuan/client/session.go:179-247 | on a stream without an INQUIRE, Transact reads exactly as SimpleCmd does and sends nothing |
| InquirySides.StreamIsReadData | assuan/common/io.go:182-208 | ReadData on an offer's lines is the same whatever follows them, on an open stream or a closed one |
| InquiryRun.Step | assuan/server/inquire.go:35-63 | every step of either side keeps one of eight phases of the exchange and lowers the measure |
| InquiryRun.CanGoOn | assuan/client/session.go:186-246 | no deadlock: in every phase but the two final ones a side can take a step |
| Inquiry.GatheredAre | assuan/server/inquire.go:36-60 | the server's map, keyword by keyword, for every list of offered keywords |
| Inquiry.ReceiveIsReadData | assuan/common/io.go:182-208 | reading line by line is ReadData on the bytes of the lines: what it returns and what it leaves unread |
| Inquiry.ArrivalIs | assuan/common/io.go:182-208 | what ReadData makes of the lines of an offer: a payload with nothing left, or a failed read of a line too long or one that cannot be unescaped |
| Inquiry.AskedTwice | assuan/server/inquire.go:36-60 | at an input: a reader asked for twice ends up with nothing |
| Inquiry.PassedOnEndsSession | assuan/server/server.go:113-147 | a handler that returns Inquire's error is answered OK and the command loop goes on if and only if everything was collected; otherwise nothing is reported and the loop ends |
| InquiryRun.PercentStrands | assuan/server/inquire.go:43-59 | at an input: a payload of one percent sign leaves the server stopped, the client waiting and END unread |
| InquiryRun.UnusableStrands | assuan/client/session.go:224-225 | at an input: the client leaves over an offer of a type it does not know, and the server goes on waiting for an answer |
| InquiryRun.SecondReadIsEmpty | assuan/client/session.go:186-226 | at an input: every run to the end with a reader asked for twice leaves the server with nothing of it |
| Pinentry.ApplyIsHandle | pinentry/server.go:255-322 | the world after a command is the one the server's loop leaves |
| PinentryHistory.SinglePin | cmd/pinentry/main.go:94-138 | without a repeat prompt, one dialog is shown exactly when the cache does not answer; its password is returned, and saved exactly if caching is still allowed after the read, asked for and the password not empty |
| Pinentry.Session.constructor | pinentry/server.go:255-262 | the session's fields are those of the world it starts from |
| Pinentry.Session.GetCachedCredential | cmd/pinentry/main.go:52-67 | an unreadable vault turns caching off; a stored password is returned with its status |
| Pinentry.Session.PromptUser | cmd/pinentry/main.go:109-132 | the loop over attempts against the recursive specification of dialogs and answers |
| Pinentry.Session.GetPIN | cmd/pinentry/main.go:92-139 | cache, prompts and saving: result, statuses, dialogs, settings and vault |
| Pinentry.Session.GetPinCommand | pinentry/server.go:262-282 | the GETPIN handler: status lines, the password as data, or the error |
| Pinentry.Session.ClearPassphrase | pinentry/server.go:99-118 | deletes the credential of the trimmed parameter, with the errors of a failed read or delete |
| Pinentry.Session.Command | pinentry/server.go:35-159 | every other handler: the settings it changes and what it answers |
| PinReplies.ConfirmReply | pinentry/server.go:283-306 | CONFIRM is answered OK if and only if the user confirms, and otherwise `ERR 83886179 operation canceled <pinentry>`; its parameters are kept and one answer is used up |
| PinReplies.SetKeyInfoReply | pinentry/server.go:147-154 | SETKEYINFO is answered OK; `--clear` and the empty parameter leave no key in force, anything else is the key, and nothing else changes |
| PinReplies.SetterReply | pinentry/server.go:35-86 | each of the thirteen text setters is answered OK and changes its own setting and nothing else |
| PinReplies.TimeoutReply | pinentry/server.go:87-97 | SETTIMEOUT: a number is a timeout in seconds, anything else is answered `ERR 83886341 invalid timeout value <pinentry>` and changes nothing |
| PinReplies.NumbersRead | pinentry/server.go:88-94 | digits after at most one sign are a number if 64 bits hold it, and none otherwise |
| PinReplies.NumbersAre | pinentry/server.go:88-94 | nothing else is one |
| PinReplies.ClearReply | pinentry/server.go:99-118 | CLEARPASSPHRASE deletes what is stored under the trimmed key and is answered OK, also if nothing is stored; its two failures have their own ERR lines and leave the vault as it is |
| PinReplies.TrimBlanksIs | pinentry/server.go:100 | trimming takes all the blanks off both ends and nothing else |
| PinReplies.InfoReply | pinentry/server.go:120-145 | GETINFO in every branch, with its literal data lines and its ERR line |
| PinReplies.ResetReply | pinentry/server.go:156-159 | RESET goes back to the settings of the start and keeps the vault |
| PinReplies.OptionReply | pinentry/server.go:161-221 | OPTION with a known key sets that option alone and is answered OK; with an unknown one it changes nothing and is answered ERR and OK |
| PinReplies.RepeatDialogs | cmd/pinentry/main.go:109-132 | every dialog of a GETPIN with a repeat prompt, in full: texts, error message and the offer to save |
| PinReplies.SingleDialog | cmd/pinentry/main.go:111-119 | the one dialog without a repeat prompt, in full |
| PinClient.PinReplyIsHandled | pinentry/server.go:262-282 | the lines the command loop writes for a GETPIN that got a password: its statuses, the data lines, OK |
| PinClient.EscapedPasswordBound | util/credui.go:180-201 | each UTF-16 unit escapes to at most three bytes |
| PinClient.AnswerOfLines | assuan/client/session.go:156-173 | SimpleCmd reads a whole reply and nothing after it |
| PinClient.ItoaRoundTrip | pinentry/client.go:133 | an int survives printing and parsing, in at most 20 characters |
| PinClient.Utf16Converts | util/credui.go:201 | for every text of Unicode scalar values in UTF-16, what the dialog returns is its UTF-8 |
| PinClient.Utf8Decodes | util/credui.go:201 | the bytes of a code point decode to it: their number, the continuation bytes and the bits |
| PinClient.ZeroEnds | util/credui.go:201 | the text ends at the first zero unit |
| PinClient.LoneSurrogate | util/credui.go:201 | a surrogate without its other half becomes U+FFFD |
| PinClient.QualErr | pinentry/client.go:286-288 | on the quality-bar path an ERR ends the call with its parameters |
| PinClient.QualInquired | pinentry/client.go:261-284 | an inquiry for the quality of a text is answered with the number the quality function gives for it, or 0 without one, as a data line and END, and the call goes on |
| PinClient.ApplyOrder | pinentry/client.go:179-215 | the eleven commands of Apply, by name and parameter, in order |
| PinClient.WholeSecondsIs | pinentry/client.go:133 | the fraction of a second is cut off toward zero |
| PinClient.SecondsRoundTripIff | pinentry/client.go:133 | a timeout survives the way to the server if and only if it is a whole number of seconds |
| PinClient.Client.constructor | pinentry/client.go:48-56 | a client starts with the settings given and without a quality bar |
| PinClient.Client.Send | pinentry/client.go:69-75 | one command: bytes written, input left, and whether the answer was OK |
| PinClient.Client.SetText | pinentry/client.go:69-75 | sends the command of the field and changes the client's copy only after an OK; arms the quality bar for that field only |
| PinClient.Client.SetDesc | pinentry/client.go:69-75 | sends its own command and stores the text after an OK; every other field and the quality-bar flag are unchanged |
| PinClient.Client.SetPrompt | pinentry/client.go:78-84 | sends its own command and stores the text after an OK; every other field and the quality-bar flag are unchanged |
| PinClient.Client.SetError | pinentry/client.go:87-93 | sends its own command and stores the text after an OK; every other field and the quality-bar flag are unchanged |
| PinClient.Client.SetOkBtn | pinentry/client.go:96-102 | sends its own command and stores the text after an OK; every other field and the quality-bar flag are unchanged |
| PinClient.Client.SetNotOkBtn | pinentry/client.go:105-111 | sends its own command and stores the text after an OK; every other field and the quality-bar flag are unchanged |
| PinClient.Client.SetCancelBtn | pinentry/client.go:114-120 | sends its own command and stores the text after an OK; every other field and the quality-bar flag are unchanged |
| PinClient.Client.SetTitle | pinentry/client.go:123-129 | sends its own command and stores the text after an OK; every other field and the quality-bar flag are unchanged |
| PinClient.Client.SetRepeatPrompt | pinentry/client.go:141-147 | sends its own command and stores the text after an OK; every other field and the quality-bar flag are unchanged |
| PinClient.Client.SetRepeatError | pinentry/client.go:150-156 | sends its own command and stores the text after an OK; every other field and the quality-bar flag are unchanged |
| PinClient.Client.SetQualityBar | pinentry/client.go:159-166 | as the others; an OK also arms the quality bar, a failure leaves the flag |
| PinClient.Client.SetTimeout | pinentry/client.go:132-138 | sends whole seconds, stores the timeout after an OK |
| PinClient.Client.ResetSession | pinentry/client.go:64-66 | sends RESET; the client's copy stays |
| PinClient.Client.Apply | pinentry/client.go:179-215 | sends the eleven commands in order up to the first that fails, copies exactly what was answered OK, and arms the quality bar if all were |
| PinClient.RowGoesOn | pinentry/client.go:179-215 | a row of calls on a stream that starts with n OKs: the first n calls write their lines, take an OK each and are copied, and the row goes on with the rest of the stream |
| PinClient.RowStops | pinentry/client.go:179-215 | a call that is too long writes nothing; one answered otherwise than OK has written its line; either ends the row and is not copied |
| PinClient.RunCopies | pinentry/client.go:179-215 | after a row of calls that stops at the first failure, the copy has exactly the calls answered OK, and the row has gone well if those are all |
| PinMirror.ResetForgets | pinentry/client.go:64-66 | over every run of a text set and a Reset after it, both answered: the client's copy keeps the text, the server has its default |
| PinMirror.ServerStep | pinentry/server.go:35-159 | what each call does to the server's settings: setters, timeout, Reset, and every other command |
| PinClient.Client.GetPIN | pinentry/client.go:219-229 | takes the quality-bar path exactly if it is armed, and disarms it |
| PinClient.Client.GetPINWithQualBar | pinentry/client.go:231-290 | the loop against its specification: answers to quality inquiries, result, what is left unread; the flag is reset on every way out |
| PinClient.Client.WriteQuality | pinentry/client.go:263-283 | a data line with the number, then END |
| SshAgent.BigEndianRoundTrip | agent/connector.go:586-621 | the length header survives encoding and decoding |
| SshAgent.SplitRebuilds | agent/connector.go:580-598 | every input is, put back together, its well-formed requests and a rest that ends the loop |
| SshAgent.SplitOfFrames | agent/connector.go:580-598 | framed requests are split into themselves |
| SshAgent.ServeAnswersInOrder | agent/connector.go:571-629 | the same for requests that are given framed, followed by any rest that ends the loop |
| SshAgent.CleanEndIsAnError | agent/connector.go:580-585 | at two inputs: an empty one is an error, a single byte is not |
| SshAgent.AskedInOrder | agent/connector.go:604-615 | the backend is asked the unlocked requests, in order, and no others |
| SshAgent.StopsBecause | agent/connector.go:580-598 | why the loop stops at a rest of the input, by its length and the big-endian size in its first four bytes |
| SshAgent.ListRequest | agent/connector.go:571-629 | at an input, on the wire: a list request and the backend's answer in its frame |
| SshAgent.OutputIsFrames | agent/connector.go:621-627 | the output is the frames of the replies answered |
| SshAgent.Conn.ReadFull | agent/connector.go:580 | fills the buffer, or uses up the input and says whether anything was read |
| SshAgent.Conn.Write | agent/connector.go:622-627 | appends the bytes to the output |
| SshAgent.Conn.PutUint32 | agent/connector.go:621 | the buffer holds the length in big-endian order |
| SshAgent.Conn.ReadRequest | agent/connector.go:580-598 | the next request, or why there is none |
| SshAgent.Conn.AnswerRequest | agent/connector.go:604-627 | the reply under the lock or from the backend, written unless it is too large |
| SshAgent.Conn.ServeSSH | agent/connector.go:571-629 | the loop with its reused buffer refines the function of input and lock history |
| WaitGroup.StepBalanced | agent/connector.go:161-228 | one step keeps counter and owed Done calls equal |
| WaitGroup.CountAgain | agent/connector.go:253-266 | a loop that has not returned can raise a zero counter again |
| RelayDirection.CopyLoop | agent/connector.go:179-203 | the loop over copies: how many are started under the lock, and what they write |
| RelayDirection.Conserved | agent/connector.go:184-191 | bytes written and bytes lost add up to the bytes read |
| RelayDirection.StopsExactly | agent/connector.go:179-203 | a direction starts exactly n copies if and only if no lock was seen before any of them, all but the last ended at a deadline with something written, and then the lock was seen or the last one ended in another way |
| RelayDirection.NoGapIsPrefix | agent/connector.go:184-191 | without a gap the output is a prefix of the input |
| RelayDirection.GapHappens | agent/connector.go:186-189 | a write that times out with bytes to come: the loop goes on and the output misses a byte |
| Menu.SortedIsUnique | systray/systray_windows.go:723-733 | two sorted arrangements of the same ids are equal, so the algorithm of the sort does not matter |
| Menu.SortSlice | systray/systray_windows.go:723-733 | an insertion sort meets the specification of the sort |
| Menu.InsertAgrees | systray/systray_windows.go:606-624 | the insertion keeps index and native menu equal, also when it is rolled back |
| Menu.AddOrUpdateAgrees | systray/systray_windows.go:542-625 | adding or updating keeps them equal whichever native calls fail, and other parents are unchanged |
| Menu.SeparatorAgreesIff | systray/systray_windows.go:627-660 | a separator is always listed in its sorted place, and the agreement is kept if and only if the parent has a menu and the native insertion succeeds |
| Menu.HideAgreesIff | systray/systray_windows.go:662-680 | hiding removes one occurrence from the list unless the native call reports a failure, and keeps the agreement if and only if it does not fail with ERROR_SUCCESS on a listed item |
| Menu.OthersUntouched | systray/systray_windows.go:542-680 | whatever the operation and its failures, every other parent keeps its list, its menu and what is shown in it |
| Menu.MenusAfterAdd | systray/systray_windows.go:542-625 | a parent gets a menu, a new one, with its first item if the native calls succeed; an item is recorded under the menu it was inserted in, exactly if it was inserted |
| Menu.ConvertedMenus | systray/systray_windows.go:513-540 | a conversion to a submenu, with all its failures: a menu that cannot be linked stays behind, empty and without a parent |
| Menu.TrayComesUp | systray/systray_windows.go:483-511 | the tray comes up exactly if the root menu is created and its style set |
| Menu.StrikeIsInTheIndex | systray/systray_windows.go:627-680 | the two failures that are not undone leave the native menus as they were and change the list by the one item |
| Menu.DoAgreesIff | systray/systray_windows.go:542-680 | the same for one operation of any kind |
| Menu.QuietRefusalBreaks | systray/systray_windows.go:674-677 | a history in which an item is in the native menu and no longer in the list |
| Menu.LostSeparatorBreaks | systray/systray_windows.go:644-657 | a history in which a separator is in the list and not in the native menu |
| Menu.ShownTwice | systray/systray_windows.go:596-614 | a history in which an item is shown twice |
| Menu.Tray.constructor | systray/systray_windows.go:382-385 | the tray before createMenu, everything empty |
| Menu.Tray.CreateRootMenu | systray/systray_windows.go:483-511 | the root menu, and whether the tray comes up |
| Menu.Tray.GetVisibleItemIndex | systray/systray_windows.go:735-744 | the first index of the id, or -1 |
| Menu.Tray.AddToVisibleItems | systray/systray_windows.go:723-733 | the parent's list, sorted, with the id |
| Menu.Tray.DelFromVisibleItems | systray/systray_windows.go:710-721 | the parent's list without the first occurrence |
| Menu.Tray.InsertMenuItem | systray/systray_windows.go:609-614 | the native menu with the item at the position |
| Menu.Tray.ConvertToSubMenu | systray/systray_windows.go:513-540 | a new native menu for the parent, unless a native call fails |
| Menu.Tray.AddOrUpdateMenuItem | systray/systray_windows.go:542-625 | index and native menus after an addition or update, with every failure |
| Menu.Tray.InsertVisible | systray/systray_windows.go:606-622 | the insertion with its rollback |
| Menu.Tray.AddSeparatorMenuItem | systray/systray_windows.go:627-660 | index and native menu after a separator, also when the native insertion fails or the parent has no menu |
| Menu.Tray.HideMenuItem | systray/systray_windows.go:662-680 | index and native menu after hiding, with every outcome of DeleteMenu |
| WslEnv.ListRoundTrip | util/setenv.go:66-81 | what is joined into WSLENV is split into the same entries; the joined text is empty only for none |
| WslEnv.ListIsEntries | util/setenv.go:66-72 | whatever WSLENV holds, the parts kept are non-empty and without a colon |
| WslEnv.OwnNamesAreGood | cmd/agent/main.go:100-112 | the seven names setVars uses can share the list: none starts another, none is WSLENV or holds a colon |
| WslEnv.OwnNamesAre | cmd/agent/main.go:105-111 | the seven names, in full |
| WslEnv.OwnEntries | cmd/agent/main.go:106-111 | the entries of the agent's own variables when all have values: for Linux-side names `/up`, for Windows-side names `/u` |
| WslEnv.RawPrepared | util/setenv.go:66-81 | the value of WSLENV while the variables are set: the entries that stay and then the own ones, colons between |
| WslEnv.ForeignKeeps | util/setenv.go:68-75 | an entry is kept exactly if it starts with none of the names |
| WslEnv.PreparedValue | util/setenv.go:42-53 | every value after setVars: those set, the one left by a failed list update, all others unchanged |
| WslEnv.CleanedList | util/setenv.go:116-139 | the cleaner takes out exactly the entries of the variables done |
| WslEnv.CleanedValue | util/setenv.go:92-103 | the cleaner deletes exactly the values of the variables done |
| WslEnv.PreviousValueLost | util/setenv.go:91-103 | at an input: a value the user had under one of the seven names is gone after setVars and its cleaner |
| WslEnv.NewValueStays | util/setenv.go:42-86 | at an input: the first list update fails, and the new value is left in a registry that was empty |
| WslEnv.CleanWithFaults | util/setenv.go:92-139 | cleaning one variable, whatever registry call fails: whether it is deleted, that nothing else but the list is touched, and the list only if everything goes well |
| WslEnv.PrepareWithFaults | util/setenv.go:42-89 | setting one, whatever registry call fails, likewise, and when it reports success |
| WslEnv.Registry.Filter | util/setenv.go:66-75 | the loop over the parts: those not empty and not starting with the name, in order |
| WslEnv.Registry.PrepareVariable | util/setenv.go:42-89 | one variable set and registered, with each of its failures |
| WslEnv.Registry.CleanVariable | util/setenv.go:92-140 | one variable deleted and taken out of the list, with each of its failures |
| WslEnv.Registry.SetVars | cmd/agent/main.go:98-142 | the loop over the table, the cleaner at the first failure, and which variables are marked as set |
| WslEnv.Registry.Cleaner | cmd/agent/main.go:119-128 | the cleaner, last first, and that nothing is marked afterwards |

## Left out

- Win32, registry, credential vault, clipboard and process calls: they are maps, parameters or failures here.
- The shared-memory exchange with Pageant: the backend is a function from a request to a reply or an error.
- The MESSAGE handler of pinentry: it returns a nil pointer as an error value, a Go effect the model does not have.
- A failed dial in `handleAssuanRequest`: the code goes on with a nil connection.
- `Agent.Start` and `Agent.Stop`, configuration, logging, usage text, the tray's window procedure and icons.
- `ServeNet`, `ServeStdin`, `Dial`, `InitCmd`, `Launch` and `Close`: they connect streams and hold no logic of their own.
- The client's `Option` against `splitOption`: the client sends blanks around the equals sign and the server takes it into the value, so there is no round trip.
- PinClient.Client.Apply: does not store a quality callback, and `SetPasswdQualityCallback` is left out; the quality function is a parameter of GETPIN.
- `ReadError`, `WriteError` on errno values, the error table, the nonce, UTF-16 byte helpers, waiting for files, `IntResource`: easy members only.
- Time: deadlines are outcomes of a copy, and a dialog has no timing.
- Case outside ASCII: commands are upper-cased in ASCII only, and a blank line is one of ASCII white space.
- A `char` above 255: nothing forbids one, and no result depends on its absence.
- What a scanner returns after it has failed on a long line: the model stops there.
- Failing writes: every write to a stream succeeds.
- Client.Session.WriteOffer: a reader offered to Transact does not fail and ends with an empty read; Pipe.WriteDataReader has both.
- The case-insensitivity of Windows credential names and of registry value names.
- Aliasing of Go slices: `delFromVisibleItems` shifts the elements of the backing array, lists are values here.
- The mutexes of the tray: its operations are sequential.
- Hiding the item that is the parent of a submenu, which destroys the submenu's handle; showing an item is an addition.
- Wait itself: the WaitGroup results say when its counter is zero and stays so.
- LockstepRun.ResultsAreAnswers: covers commands whose own line and whose reply lines fit a restricted pipe and whose handlers do not inquire; a client that closes its stream is not part of the step system.
- InquiryRun.ExchangeEnds: neither side closes its stream, so a side whose peer has stopped waits; a line of the client is written in one step.
- InquirySides.RunsEndAsTheLoops: in the two sequential loops a stream whose bytes are used up is closed, and the read reports the end of input; in the runs it is open, and the read waits.
- LockstepRun.RunsServeTheLoop: the orders in which Go lists the handlers for HELP are those of the run.
- PinReplies.InfoReply: speaks of parameters of at most 60 bytes that need no escaping.
- PinReplies.OptionReply: speaks of keys of at most 800 bytes, so that the answer to an unknown one can be written.
- Transfer.BlocksReadTwice: speaks of blocks whose lines fit the pipe's limit.
- PinentryHistory.CachedPinIsLastSaved: starts from a vault without empty passwords, and the vault is changed by this process only.
- PinentryHistory.FailedReadStopsSaving: the default settings do not turn caching on, as in the program.
- Pinentry.Session.GetPinCommand: a dialog that is still open when the answers run out is a session that does not go on.
- PinClient.Client.SetTimeout: the conversion to seconds goes through a floating-point number in the code and is exact here.
- PinMirror.SettingsMirrored: is about the runs of LockstepRun, with the same limits on lines; a call whose line is too long is not sent, changes neither side and is not one of the calls of a run.
- Menu.MenuAlwaysAgreesIff: a DeleteMenu that reports success has deleted the first item with the id.
- WslEnv.SetThenClean: the cleaner's own registry calls succeed; Registry.CleanVariable has their failures.
- WslEnv.RestoredIff: likewise, and so for ListRestoredIff and RegistryRestoredIff.
- WslEnv.Registry.PrepareVariable: the variable keeps the value of a failed list update, and the broadcast of the change is left out.
