# Verified models of the request engine

Dafny models of the parts of the program where a mistake is easiest to make and hardest to see:
text substitution, the event stream, three concurrent protocols, the curl reader, authentication
text, body encoding, the response comparison and the capture journal. Run `dafny verify dfyconfig.toml`
in this directory to check everything.

Where the source updates fields in place, the model is a class or a loop that is proved equal to a
function, and what the source promises is proved about that function. Where several goroutines
interleave, the model is a state and its atomic steps, and what is proved holds over every run.

| file | what it models |
|---|---|
| `Text`, `Sorting` | Go string helpers; sorting by a linear order, which gives one result whatever the algorithm |
| `Placeholders`, `Expansion` | the placeholder syntax and the plain meaning of substitution: unfold, then print from left to right |
| `Lookups`, `Repeats`, `CrossedVariables` | which variables an expansion looks at, and when expanding a variable twice gives the same text |
| `Substitution`, `ExpansionRuns` | the stateful engine with its depth, work and size limits; whole requests and `FillVariables` |
| `Effects`, `OpeningCap` | what plain unfoldings print, and a text that opens more variables than one call may |
| `Scope`, `Coverage` | the variables a request can send, and when they cover what the engine looks at |
| `EventStream`, `EventParser` | sections 9.2.5 and 9.2.6 of the WHATWG HTML standard, and the incremental parser |
| `Batcher`, `StreamRun` | batching of messages under a timer, and the reconnecting stream |
| `Holds`, `Updater`, `DiskWatch` | the breakpoint hold protocol, the self-updater and the disk watcher |
| `ShellSplit`, `OpenQuotes`, `CmdSplit`, `CurlOptions` | the two tokenisers, unclosed quotes, and the option reader of curl commands |
| `Challenges`, `OAuth1` | the challenge scanner with an inverse printer; percent encoding and the OAuth 1 parameter text |
| `BodyEncoding` | base64, UTF-8 truncation and the body round trip |
| `Differ` | the comparison of a response with a saved example |
| `Journal` | the list of captured exchanges |

Strings are Go strings, one character per byte, except in the curl modules, where a character is a
code point. `BodyEncoding` and decision bodies use sequences of bytes.

## What turned out false, and when it is true

- A variable that is expanded again does not always give the same text, for two reasons.
  - A generated value is the same wherever its slot is printed again, for all generators, exactly when the slot
    lies in the value of a variable with a name: `generate` takes the empty name for the request's own text
    and draws again (`Repeats.SlotAgreesExactly`). With `{"": "{{$guid}}"}`, say, `{{ }}` gives two
    different texts (`Repeats.EmptyNameDrawsAgain`).
  - With other variables open, a variable unfolds to the same exactly when none of the variables it opens in one
    place is open already, or deeper than 8, in the other (`Repeats.UnfoldsAlikeExactly`). With
    `{"a": "{{b}}x", "b": "{{a}}y"}`, `b` gives `{{a}}y` inside `a` and `{{b}}xy` alone, so `{{a}} {{b}}` becomes
    `{{a}}yx {{b}}xy` (`CrossedVariables.BothGive`, `CrossedVariables.OpenElsewhereDiffers`).

  Where it unfolds to the same and the work suffices, the texts agree exactly when no generated value in it
  lies in the value of the variable with the empty name (`Repeats.RepeatedExpansionAgrees`).
- The limit of 10000 openings in one text is silent: the first 10000 variables are opened, a later one is left as it
  is written, and no failure is reported for that. For every text, there is no failure exactly when nothing failed
  before, the text does not need more openings than the whole request has left of its 100000 (where that is at most
  10000), its files can be read and the result is within the budget (`SubstitutionEngine.Substitution.Apply`,
  `SubstitutionEngine.OverworksExactly`). With `{"a": "{{b}}", "b": "x"}`, 10001 times `{{a}}` becomes 10000 times `x`
  and one `{{a}}` (`OpeningCap.LastIsLeft`; `OpeningCap.CapIsSilent` for every number).
- `variablesSent` covers what the engine looks at on every request exactly when both of these hold
  (`Coverage.CoversEngineExactly`, for all values):
  - no variable that can be asked for has a name that starts with `$`, and one whose name starts with `?`
    is reached by references from the name that the prompt asks for;
  - what is asked for inside a value that is no string is that same variable.
- `trimPartialRune` keeps the longest valid prefix of a cut text exactly unless the cut falls inside
  the first character; then nothing is dropped (`BodyEncoding.TrimKeepsWholeRunes`).
- Of the settles of one held exchange at most two report success, and two do exactly when one of them was
  sent after the hold had taken the other's decision: the channel is emptied before the entry is removed
  (`Holds.TwoSucceedExactly`). Any two decisions that pass the check can do so
  (`Holds.BothSettlesCanSucceed`); the exchange gets the first only (`Holds.EditedIsFirstAndAccepted`).
- An outside change made while an own write holds the watcher's mutex is absorbed with that write and
  never reported, if the folder agreed with the baseline when the write began
  (`DiskWatch.ChangeDuringOwnWriteIsLost`); otherwise the baseline stays, and neither that change nor one
  that was pending before is absorbed (`DiskWatch.OwnWriteAbsorbsExactly`).
- A command quoted for a POSIX shell and without CR LF is split into its words if it does not look like one for
  cmd.exe; the token `^"` in single quotes does, and comes back as `''` (`CmdSplit.CommandUndoesQuoting`, `CmdSplit.CaretQuoteIsMisread`).

## Model

| member | source | states |
|---|---|---|
| Placeholders.SpansAreLeftmost | engine/pairs.go:21 | the spans found are the leftmost matches of `{{`, characters other than `}`, `}}`, in order, without overlap, and none is skipped |
| Placeholders.LeftmostMatchesAreUnique | engine/expand.go:98-100 | any list of leftmost matches is the list found, so the spans are those of any correct matcher |
| Placeholders.VariableNameExact | engine/pairs.go:189-192 | a name is accepted exactly when it is trimmed, not empty and has no `}`, and then the placeholder around it asks for exactly that name |
| Text.TrimSpaceTrims | engine/pairs.go:194-196 | a text is white space, then the trimmed text, then white space, and the trimmed text neither starts nor ends with any, for all Unicode white space |
| Repeats.SlotAgreesExactly | engine/pairs.go:215-224 | a generated value is the same wherever its slot is printed again, whatever is printed in between and for all generators, if and only if the slot lies in the value of a variable with a name |
| Repeats.UnfoldsAlikeExactly | engine/pairs.go:162-172 | below two stacks of open variables, a variable unfolds to the same if and only if none of the variables opened in one place is open already or too deep in the other |
| Repeats.RepeatedExpansionAgrees | engine/pairs.go:162-224 | a variable expanded in two places, where nothing it opens in one is open or too deep in the other and the work suffices for both, gives the same text for all generators and whatever is printed in between, if and only if no generated value of it lies in the value of the variable with the empty name |
| Repeats.NamedExpansionAgrees | engine/pairs.go:162-224 | so it does in two such places for a named variable whose expansion does not look at the variable with the empty name |
| Repeats.AskedAgainAgrees | engine/pairs.go:162-224 | in the texts of a request themselves, where no other variable is open, such a variable always gives the same text as long as the work suffices |
| Repeats.EmptyNameDrawsAgain | engine/pairs.go:215-224 | the variable with the empty name, whose value is a placeholder that a generator answers, is drawn again |
| CrossedVariables.BothGive | engine/pairs.go:162-172 | with two variables that ask for each other, `{{a}} {{b}}` becomes `{{a}}yx {{b}}xy` without a generator |
| CrossedVariables.OpenElsewhereDiffers | engine/pairs.go:162-172 | each of them gives one text with the other open and another text alone |
| Lookups.SeenIsAsked | engine/pairs.go:154-172 | a variable the engine looks at is asked for by a placeholder of the text, or looked at inside one that is |
| Lookups.AskedIsSeen | engine/pairs.go:154-172 | and every variable that is asked for is looked at, with all that its value makes the engine look at if it is opened |
| Lookups.AskedIsLookedAt | engine/pairs.go:154-182 | what a text asks for is looked at however little work is left |
| Expansion.FlatJoins | engine/pairs.go:174-182 | texts one after the other share the work: the later ones open as many variables as the earlier ones leave |
| Expansion.FlatFits | engine/pairs.go:174-182 | a variable is left unopened if and only if there are more to open than there is work left, and otherwise all are opened and looked at |
| Expansion.RenderKeepsSlots | engine/pairs.go:184-187 | a slot that has a generated value never gets another one |
| Expansion.PlainTextIsKept | engine/pairs.go:251-275 | a text without placeholders is left alone and costs no work |
| SubstitutionEngine.Substitution.Apply | engine/pairs.go:294-305 | for every text there is no failure if and only if nothing failed before, it does not open too many variables for the whole request, its files can be read and the result is within the budget; then the result is the plain meaning of the text with variables opened from left to right until one call has opened as many as it may, the budget, the work and what was looked at change by exactly that, and the stack is restored; once too much was asked, a later call returns its input and leaves a failure |
| SubstitutionEngine.OverworksExactly | engine/pairs.go:174-182 | a text opens too many variables for the whole request exactly when at most 10000 are left to it and the text needs more than are left |
| OpeningCap.CapIsSilent | engine/pairs.go:174-182 | of a text that opens any number of variables, one after the other, the first 10000 are opened and the others left as they are written, and it leaves no failure if and only if that is within the budget |
| OpeningCap.LastIsLeft | engine/expand.go:69-82 | so the last of 10001 placeholders is handed out as it was written |
| SubstitutionEngine.Substitution.Fill | engine/pairs.go:251-275 | unless something fails, filling gives what printing the unfolded text gives when variables are opened as long as there is room, and opens and looks at exactly those; nothing fails that can be read, is within the limit and does not open too many for the whole request; a result never exceeds its limit |
| SubstitutionEngine.Substitution.Lookup | engine/pairs.go:198-213 | a placeholder becomes its variable's full expansion while there is room, or else a file or a generated value, or stays as written |
| SubstitutionEngine.Substitution.Nested | engine/pairs.go:162-172 | a value with placeholders is opened one level deeper unless it is on the path, too deep or out of work, and then nothing but the flag for too much work changes; the path is restored |
| SubstitutionEngine.Substitution.Spend | engine/pairs.go:174-182 | work is refused exactly when something was exceeded or a work limit is reached, so the counters never pass 10000 and 100000; only the second limit is reported |
| SubstitutionEngine.Substitution.Generate | engine/pairs.go:215-224 | a slot that belongs to a variable is drawn once and remembered; a generator answers independently of what is remembered |
| SubstitutionEngine.Substitution.File | engine/pairs.go:226-249 | a file is read once per name; an unreadable file is what sets the file failure, too many bytes are what exceeds, and nothing else changes a flag |
| SubstitutionEngine.Substitution.FailureOf | engine/pairs.go:130-141 | there is no failure exactly when no file failed and nothing was exceeded or overworked |
| ExpansionRuns.ExpandTexts | engine/expand.go:69-82 | for all texts there is no failure if and only if each fits after the ones before it; then the results are the meanings of the texts, each with at most 10000 openings, and add up to at most the encoded body limit |
| ExpansionRuns.FillVariables | engine/expand.go:84-96 | every variable is filled with its own full expansion whatever order the map is walked in, while no limit can fire |
| ExpansionRuns.TotalWorkNext | engine/expand.go:84-96 | the work spent on the variables filled so far stays within the work of all of them, in any order |
| Scope.VariablesSent | agent/scope.go:127-146 | the worklist ends and lists each name reachable through references from the texts, each once, and no other |
| Scope.SearchIsExact | agent/scope.go:127-146 | when nothing is pending, what was found is exactly what is reachable |
| Coverage.PlainValuesAreCovered | agent/scope.go:113-146 | if only strings hold placeholders and no name that can be asked for starts with `$` or `?`, everything the engine looks at is in the list, for every request |
| Coverage.CoversEngineExactly | agent/scope.go:113-146 | for all values, and however many variables the engine may open for a text, the list covers what the engine looks at on every request if and only if each name that can be asked for is kept (not starting with `$`; if named like a prompt, reached by references from the name asked for) and values that are no strings ask for nothing but themselves |
| Coverage.RequestIsCovered | agent/scope.go:113-146 | if so, all that the engine has looked at when a request has been expanded without a failure is in the list |
| Coverage.UnkeptNameEscapes | agent/scope.go:113-125 | any variable whose name is not kept is looked at for some request that does not list it |
| Coverage.OtherEscapes | agent/scope.go:127-146 | any value that is no string and asks for another variable is followed by the engine for some request that does not list what it asks for |
| EventParser.RunSplits | engine/stream_parser.go:48-71 | reading two chunks one after the other is reading them joined |
| EventParser.ChunksDoNotMatter | engine/stream_parser.go:48-71 | any split of a byte stream gives the same events and the same final state as the whole |
| EventParser.RunIsRunLines | engine/stream_parser.go:48-71 | reading byte by byte with a pending CR is reading line by line with CR, LF and CR LF as breaks |
| EventParser.ParserConforms | engine/stream_parser.go:48-135 | the events are those of sections 9.2.5 and 9.2.6 of the WHATWG HTML standard, with the same data unless it is over the limit, and then marked so |
| EventParser.EventParser.Feed | engine/stream_parser.go:48-71 | a call does exactly what its bytes do one by one, and the data buffer never exceeds its limit |
| EventParser.ConsumeConforms | engine/stream_parser.go:73-89 | a finished line changes the buffers and dispatches as section 9.2.6 says |
| EventParser.ApplyConforms | engine/stream_parser.go:91-106 | the four fields are processed as section 9.2.6 says and any other field is ignored |
| EventParser.AppendConforms | engine/stream_parser.go:108-115 | the data buffer is the standard's as long as it fits, and is marked as truncated exactly when the standard's does not |
| EventParser.DispatchConforms | engine/stream_parser.go:117-135 | an event is dispatched exactly when the standard dispatches one, and the event buffers are emptied |
| Batching.Batcher.Add | engine/stream_batch.go:20-31 | nothing is lost or reordered: handed-out batches and what is pending make up the log, and a timer runs while something is pending |
| Batching.Batcher.Flush | engine/stream_batch.go:33-37 | afterwards everything added was handed out, in order |
| Batching.Batcher.FlushLocked | engine/stream_batch.go:39-50 | a batch is handed out only if it is not empty, and it holds at most 256 messages |
| StreamRun.EventLimit | engine/stream.go:98-103 | the limit is what was asked for between 1 and 100000, 10000 if nothing was, and 100000 if more was |
| StreamRun.Delay | engine/stream.go:232-249 | a pause is never shorter than the server's retry, the policy's minimum or 100 milliseconds |
| StreamRun.Stream.RunStream | engine/stream.go:105-142 | once the first response carries events, the messages handed out are Open Event* (Wait Open Event*)* Wait? End; the connections read are the first and those the turns dialled; the events are numbered from 1 and are those of the bytes these connections delivered, all of them unless exactly the event limit or the byte limit was reached; and the reason is that limit, the last connection's ending, the turn that stopped the session, or 25 turns |
| StreamRun.Stream.Read | engine/stream.go:175-188 | a connection opens with Open, and all its reads are accepted in order unless one of them reaches a limit; without a limit its own ending is the reason |
| StreamRun.Stream.Accept | engine/stream.go:190-213 | what fits of a chunk is received, every event of it is handed out, and it stops exactly when the event count, the size of the events, or the bytes offered reach their limit |
| StreamRun.Stream.Pause | engine/stream.go:232-249 | one more Wait, at most 25 in all, numbered from 1, with the delay that the last retry of the bytes received gives |
| StreamRun.Stream.Reconnect | engine/stream.go:105-142 | a turn of the loop waits and dials; it stops the session for its own reason, or else the connection it dialled is read |
| StreamRun.Stream.Finish | engine/stream.go:65-85 | the session ends with one End and everything is flushed |
| Holds.RunIsSound | capture/hold.go:82-199 | in every interleaving at most 25 holds are pending, ids run from 1, a hold is pending until it has left, and every decision sent passed its check |
| Holds.EditedIsFirstAndAccepted | capture/hold.go:169-199 | an edited exchange carries the first decision sent to it, which passed the check for its phase |
| Holds.EditedBodyIsReadable | capture/flow.go:208-219 | so its body can be decoded |
| Holds.EndsOnce | capture/hold.go:169-199 | an admitted hold stops waiting exactly once |
| Holds.IdsAreNotReused | capture/hold.go:82-102 | later steps keep a hold's phase, verdict and decision, and new ids are larger than all before |
| Holds.CanAlwaysLeave | capture/hold.go:169-199 | a pending hold's timer and its own clean-up remove it, whatever others do in between |
| Holds.SuccessIsRelease | capture/hold.go:115-131 | a settle reports success exactly when its decision passes the check and goes into the empty channel |
| Holds.TwoSucceedExactly | capture/hold.go:115-131 | in every run at most two settles of an exchange report success, and two do if and only if one was sent after the hold had taken a decision |
| Holds.BothSettlesCanSucceed | capture/hold.go:115-131 | for every two decisions that pass the check there is a run in which both report success, and the exchange keeps the first |
| Updater.RunIsSound | gostman-gui/update_install.go:142-201 | in every interleaving a download is live exactly while downloading or verifying, a ready update is staged in the same version, an install holds what is staged, and the stored cancel function belongs to the live download |
| Updater.NeverTwo | gostman-gui/update_install.go:480-544 | at most one download and at most one install, never both at once |
| Updater.OnlyTheDownloadEnds | gostman-gui/update_install.go:269-299 | a live download ends only by its own report, and meanwhile only its own steps write the phase and the version |
| Updater.CancelsTheLiveDownload | gostman-gui/update_install.go:187-201 | cancelling takes the cancel function of the download that is live then |
| Updater.NewDownloadIsNotCancelled | gostman-gui/update_install.go:168-201 | a download started later is not cancelled by an earlier cancellation |
| Updater.InstallEndsExactly | gostman-gui/update_install.go:491-544 | an install that ends leaves none under way; a restart that failed always leaves the phase at failed, and otherwise, when the process is leaving, the phase stays at installing |
| Updater.InstallsAreOfThisKind | gostman-gui/update_install.go:442-525 | what is installed is always of this installation's kind, so the kind never refuses an install |
| Updater.InstallingStays | gostman-gui/update_install.go:508-544 | with the phase at installing and no install under way, no run leaves it |
| DiskWatch.OwnWritesAreNotReported | gostman-gui/workspace_watch.go:69-129 | from an adopted folder, runs with only own writes report nothing, even when a poll's snapshot is older than a finished write or taken inside one |
| DiskWatch.PollSettles | gostman-gui/workspace_watch.go:93-107 | a poll gives the verdict on the snapshot it took, whatever others write before it settles |
| DiskWatch.SeenTwiceIsReported | gostman-gui/workspace_watch.go:69-107 | an outside change seen by two successive polls with no own write between is reported once and becomes the baseline |
| DiskWatch.OwnWriteAbsorbsExactly | gostman-gui/workspace_watch.go:117-129 | an own write moves the baseline if and only if the folder agreed with it at the start, so a pending outside change is never absorbed |
| DiskWatch.ChangeDuringOwnWriteIsLost | gostman-gui/workspace_watch.go:117-129 | if the folder agreed with the baseline, an outside change during an own write is taken for it and never reported |
| ShellSplit.ShellSplit | engine/curl.go:605-671 | the index loop gives the tokens of the lexer, or fails with it |
| ShellSplit.SplitUndoesQuoting | engine/curl.go:605-671 | words put together from plain, escaped, single-quoted and double-quoted fragments (sections 2.2.1 to 2.2.3 of the POSIX Shell Command Language), with any blanks between them and any or none before and after, come back |
| ShellSplit.EveryTokenListRoundTrips | engine/curl.go:605-671 | every list of tokens, quoted either way and with any such gaps, comes back |
| OpenQuotes.FailsExactlyOnUnclosedQuote | engine/curl.go:605-671 | splitting fails if and only if at some place outside quotes an unescaped `'`, `"` or `$'` opens and no unescaped closing quote follows |
| OpenQuotes.UnclosedQuoteFails | engine/curl.go:605-671 | any words followed by a quote that is never closed cannot be split, whatever it holds |
| ShellSplit.AnsiEscape | engine/curl.go:681-711 | an escape uses at least one and at most all of the characters left |
| CmdSplit.Unescape | engine/curl.go:531-551 | the loop drops carets outside quotes and the line breaks they escape |
| CmdSplit.CrtSplit | engine/curl.go:553-603 | the loop gives the tokens of the specification, with backslashes before a quote counted in pairs |
| CmdSplit.SplitUndoesCmdQuoting | engine/curl.go:511-603 | every non-empty list of tokens, quoted for cmd.exe, is recognised as such and comes back, whatever the tokens contain |
| CmdSplit.CrtReadsBody | engine/curl.go:553-603 | a quoted token is read back up to its closing quote |
| CmdSplit.CommandUndoesQuoting | engine/curl.go:511-517 | words quoted for a POSIX shell come back from the whole of `splitCommand` unless the text looks like a command for cmd.exe or holds CR LF |
| CmdSplit.EveryTokenListIsSplit | engine/curl.go:511-517 | every list of tokens at all can be quoted so that `splitCommand` gives it back |
| CmdSplit.CaretQuoteIsMisread | engine/curl.go:519-529 | the token `^"` in single quotes is split as a command for cmd.exe and comes back as two single quotes |
| CurlOptions.ReadTokens | engine/curl.go:141-175 | the loop ends, its index grows in each round, and it reads the effects and words of the specification |
| CurlOptions.OptionUses | engine/curl.go:200-250 | an option uses at least itself and never more than the arguments left |
| CurlOptions.PrefixReads | engine/curl.go:141-175 | what comes before an option position is read the same whatever follows |
| CurlOptions.SplittingBundles | engine/curl.go:200-224 | a bundle of known short flags reads like its two parts |
| CurlOptions.DetachingShortValues | engine/curl.go:200-224 | a non-empty short value reads the same detached |
| CurlOptions.DetachingLongValues | engine/curl.go:226-250 | `--name=value` reads like `--name value` for a known flag with a value |
| CurlOptions.RewritingKeepsMeaning | engine/curl.go:141-250 | any of the three rewritings at an option position leaves all effects, words and errors unchanged |
| CurlOptions.RewritingKeepsRequest | engine/curl.go:141-175 | so the parsed request is unchanged |
| Challenges.ChallengeScanner.Token | engine/auth_digest.go:170-176 | a token is the longest run without blanks, commas and equals signs |
| Challenges.ChallengeScanner.ReadValue | engine/auth_digest.go:178-197 | a value is a quoted string with its escapes undone, or the trimmed text up to a comma |
| Challenges.ParseChallenges | engine/auth_digest.go:199-220 | parsing ends on every list of headers and gives the challenges of the specification |
| Challenges.ParseRound | engine/auth_digest.go:199-220 | a round uses up text, or makes the first challenge appear |
| Challenges.HeadersRoundTrip | engine/auth_digest.go:199-220 | every list of challenges with lower-case tokens and distinct parameter names, printed as sections 5.6.4 and 11.6.1 of RFC 9110 write them over any number of headers, comes back |
| Challenges.ParamMapIsExact | engine/auth_digest.go:199-220 | the parameters that come back are exactly the printed ones |
| Challenges.QuoteAuthReads | engine/auth_digest.go:328-330 | a quoted value is read back and what follows it is left |
| Challenges.PickDigestChallenge | engine/auth_digest.go:228-262 | the challenge picked is the earliest of the strongest supported digest challenges, and none only if there is none |
| Challenges.BestIsUnique | engine/auth_digest.go:228-244 | there is only one such choice |
| OAuth1.PercentRoundTrip | engine/auth_sigv4.go:155-167 | percent encoding loses nothing and writes only unreserved characters and `%` (section 3.6 of RFC 5849) |
| OAuth1.EncodePercent | engine/auth_sigv4.go:155-167 | the loop encodes byte by byte |
| OAuth1.EncodeOAuth1Pairs | engine/auth_oauth1.go:160-170 | the text of the encoded pairs, quoted or not, in their order |
| OAuth1.EncodedTextIsExact | engine/auth_oauth1.go:152-170 | two lists of parameters have the same header or body text if and only if they are the same list |
| OAuth1.NormalizeOAuth1Params | engine/auth_oauth1.go:182-198 | the encoded pairs are sorted by name, then value, and joined (section 3.4.1.3.2 of RFC 5849) |
| Sorting.SortingIsUnique | engine/auth_oauth1.go:182-198 | a sorting by a linear order is unique, so an unstable sort gives the same text |
| OAuth1.PairsAreLinear | engine/auth_oauth1.go:182-198 | the comparison used for sorting is a linear order |
| OAuth1.NormalizedIsExact | engine/auth_oauth1.go:182-198 | two lists have the same normalized text if and only if they hold the same pairs equally often |
| OAuth1.QueryPairs | engine/auth_oauth1.go:119-127 | the pairs of a map in the order it is walked |
| OAuth1.SignedCounts | engine/auth_oauth1.go:106-127 | each pair is signed exactly as often as the parameters, the query and the form hold it, in any walking order |
| OAuth1.MapOrderDoesNotMatter | engine/auth_oauth1.go:106-127 | the normalized text is the same for every order in which the maps are walked |
| BodyEncoding.Base64RoundTrip | engine/send.go:273-281 | base64 (section 4 of RFC 4648) loses nothing |
| BodyEncoding.TrimPartialRune | engine/send.go:283-290 | the longest valid prefix among the whole and the three next shorter non-empty ones, or everything if none is valid |
| BodyEncoding.TrimKeepsWholeRunes | engine/send.go:283-290 | for a valid UTF-8 text (section 4 of RFC 3629) cut at any byte, the longest valid prefix is kept and at most three bytes dropped if and only if the cut is not inside the first character; from byte 4 on it always is |
| BodyEncoding.LongestValidPrefix | engine/send.go:283-290 | no longer prefix of the cut text is valid |
| BodyEncoding.EncodeBody | engine/send.go:273-281 | the body is text exactly when it is valid UTF-8 without NUL; a truncated one is trimmed first |
| BodyEncoding.BodyRoundTrip | capture/hold.go:213-218 | decoding what was encoded gives the body back, for every byte string |
| Differ.DiffsAreExact | agent/responses.go:235-295 | the differences listed are exactly the places where the documents part, each with what differs there |
| Differ.DiffsAreInOrder | agent/responses.go:252-295 | differences come in the order of their places, names by their bytes and items by index |
| Differ.NoPlaceTwice | agent/responses.go:235-295 | no place is listed twice |
| Differ.NoDiffsWhenEqual | agent/responses.go:235-250 | outside shape mode there is no difference if and only if the documents are equal |
| Differ.NoDiffsWhenSameShape | agent/responses.go:235-295 | in shape mode there is none if and only if kinds and names agree everywhere, with the first items standing for an array |
| Differ.DiffsSwap | agent/responses.go:235-295 | exchanging the documents only exchanges missing and unexpected, expected and actual |
| Differ.Differ.Note | agent/responses.go:227-233 | the first 50 differences are shown and the others counted |
| Differ.Differ.Compare | agent/responses.go:235-250 | comparing notes exactly the differences of the two documents, after those noted before |
| Differ.Differ.Objects | agent/responses.go:252-275 | the members are compared in the order of their names, whatever order the maps are walked in |
| Differ.Differ.Arrays | agent/responses.go:277-295 | the items are compared by index, in shape mode only the first |
| Differ.CompareBodies | agent/responses.go:307-320 | shown plus omitted is the number of differences, and the shown ones are the first 50 |
| Differ.NoBodyDiffsWhenAgreeing | agent/responses.go:307-320 | no difference if and only if the bodies agree, as documents or as trimmed texts |
| Differ.CompareWith | agent/responses.go:329-345 | the body matches if and only if the bodies agree, despite the cap; an encoded body is compared as it is |
| Journal.Journal.Add | capture/journal.go:35-44 | the journal is the longest end of everything added since the last clear with at most 500 entries and within the byte limit or a single entry; `held` is its weight; the id is larger than every one before |
| Journal.Journal.Trim | capture/journal.go:24-33 | entries are dropped from the front until the rest fits, and no further |
| Journal.Journal.Clear | capture/journal.go:74-79 | the journal is empty and ids go on |
| Journal.Journal.Find | capture/journal.go:56-66 | the kept exchanges with one of the ids, in order |
| Journal.FindIsExact | capture/journal.go:56-66 | an exchange is found if and only if it is kept and asked for |
| Journal.FindKeepsOrder | capture/journal.go:56-66 | found exchanges keep their order and come once |
| Journal.KeptIsUnique | capture/journal.go:24-33 | there is only one longest end that fits |
| Journal.NewestIsKept | capture/journal.go:24-33 | the newest exchange is never dropped |
| Journal.AllIsKeptExactlyWhenItFits | capture/journal.go:24-33 | nothing is dropped if and only if everything since the last clear fits |

## Left out

- Substitution state: the fields of the engine are one record in one field, replaced as a whole; aliasing between fields cannot arise in the source either.
- Parsing of the variables' JSON, headers, rows and pairs; the model starts from the parsed variables.
- Generators and file reads are functions of a name and a draw number, and of a file reference; a generator's answer for a name does not change between draws.
- SubstitutionEngine.Substitution.Generate: a remembered value implies that a generator answers for its name, as the source assumes; generators that stop answering are not modelled.
- SubstitutionEngine.Substitution.Apply: what a text becomes when a failure is reported is not stated; a request is not built from it.
- ExpansionRuns.FillVariables: says nothing once a limit can fire, because what is filled then depends on the order in which the map is walked.
- Case folding in `strings.ToLower`, `ToUpper` and `EqualFold` is the ASCII one.
- `strings.ToValidUTF8`, event timestamps and the tag and length limits of displayed text.
- The network, proxies, cookies, TLS and HTTP: what a connection delivers and how it ends are inputs.
- StreamRun.Stream.Read: a connection is a finite list of reads; one that delivers for ever is ended by the deadline, which is an input here.
- EventParser.ParserConforms: a retry value of 2^31 or more is ignored, as in the source; the standard sets no bound, and the reference used here carries the source's.
- Holds and the updater are values and steps, not classes, because several goroutines act on them at once; `list` and the message texts are not modelled.
- The installation's kind and the release source are found out once per process and are a parameter of a run of the updater; whether an update is newer, and digest checks, are part of an action's outcome.
- The cancellation of the application's own context while an update is running; file operations and the relaunch itself, of which only the outcome is kept.
- Walking the folder: a snapshot is taken at one instant; the reload that follows a reported change is not modelled.
- CurlOptions.ParseCurl: stops before the request is built; an option's effect is recorded as its kind and value, and the tables of known options are a parameter, so the results hold for every table.
- Query, form and file rows of curl commands, and the replacement of invalid UTF-8 in a command.
- `chooseQop` and the digest answer, signatures, hashes and keys; only the text around them is modelled.
- Canonical paths, headers and queries of AWS signatures.
- The JSON decoder is a function from text to a document; a number is compared by its text, as in the source.
- The log of received responses and the choice of an example.
- Copies of the journal for callers, and the wrap-around of ids after 2^63 exchanges.
