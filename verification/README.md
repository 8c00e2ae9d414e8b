# Verified model of the Spawnea core

Spawnea runs AI agent sessions. Its shell of SSH, tmux, Electron and SQLite surrounds a set of small
state machines, bounded buffers and encoders. This project models those in Dafny and proves what they
promise. `dafny verify dfyconfig.toml` checks all of it.

Each module follows one component. Code that changes fields step by step is a class whose methods are
proved equal to a function of the old state; what the component promises is then proved about that
function, over every input or every run. Where code awaits something, one step of the model is the code
between two awaits, and steps of different callers interleave freely.

| module | component |
|---|---|
| `Utf8`, `TurnOutput` | one agent turn: the bounded byte window over the terminal output, its generations, and reading it through cursors |
| `TurnRegistry` (with `OrderedMap`) | the registry of turns: open turns, replayed requests, eviction |
| `PromiseLock` | the lock made of a chain of promises |
| `RootCreation` | creating a root session at most once per client request |
| `GitHubLinks`, `LinkRetention`, `GitHubRepository` (with `Strings`) | parsing GitHub links, keeping 128 identities, and the paged admission into the table |
| `Reconnection` | the reconnection supervisor |
| `PtyBroker` | flow control of a PTY channel |
| `ControlGateway` | request framing on the control socket |
| `ContextStore` | the revisioned context store |
| `FileLog` | the rotating file log |
| `ArtifactCache` | reconciling the artifact cache and writing to it |
| `RateLimiter` | the sliding-window limiter |
| `PathSecurity` | canonical paths and containment |
| `ShellQuoting` | quoting, against a reader of shell words |
| `DashboardHistory` | keyset paging and the bucketed view |

## What does not hold as one might expect

The code was kept as it is. For each of these a lemma says exactly when the property holds, and another
shows a case in which it does not.

- The retention cut of a turn's output may fall inside a character. The cut text then decodes to
  replacement characters and the window ends beyond the stream it came from (`RetentionFaithful`,
  `MidCharacterCut`).
- A refresh looks at the status of a turn only before it waits for the capture. If the turn finishes
  meanwhile, the late refresh changes a finished turn, which a reader sees whenever the capture shows
  anything new (`LateKeepsExact`). It can also reopen the turn, or close the session's next turn, after
  which the session can have two unfinished turns, even if its own turn was evicted meanwhile (`LateExact`,
  `LateRefreshSplitsSession`, and `LateRunSplitsSession` and `EvictedRunSplitsSession` for runs in which
  that happens).
- The limit of 200 turns is none for a session that is used alone: eviction passes over sessions with an
  open turn, and when it runs the session has just opened one (`GrowsExactly`, `OneSessionGrows`).
- A request whose turn was evicted is sent again, although its record is still there; and so is one whose
  record was trimmed, although its turn is still there (`SentUnlessKept`, `RequestSentTwice`,
  `TrimmedRequestSentTwice`).
- If describing a newly created session fails, asking again creates a second one (`ReopensExactly`,
  `SecondSession`, `BrokenViewCreatesTwice`).
- A reconnecting host can be left with nothing that will try again: a timer or manual retry fires while
  the attempt in flight is over and only its listeners are still being told (`StrandedExact`,
  `StrandingRun`).
- A failed authentication that is reported as a drop while an attempt is in flight does not stop that
  attempt, whose failure schedules others (`MarkStopsExactly`, `AttemptOutlivesDrop`).
- Admitting links is normalizing page by page as long as rows come in source order. The last step, with
  the input, is not always normalizing everything at once: an identity that was dropped and comes back
  returns without its earlier links (`AbsorbExact`, `ReadmittedAlone`), and a link that does so with a
  later first time (`AdmissionExact`, `ReadmittedLater`). Which identities are kept, and at which priority,
  is the same either way (`AdmissionKeeps`), and from a table that an admission has left nothing is lost
  (`SettledAdmission`).
- A canonical path canonicalizes to itself unless it is empty, which it is exactly when the segments of
  a drive path cancel out (`CanonicalExact`, `DriveTop`).
- A relative path that looks like a drive path does not resolve back to where it came from, and neither
  does one made from a path that begins with a backslash: that counts as absolute for containment, but
  not for resolving (`RoundTrip`, `DriveNameBelow`, `BackslashBelow`).
- A relative root that only goes up contains what goes up farther, and does not contain what lies below it
  (`RelativeContained`, `GrandparentBelow`).
- An empty word disappears from the launch command (`LaunchExact`, `EmptyPartLost`).
- A request line that blanks around it push over the limit is accepted or rejected depending on how the
  stream was cut (`CutMattersExactly`, `PaddedRequestDependsOnCut`).

## Model

| member | source | states |
|---|---|---|
| `Utf8.BoundaryByByte` | apps/desktop/src/main/agent-control-service.ts:1486 | A byte offset lies between two characters exactly when the byte there is not a continuation byte, which is the test the reading loop makes |
| `Utf8.DecodeFromFaithful` | apps/desktop/src/main/agent-control-service.ts:1417-1422 | Decoding the bytes from an offset on and encoding them again gives those bytes exactly if the offset is a character boundary; otherwise the text gets longer |
| `TurnOutput.TerminalOutputSince` | apps/desktop/src/main/agent-control-service.ts:1272-1280 | The output is what follows the longest common prefix of the first and the current capture |
| `TurnOutput.OutputSinceExact` | apps/desktop/src/main/agent-control-service.ts:1272-1280 | In UTF-16 units, the output is exactly what is left of the current capture behind the units it has in common with the first |
| `TurnOutput.OutputSinceWhole` | apps/desktop/src/main/agent-control-service.ts:1272-1280 | In characters: a capture that continues the first one is that followed by the output; otherwise the output begins with the first character that differs, or in the middle of it when two pairs share their first half |
| `TurnOutput.TrackedTurn.Refresh` | apps/desktop/src/main/agent-control-service.ts:1330-1431 | A refresh in place gives the turn of the refresh function; a finished turn stays as it is |
| `TurnOutput.EndsOnEvidence` | apps/desktop/src/main/agent-control-service.ts:1355-1405 | For every status, exactly which evidence gives it: a delimited or an expected response completes, an error fails, a question needs input, and so on; uncertainty about the submission keeps a turn from working |
| `TurnOutput.RefreshExact` | apps/desktop/src/main/agent-control-service.ts:1330-1431 | A refresh leaves a turn that completed or failed alone; of any other it takes over the capture, raises the version exactly if the screen or the status changed, and the generation exactly if the screen changed to output that does not continue what is kept |
| `TurnOutput.HistoryExact` | apps/desktop/src/main/agent-control-service.ts:1355-1427 | Over all captures of a turn: it counts the screen changes, has been seen to work exactly if some capture showed so and submission was never uncertain, and stays uncertain exactly as long as no capture has a response |
| `TurnOutput.IdleRuleEnds` | apps/desktop/src/main/agent-control-service.ts:1355-1405 | Without a response, an idle rule completes a turn exactly if an earlier capture showed it working and submission was never uncertain |
| `TurnOutput.ReadTurn` | apps/desktop/src/main/agent-control-service.ts:1474-1521 | A raw read gives the chunk, cursor and flags of the reading function, and does not change the turn |
| `TurnOutput.RetentionFaithful` | apps/desktop/src/main/agent-control-service.ts:1417-1422 | Cutting the output keeps exactly its last bytes if and only if the cut is on a character boundary; otherwise the window ends beyond its stream |
| `TurnOutput.MidCharacterCut` | apps/desktop/src/main/agent-control-service.ts:1417-1422 | A concrete output whose cut falls inside a character and whose window then ends two bytes too late |
| `TurnOutput.RefreshKeepsWindow` | apps/desktop/src/main/agent-control-service.ts:1407-1427 | A refresh with a clean cut keeps the window a tail of its generation's stream at the true byte offset, only appends to the stream, and moves on by at most one generation |
| `TurnOutput.ReadWholeChars` | apps/desktop/src/main/agent-control-service.ts:1474-1489 | A read from a character boundary returns the most whole characters that fit and a cursor at their end |
| `TurnOutput.ReadProgress` | apps/desktop/src/main/agent-control-service.ts:1482-1487 | With at least four bytes asked for, every read before the end returns something |
| `TurnOutput.NothingNewExact` | apps/desktop/src/main/agent-control-service.ts:1474-1512 | A read says nothing is new exactly if the reader has the version and its cursor is at the end of the output, and it then shows nothing |
| `TurnOutput.CursorExact` | apps/desktop/src/main/agent-control-service.ts:1433-1457 | A cursor is taken as it is exactly if it points into the window of this turn and generation, or there is none and nothing was cut; otherwise reading starts at the beginning of the window, or at its end when it points behind it |
| `TurnOutput.TruncatedExact` | apps/desktop/src/main/agent-control-service.ts:1478-1516 | A raw read is marked as truncated exactly if more bytes than asked for are left, or, without a delimited response, decode to more; from a character boundary only the former happens |
| `TurnOutput.ChainReadsContiguousSlice` | apps/desktop/src/main/agent-control-service.ts:1407-1521 | Over any run of refreshes and reads with clean cuts, the chunks of a chain of cursors concatenate to a contiguous slice of whole characters of one generation's stream |
| `TurnOutput.StreamsOnlyGrow` | apps/desktop/src/main/agent-control-service.ts:1407-1422 | Over any such run the stream of every generation only ever grows at its end |
| `TurnOutput.ExpiryExact` | apps/desktop/src/main/agent-control-service.ts:1433-1457 | A chain's cursor expires exactly when the generation changed or retention moved the base past it |
| `TurnOutput.CutThenNewGeneration` | apps/desktop/src/main/agent-control-service.ts:1407-1422 | After a cut, the next capture starts a new generation exactly if the retained window is not the beginning of the whole output |
| `TurnRegistry.Registry.SendPrompt` | apps/desktop/src/main/agent-control-service.ts:1135-1252 | A prompt changes the tables to the state of the specification, gives its answer, and hands the prompt over exactly when that says so |
| `TurnRegistry.Registry.RefreshTurn` | apps/desktop/src/main/agent-control-service.ts:1330-1431 | A refresh stores the refreshed turn and closes the session's entry if the turn finished |
| `TurnRegistry.UnfinishedIsOpen` | apps/desktop/src/main/agent-control-service.ts:1151-1246 | In every run a turn is unfinished exactly when its session's open entry points to it, every open entry points to a turn, and no session has two unfinished turns |
| `TurnRegistry.TurnsMoveOn` | apps/desktop/src/main/agent-control-service.ts:1330-1431 | Between any two moments of a run a finished turn has not changed at all, versions have only grown, and a turn that looks different to a reader has a higher version |
| `TurnRegistry.UncertainUntilCompleted` | apps/desktop/src/main/agent-control-service.ts:1355-1427 | Over any run, a turn of which it is uncertain that the prompt was submitted stays so and is never working until it completes |
| `TurnRegistry.OpenTurnSpared` | apps/desktop/src/main/agent-control-service.ts:1243-1246 | No call removes a turn that is unfinished when the call arrives |
| `TurnRegistry.GrowsExactly` | apps/desktop/src/main/agent-control-service.ts:1243-1246 | In any run a prompt leaves more than 200 turns and more than before exactly if there are 200 at least, it begins a turn, and every turn there is is of its own session or of one with an open turn; and it never adds more than one |
| `TurnRegistry.OneSessionGrows` | apps/desktop/src/main/agent-control-service.ts:1243-1246 | There is no bound: for every number some run of one session alone leaves that many turns, all finished |
| `TurnRegistry.ReplayedNotSent` | apps/desktop/src/main/agent-control-service.ts:1140-1150 | A request on record with a kept turn is answered from it, or refused if the text differs; nothing is sent and nothing changes |
| `TurnRegistry.AcceptedOnce` | apps/desktop/src/main/agent-control-service.ts:1140-1246 | After a first answer, however the run goes on, the request gets that same receipt without another send as long as its record and turn are kept |
| `TurnRegistry.SentUnlessKept` | apps/desktop/src/main/agent-control-service.ts:1140-1180 | In an idle session a prompt is sent exactly if its request is not on record with a kept turn, whether it never was, its turn was evicted or its record trimmed; a request that the open turn answers is never sent again |
| `TurnRegistry.OpenTurnDecides` | apps/desktop/src/main/agent-control-service.ts:1152-1172 | With an open turn, a new request is sent exactly if that turn, refreshed, needs input, and then continues it, or has finished, and then begins another; otherwise it is refused because one is under way, and nothing but the refresh happens |
| `TurnRegistry.OpenTurnReplays` | apps/desktop/src/main/agent-control-service.ts:1155-1163 | A request which the open turn has answered gets that receipt again, or is refused if its text differs, and nothing is sent |
| `TurnRegistry.IdleAnswer` | apps/desktop/src/main/agent-control-service.ts:1173-1217 | Without an open turn, exactly when nothing is sent for want of a capture, when a failed sending or a lost submission is refused without a trace, and when the new turn is named in the receipt |
| `TurnRegistry.NotTried` | apps/desktop/src/main/agent-control-service.ts:1151-1156 | A session that does not get ready, or an open turn that cannot be refreshed, refuses the prompt and changes nothing |
| `TurnRegistry.ReceiptIsTurn` | apps/desktop/src/main/agent-control-service.ts:1197-1237 | Every new receipt names the version, status and uncertainty of its turn, and that turn keeps it under the request |
| `TurnRegistry.RequestSentTwice` | apps/desktop/src/main/agent-control-service.ts:1140-1246 | A run in which a request is sent and answered, 200 turns of another session follow, and its turn is evicted while its record stays, so that it is sent a second time |
| `TurnRegistry.TrimmedRequestSentTwice` | apps/desktop/src/main/agent-control-service.ts:1140-1246 | A run of one session in which a request is sent and answered, 500 more follow, and its record is trimmed, so that it is sent a second time although its turn is still kept with the answer |
| `TurnRegistry.LateExact` | apps/desktop/src/main/agent-control-service.ts:1330-1431 | A refresh that resumes late, on a turn still kept or evicted meanwhile, keeps open entries and unfinished turns in step if and only if the capture shows nothing new, or it finishes the turn with no open turn in its session, or the turn is kept and still unfinished, or evicted and not finished by it |
| `TurnRegistry.LateKeepsExact` | apps/desktop/src/main/agent-control-service.ts:1330-1431 | It keeps finished turns as they are if and only if its turn was evicted or is still unfinished or not one of its fields changes, and a reader of the finished turn sees a change, under a higher version, exactly if the capture shows anything new |
| `TurnRegistry.LateRefreshSplitsSession` | apps/desktop/src/main/agent-control-service.ts:1330-1431 | When a late refresh finishes an old turn again, kept or evicted, beside an open one, the next prompt gives the session two unfinished turns |
| `TurnRegistry.LateRunSplitsSession` | apps/desktop/src/main/agent-control-service.ts:1330-1431 | A run from the start, of two refreshes and three prompts of a session, that ends with two unfinished turns in it |
| `TurnRegistry.EveryRefreshLands` | apps/desktop/src/main/agent-control-service.ts:1243-1431 | In every run with late refreshes, each one that waits can land, whatever turns were evicted meanwhile |
| `TurnRegistry.EvictedRunSplitsSession` | apps/desktop/src/main/agent-control-service.ts:1243-1431 | A run from the start in which a turn is evicted while a refresh of it waits, and which ends with two unfinished turns in its session |
| `TurnRegistry.LateSubmitExact` | apps/desktop/src/main/agent-control-service.ts:1187-1224 | A prompt handed to a kept turn which a refresh may have finished meanwhile keeps the registry in order if and only if the handing over fails or the turn is unfinished |
| `PromiseLock.MutualExclusion` | apps/desktop/src/main/agent-control-service.ts:1102-1117 | In every interleaving at most one caller of a key holds the lock, whenever map entries are deleted |
| `PromiseLock.FirstComeFirstServed` | apps/desktop/src/main/agent-control-service.ts:1102-1117 | A caller starts only when every earlier caller of its key is done |
| `PromiseLock.NeverStuck` | apps/desktop/src/main/artifact-manager.ts:1250-1268 | While a caller of a key is not done, one of them holds the lock or can take it |
| `PromiseLock.ChainIsLast` | apps/desktop/src/main/agent-control-service.ts:1104-1109 | The chained promise a caller leaves behind is resolved exactly when that caller is done |
| `PromiseLock.RefinesQueue` | apps/desktop/src/main/agent-control-service.ts:1102-1117 | The lock is a first-in first-out queue for each key, which holds exactly its unfinished callers in order of arrival: arriving joins its end, only its head enters, leaving removes the head |
| `PromiseLock.EntryExact` | apps/desktop/src/main/agent-control-service.ts:1102-1117 | In every run the map holds exactly the keys whose last caller has not come to deleting its entry: nothing stays behind, and no caller deletes the entry of a later one |
| `PromiseLock.LockTable.Release` | apps/desktop/src/main/agent-control-service.ts:1113-1116 | Releasing resolves the promise and deletes the map entry only if it is still one's own |
| `RootCreation.NoOverlap` | apps/desktop/src/main/agent-control-service.ts:838-904 | The creations of a request never overlap, and none runs once one has succeeded |
| `RootCreation.OneCreation` | apps/desktop/src/main/agent-control-service.ts:838-904 | At most one reply of a request is not marked replayed, and all replies with a session carry the same one under the same fingerprint |
| `RootCreation.ReplyExact` | apps/desktop/src/main/agent-control-service.ts:853-904 | In any run, a call that waited for an operation replies with its session exactly if it succeeded, marked replayed exactly if another call started it, and with a failure exactly if it broke; any other call that is not refused replies with the result on record |
| `RootCreation.ResultAnswers` | apps/desktop/src/main/agent-control-service.ts:853-858 | A request on record is answered from it at once, or refused if the fingerprint differs, and nothing is started |
| `RootCreation.SharedOperation` | apps/desktop/src/main/agent-control-service.ts:860-904 | Calls that wait for one operation share its request and fingerprint, only one of them started it, and its session is the cached one once it succeeded |
| `RootCreation.RefusedExactly` | apps/desktop/src/main/agent-control-service.ts:853-904 | In any run, a call that arrives while its request has a result or an operation in flight is refused, then or ever, exactly if its fingerprint differs from that of a call which belongs to it, and it starts no operation |
| `RootCreation.RecordHasCall` | apps/desktop/src/main/agent-control-service.ts:853-904 | In any run a request has a result or an operation in flight exactly if some call belongs to it |
| `RootCreation.ReopensExactly` | apps/desktop/src/main/agent-control-service.ts:853-904 | In any run, with nothing in flight, a call starts another operation exactly if there is no result, which is exactly if every operation of the request that created a session broke afterwards |
| `RootCreation.SecondSession` | apps/desktop/src/main/agent-control-service.ts:868-904 | In any state of any run, some continuation gives the request a session beside that of an earlier operation if and only if that operation broke after creating it or is still describing it |
| `RootCreation.BrokenViewCreatesTwice` | apps/desktop/src/main/agent-control-service.ts:871-889 | A run from the start that creates two sessions for one request |
| `RootCreation.RootRequests.CreateRootSession` | apps/desktop/src/main/agent-control-service.ts:853-898 | A call replies from the result table, joins the operation in flight, is refused, or starts an operation, and changes the tables accordingly |
| `GitHubLinks.ParseIgnoresDecoration` | packages/domain/src/github-links.ts:62-89 | Letter case of the prefix, a trailing slash, query and fragment do not matter: only the words of the path decide |
| `GitHubLinks.ParseIdempotent` | packages/domain/src/github-links.ts:62-89 | The URL of a parsed link parses to the same link and is no longer than the input |
| `GitHubLinks.ParseReads` | packages/domain/src/github-links.ts:62-89 | The URL of any admissible owner, repository, kind and number parses to exactly these, with the names in lower case |
| `GitHubLinks.ParsedParts` | packages/domain/src/github-links.ts:62-89 | Whatever parses has admissible parts, and its URL is made of them |
| `LinkRetention.SelectedOptimal` | packages/domain/src/github-links.ts:15-42 | Every identity kept carries the best priority it occurred with, and one that is not kept was no better than anything in a full map |
| `LinkRetention.NothingBetterDropped` | packages/domain/src/github-links.ts:15-42 | No identity dropped has a better best priority over the whole input than one kept |
| `LinkRetention.KeepsAsManyAsFit` | packages/domain/src/github-links.ts:15-42 | As many identities are kept as occur, up to 128, and all of them if no more occur |
| `LinkRetention.TasksKept` | packages/domain/src/github-links.ts:15-42 | The identities kept at the best priority are exactly the first 128 distinct ones by first link of that source |
| `LinkRetention.RankedSorts` | packages/domain/src/github-links.ts:50 | The ranking is an ordering of the same entries by priority and then by arrival |
| `LinkRetention.NormalizedExact` | packages/domain/src/github-links.ts:15-52 | A link is in the normal form exactly if its identity is kept and some input parses to it with the kind it claims; none is there twice |
| `LinkRetention.NormalizedIdempotent` | packages/domain/src/github-links.ts:15-52 | Normalizing twice equals normalizing once, for every input list |
| `LinkRetention.AbsorbExact` | packages/domain/src/github-links.ts:15-52 | Replacing links in source order by their normal form changes nothing that follows if and only if each identity kept in the end, that had occurred and been dropped, is given all its earlier links again, in order and first |
| `LinkRetention.ReadmittedAlone` | packages/domain/src/github-links.ts:15-52 | A case where it does change: after 128 repositories named in prompts, one more is dropped as an output link and comes back as a task link, without its output link |
| `LinkRetention.PageAbsorbed` | packages/domain/src/github-links.ts:15-52 | With all links in source order, normalizing a part first never changes the result |
| `LinkRetention.NormalizeRetainedGitHubLinks` | packages/domain/src/github-links.ts:15-52 | The two loops with their map compute the normal form the theorems are about |
| `GitHubRepository.LookupNeverMisses` | packages/db/src/repositories/github-repository.ts:50-52 | Every link of the normal form has a first row, so the asserted lookup finds one |
| `GitHubRepository.PageFold` | packages/db/src/repositories/github-repository.ts:41-54 | For rows in source order and every page size, folding a page into the selection gives the links and first-seen times of selecting from all rows at once |
| `GitHubRepository.AdmissionKeeps` | packages/db/src/repositories/github-repository.ts:55-60 | The identities and priorities admitted are those of all stored rows and the input together |
| `GitHubRepository.AdmissionExact` | packages/db/src/repositories/github-repository.ts:41-60 | An admission gives the very rows of selecting from all stored rows and the input at once if and only if every dropped identity that comes back is given its earlier links again, and every dropped link that comes back and is kept its first time |
| `GitHubRepository.ReadmittedLater` | packages/db/src/repositories/github-repository.ts:41-60 | A case in which no link is lost but a first time: a 129th repository is dropped as an output link at time 5 and comes back at time 10, with that link and a task link |
| `GitHubRepository.SettledAdmission` | packages/db/src/repositories/github-repository.ts:41-60 | From settled rows, which every admission leaves, an admission always gives the rows of selecting from everything at once |
| `GitHubRepository.SelectSettled` | packages/db/src/repositories/github-repository.ts:55-60 | The rows admitted are unique, canonical and within the limits |
| `GitHubRepository.SelectSame` | packages/db/src/repositories/github-repository.ts:41-54 | Selecting from rows that are settled gives the same rows |
| `GitHubRepository.SettledIsCompared` | packages/db/src/repositories/github-repository.ts:46 | A settled table is always small enough to be compared before it is rewritten |
| `GitHubRepository.SelectStored` | packages/db/src/repositories/github-repository.ts:38-54 | The loop over pages computes the selection from all stored rows |
| `GitHubRepository.SessionLinks.AdmitLinks` | packages/db/src/repositories/github-repository.ts:28-70 | Admission refuses exactly oversized tables and foreign rows; otherwise it stores and returns the selection, and leaves a settled table alone when there is no input |
| `Reconnection.OneTimerOneAttempt` | packages/hosts/src/reconnection-supervisor.ts:67-251 | In every interleaving a host has at most one live timer, which the table names, at most one attempt in flight, as the set says, and no attempt number beyond the limit |
| `Reconnection.StrandedExact` | packages/hosts/src/reconnection-supervisor.ts:149-160 | A step leaves a reconnecting host with nothing that will try again exactly if a start is swallowed while the attempt in flight is already over and nothing else waits |
| `Reconnection.NeverStranded` | packages/hosts/src/reconnection-supervisor.ts:99-251 | Without such a step a reconnecting host always has a timer, a manual retry or an attempt that goes on |
| `Reconnection.StrandingRun` | packages/hosts/src/reconnection-supervisor.ts:99-227 | A run of six steps that strands a host |
| `Reconnection.AtMostMaxAttempts` | packages/hosts/src/reconnection-supervisor.ts:133-227 | Without new drops, retries or marks at most `maxAttempts` attempts start, and as many again for each manual retry that was waiting |
| `Reconnection.AllAttemptsTried` | packages/hosts/src/reconnection-supervisor.ts:99-227 | After a drop, if every attempt fails, the host comes to rest only after exactly the maximum number of attempts, disconnected at the last one |
| `Reconnection.DropSchedules` | packages/hosts/src/reconnection-supervisor.ts:99-131 | A drop sets the timer of the first attempt exactly if the host is not reconnecting with a timer set |
| `Reconnection.LastAttempt` | packages/hosts/src/reconnection-supervisor.ts:165-182 | An attempt that succeeds or fails to authenticate is the last: the host is connected or disconnected, and without a manual retry no other starts |
| `Reconnection.MarkStopsExactly` | packages/hosts/src/reconnection-supervisor.ts:67-103 | Marking the host, and a drop for a failed authentication, ends the trying exactly if no attempt is in flight that is about to set its timer or may still fail with others to come |
| `Reconnection.AttemptOutlivesDrop` | packages/hosts/src/reconnection-supervisor.ts:99-222 | A run in which the host drops for a failed authentication while an attempt is in flight, and another attempt follows |
| `Reconnection.RetryStarts` | packages/hosts/src/reconnection-supervisor.ts:232-251 | A manual retry cancels the timer and attempts at once, with the number of the sequence it interrupts, unless an attempt is in flight |
| `Reconnection.ComesToRest` | packages/hosts/src/reconnection-supervisor.ts:133-227 | A host left alone comes to rest within a bound on its steps; then it has no timer and nothing in flight, and is not reconnecting unless stranded |
| `Reconnection.HostReconnectionSupervisor.HandleConnectionDrop` | packages/hosts/src/reconnection-supervisor.ts:99-131 | A drop changes one host's entries in the three tables as the step says and no other host's |
| `Reconnection.HostReconnectionSupervisor.ActionReturns` | packages/hosts/src/reconnection-supervisor.ts:165-223 | The result of an attempt connects, disconnects, exhausts or reschedules the host as the step says, and touches no other host |
| `Reconnection.HostReconnectionSupervisor.RetryNow` | packages/hosts/src/reconnection-supervisor.ts:232-251 | A manual retry clears the timer and keeps the attempt number of a host that is reconnecting |
| `PtyBroker.NothingLost` | apps/desktop/src/main/pty-broker.ts:126-266 | What was sent and what is pending are together the chunks received, in order: all pending before the renderer is ready, none after |
| `PtyBroker.PausesAlternate` | apps/desktop/src/main/pty-broker.ts:142-163 | Pause and resume strictly alternate, and the flag says which came last |
| `PtyBroker.PausedIsOutstanding` | apps/desktop/src/main/pty-broker.ts:239-280 | With the low mark below the high one a paused channel has more than the low mark outstanding and a running one less than the high mark |
| `PtyBroker.OutstandingExact` | apps/desktop/src/main/pty-broker.ts:126-280 | In every run what is outstanding is the most that any last stretch of events brought beyond what it acknowledged: acknowledging too much is not held against what comes later |
| `PtyBroker.PausedExact` | apps/desktop/src/main/pty-broker.ts:126-280 | In every run the stream is paused exactly if the high mark was reached and more than the low mark has been outstanding ever since |
| `PtyBroker.AcksResume` | apps/desktop/src/main/pty-broker.ts:142-163 | However acknowledgements are split, a paused channel resumes, once, exactly when they bring what is in flight down to the low mark |
| `PtyBroker.BoundedBuffer` | apps/desktop/src/main/pty-broker.ts:260-279 | If the stream obeys a pause, less than the high mark and one chunk is ever outstanding |
| `PtyBroker.ManagedPty.Ready` | apps/desktop/src/main/pty-broker.ts:126-137 | The flush sends all pending chunks in order and counts them as in flight |
| `ControlGateway.CutDoesNotMatter` | apps/desktop/src/main/control-gateway.ts:296-321 | If no line is over the limit, the requests dispatched are the non-blank lines of the whole stream in order, however it is cut into chunks, and nothing is rejected |
| `ControlGateway.DispatchedInOrder` | apps/desktop/src/main/control-gateway.ts:296-321 | For every stream, what is dispatched is the first part of its requests, and without a rejection it is all of them and none was over the limit |
| `ControlGateway.SomeCutRejected` | apps/desktop/src/main/control-gateway.ts:296-321 | Some way of cutting a text into chunks is rejected if and only if one of its lines, blanks included, or its unfinished end is over the limit |
| `ControlGateway.OnePieceRejected` | apps/desktop/src/main/control-gateway.ts:296-321 | Sent in one piece, a text is rejected if and only if one of its lines is over the limit after trimming, or its unfinished end is over the limit |
| `ControlGateway.CutMattersExactly` | apps/desktop/src/main/control-gateway.ts:296-321 | Whether a text is rejected depends on how it is cut if and only if its trimmed lines and its unfinished end are within the limit, but some line is not before trimming |
| `ControlGateway.PaddedRequestDependsOnCut` | apps/desktop/src/main/control-gateway.ts:296-321 | Every request within the limit that enough blanks before it put over is such a text: dispatched in one piece, rejected when cut before its newline |
| `ControlGateway.NothingAfterRejection` | apps/desktop/src/main/control-gateway.ts:262-320 | After a rejection nothing more is dispatched |
| `ControlGateway.EndedOnce` | apps/desktop/src/main/control-gateway.ts:257-313 | The socket is ended at most once, only after a rejection and when every handler has settled, and then it is if it still exists |
| `ControlGateway.EndedExactly` | apps/desktop/src/main/control-gateway.ts:257-313 | In every run the socket is ended exactly if at some moment it still existed, a request had been rejected, and every handler had settled |
| `ControlGateway.Connection.DrainBuffer` | apps/desktop/src/main/control-gateway.ts:296-316 | The loop over the buffer dispatches, keeps and rejects as the specification says |
| `ContextStore.InCallOrder` | apps/desktop/src/main/session-context-store.ts:79-86 | In every interleaving the operations take effect one after the other in the order of the calls, each on what the one before left |
| `ContextStore.FinishActsOnLatest` | apps/desktop/src/main/session-context-store.ts:102-136 | An update or a retention acts on the content stored when it finishes, although it loaded it earlier |
| `ContextStore.ResultSays` | apps/desktop/src/main/session-context-store.ts:62-140 | In any run the result of an operation says exactly what it did to the file it found: the changed context is stored and returned, or why nothing was |
| `ContextStore.SaveOnlyOverLoaded` | apps/desktop/src/main/session-context-store.ts:62-73 | A save of a loaded context succeeds exactly if the revision is still that of the load and the write does, and then the file still holds what was loaded |
| `ContextStore.SaveAfterLoad` | apps/desktop/src/main/session-context-store.ts:62-73 | The save of a context just loaded is written exactly if its write succeeds and no operation that was still under way at the load changes the file first |
| `ContextStore.EveryCallEnds` | apps/desktop/src/main/session-context-store.ts:79-86 | However far a run has come, every operation can still end, whether its write succeeds or not |
| `ContextStore.NewSaveIsFirst` | apps/desktop/src/main/session-context-store.ts:62-73 | In any run the save of a context that was never loaded is written if and only if the write itself succeeds, there was no file at revision zero, and no earlier operation changed it; so at most one such save ever is |
| `ContextStore.RevisionGrows` | apps/desktop/src/main/session-context-store.ts:88-99 | Every write and every delete raises the revision by one, and nothing else changes the file |
| `ContextStore.SameRevisionSameFile` | apps/desktop/src/main/session-context-store.ts:88-99 | Along the sequence of operations the revision never falls, and while it is the same the file is the same |
| `ContextStore.RetainExact` | apps/desktop/src/main/session-context-store.ts:128-136 | Retaining leaves the normal form of stored and new links; normalizing again on writing changes nothing |
| `ContextStore.SessionContextStore.SaveContext` | apps/desktop/src/main/session-context-store.ts:62-100 | Saving changes the file and revision of its own path as specified, and no other path |
| `ContextStore.SessionContextStore.RetainLinks` | apps/desktop/src/main/session-context-store.ts:128-136 | Retaining links writes only if they change, to its own path |
| `FileLog.FilesAreSuffix` | packages/domain/src/logger.ts:380-442 | At every moment the archives from the oldest on and then the log are a suffix, in whole entries, of what was there and was written; no file is over its limit and there are at most `maxFiles` archives |
| `FileLog.RotationLosesOldest` | packages/domain/src/logger.ts:380-392 | Writing a line loses nothing but, when it rotates, exactly the oldest archive |
| `FileLog.QueueNeverForgotten` | packages/domain/src/logger.ts:433-463 | The byte count is that of the queue, both limits hold, no entry waits without a drain under way, and when no drain is under way all accepted entries are written |
| `FileLog.AcceptedExactly` | packages/domain/src/logger.ts:452-460 | In any run an entry is accepted exactly if the log was not closed, the entry fits a file, and the queue has room for it in entries and bytes; otherwise nothing changes |
| `FileLog.CloseLosesNothing` | packages/domain/src/logger.ts:461-468 | When `close` returns every accepted entry has been written in order, and the log does not change any more |
| `FileLog.DrainComesToEnd` | packages/domain/src/logger.ts:433-450 | A drain can always go on, and each of its steps brings its end nearer |
| `FileLog.Rotate` | packages/domain/src/logger.ts:380-392 | The loop of unlinks and renames moves every file up by one and drops the oldest archive, whatever slots are missing |
| `FileLog.FileLogHandler.WriteLine` | packages/domain/src/logger.ts:433-442 | One turn of the drain writes its line and takes the next one |
| `ArtifactCache.ReconcileCache` | apps/desktop/src/main/artifact-manager.ts:1205-1229 | The eviction loop computes the outcome the theorems are about, also when files cannot be removed |
| `ArtifactCache.ReconcileFaithful` | apps/desktop/src/main/artifact-manager.ts:1205-1229 | Without failures no file left is over its limit, the total is within the limit, each removed file that was within its limit is no newer than any file left, and the last of them was needed |
| `ArtifactCache.ReconcileExact` | apps/desktop/src/main/artifact-manager.ts:1213-1228 | With failures nothing is lost, the total is that of the files left, and a limit is still broken only by files that could not be removed |
| `ArtifactCache.WritesStayWithin` | apps/desktop/src/main/artifact-manager.ts:1167-1191 | However many writers there are and whatever is removed meanwhile, the cache never holds more than its limit, or than it held at the start |
| `ArtifactCache.UsedExact` | apps/desktop/src/main/artifact-manager.ts:1167-1191 | Over any steps, what the cache holds is what it held, plus what was written, less what was removed |
| `ArtifactCache.AdmittedExactly` | apps/desktop/src/main/artifact-manager.ts:1167-1191 | A writer whose turn it is may write all it announced exactly if that fits the limit at this moment; otherwise it is done and nothing changed |
| `ArtifactCache.EveryWriterEnds` | apps/desktop/src/main/artifact-manager.ts:1181-1191 | However far a run has come, every writer can still get its turn and be done |
| `RateLimiter.SimpleRateLimiter.Check` | apps/desktop/src/main/mobile-api-server.ts:49-62 | A check prunes the list, decides, and adds the time only if it allows |
| `RateLimiter.KeptDecidesAsHistory` | apps/desktop/src/main/mobile-api-server.ts:49-62 | The pruned list decides every check exactly as the full history of allowed checks would |
| `RateLimiter.AtMostPerWindow` | apps/desktop/src/main/mobile-api-server.ts:49-62 | No window of the configured length, wherever it lies, holds more allowed checks than the limit |
| `RateLimiter.DeniedCostsNothing` | apps/desktop/src/main/mobile-api-server.ts:54-58 | Later checks are decided as if a denied check had not been made |
| `RateLimiter.RetryExact` | apps/desktop/src/main/mobile-api-server.ts:54-58 | After a denial with nothing else admitted a check is allowed exactly from the moment the oldest entry leaves the window, and the wait is the first whole number of seconds that reaches it |
| `RateLimiter.WaitingWorks` | apps/desktop/src/main/mobile-api-server.ts:54-58 | Waiting as long as the limiter says makes the next check succeed |
| `PathSecurity.Canonicalize` | packages/domain/src/path-security.ts:9-35 | The loop over the segments computes the walk the theorems are about |
| `PathSecurity.SegmentsNormal` | packages/domain/src/path-security.ts:17-30 | Canonical segments are not empty, never `.`, and `..` only in front of a relative path |
| `PathSecurity.CanonicalExact` | packages/domain/src/path-security.ts:9-35 | Canonicalizing fails exactly for the empty path and NUL, and is idempotent if and only if the result is not empty |
| `PathSecurity.DriveTop` | packages/domain/src/path-security.ts:9-35 | The canonical form of `C:/..` is empty, and canonicalizing that fails |
| `PathSecurity.MeaningKept` | packages/domain/src/path-security.ts:17-34 | Following the canonical path leads to the same directory as following the path, for a relative one from every directory |
| `PathSecurity.ContainedExact` | packages/domain/src/path-security.ts:41-58 | Below an absolute POSIX root containment is the prefix order on canonical segments |
| `PathSecurity.NamedContained` | packages/domain/src/path-security.ts:41-58 | Below a drive or a relative root with a name, containment is the prefix order on canonical segments too, up to letter case if the canonical root is a drive path |
| `PathSecurity.NamelessContained` | packages/domain/src/path-security.ts:41-58 | `.` contains only itself, and a drive path whose segments cancel out contains everything that begins with a slash |
| `PathSecurity.RelativeContained` | packages/domain/src/path-security.ts:38-58 | Below a relative root with a name, contained means lying below it from every directory. A root of `..` only contains exactly what goes up at least as far, while exactly what goes up at most as far lies below it; `.` contains only itself |
| `PathSecurity.GrandparentBelow` | packages/domain/src/path-security.ts:38-58 | `../..` is taken to lie below `..` |
| `PathSecurity.ContainmentOrder` | packages/domain/src/path-security.ts:41-58 | On absolute POSIX paths containment is reflexive, transitive and, up to canonical form, antisymmetric |
| `PathSecurity.ResolvedInside` | packages/domain/src/path-security.ts:63-75 | Whatever resolves below an absolute POSIX root is canonical and lies below it |
| `PathSecurity.RoundTrip` | packages/domain/src/path-security.ts:63-85 | For every contained path: the relative form exists exactly if the path begins with a slash or the names of the root that a leading backslash leaves standing do not keep it from lying below; and resolving it gives the path back exactly if it is not empty, as it is for the root, does not look like a drive path, and no name is left standing |
| `PathSecurity.BackslashTarget` | packages/domain/src/path-security.ts:67-70 | A contained path that begins with a backslash is looked for behind the names of the root that it does not climb over |
| `PathSecurity.BackslashBelow` | packages/domain/src/path-security.ts:63-85 | With `\r\x` below `/r`, the relative form is `r/x`, which resolves to `/r/r/x` |
| `PathSecurity.DriveNameBelow` | packages/domain/src/path-security.ts:63-85 | `/r/C:/x` lies below `/r` with the relative form `C:/x`, which does not resolve below `/r` |
| `ShellQuoting.QuotedIsOneWord` | packages/hosts/src/tmux-session.ts:67-69 | Any text, quoted, reads back as one word that is that text |
| `ShellQuoting.UnquotedExact` | packages/hosts/src/tmux-session.ts:232-236 | Text reads back as itself without quotes if and only if it is not empty, has none of the characters that mean something to the shell, and does not begin with `#` or `~` |
| `ShellQuoting.QuotingExact` | packages/hosts/src/tmux-session.ts:232-236 | The characters the code quotes for cover those of the shell: what it leaves unquoted reads back as itself unless empty; what it quotes would also do so unquoted exactly if all its characters of that kind are `!`, `]`, `{`, `}` or an inner `#` or `~` |
| `ShellQuoting.NeedlessQuotes` | packages/hosts/src/tmux-session.ts:232-236 | A part that is quoted and would read back the same without |
| `ShellQuoting.LaunchExact` | packages/hosts/src/tmux-session.ts:225-236 | The launch command reads back as the settings and the parts if and only if no part is empty |
| `ShellQuoting.EmptyPartLost` | packages/hosts/src/tmux-session.ts:225-236 | A command of the part `a` and an empty one reads back as `a` alone |
| `ShellQuoting.SendKeysReads` | packages/hosts/src/tmux-session.ts:246 | The outer shell hands tmux the session name and the text exactly as they are |
| `ShellQuoting.ThroughBothShells` | packages/hosts/src/tmux-session.ts:225-248 | Through both levels the shell in the session reads the settings and the words of the command |
| `DashboardHistory.PageExact` | packages/db/src/dashboard-history/repository.ts:37-48 | A page holds exactly the rows of the range past its start and up to its last one, and a next cursor exists only if the page is full and names its last row |
| `DashboardHistory.PagesFaithful` | packages/db/src/dashboard-history/repository.ts:37-48 | Following the cursors to the end while rows are added to the table gives rows in strict order, none twice, all in the range, and every row of the range that was there at the start |
| `DashboardHistory.PagesUnderInserts` | packages/db/src/dashboard-history/repository.ts:22-48 | So it does whatever batches of rows with new identifiers are inserted between the requests; a row that was not there at the start is one of those inserted |
| `DashboardHistory.StillPages` | packages/db/src/dashboard-history/repository.ts:37-48 | While nothing is inserted, a number of requests reaches the end if and only if they have room for all rows of the range, and they give those rows in order as far as there is room |
| `DashboardHistory.PagesEnd` | packages/db/src/dashboard-history/repository.ts:37-48 | With an unchanging table one request more than there are full pages always reaches the end, and the pages are exactly the rows of the range |
| `DashboardHistory.BuildView` | packages/db/src/dashboard-history/repository.ts:54-77 | The loop over the buckets computes the view the theorems are about |
| `DashboardHistory.AtMost399` | packages/db/src/dashboard-history/repository.ts:61-68 | The range is cut into at most 399 buckets that follow each other without overlap or hole; all but the last have the same width, and no smaller one would do |
| `DashboardHistory.RangeExact` | packages/db/src/dashboard-history/repository.ts:54-60 | The range that is cut holds exactly the observations asked for, and begins and ends with those or with what was asked |
| `DashboardHistory.ViewFaithful` | packages/db/src/dashboard-history/repository.ts:54-77 | There are at most 400 points; every observation of the range lies in exactly one bucket, which has one point, and that shows its first row, whether there are more, and whether any is a gap |
| `DashboardHistory.LeadExact` | packages/db/src/dashboard-history/repository.ts:66-67 | The leading gap point is there exactly if the last observation before the range is a gap |

## Left out

- SSH, SFTP, node-pty, tmux, git, Electron, notifications and the UI: foreign calls appear as arbitrary results of a step.
- SQL: a table is a sequence in the order of its query, a transaction is one step; the gap a start of the application records in the dashboard history.
- Text is a sequence of code points. Captures are taken to be well-formed Unicode where a theorem says so, and whether the output begins with the earlier one is asked of whole characters; the decoder that joins byte chunks on the control socket is not part of the model.
- State rules, output compaction and response extraction: the detected status and whether a response was seen are inputs of a refresh, whether a chunk holds a delimited response is one of a read, and turns are read in raw mode. A cursor is modelled parsed, not as text.
- A finer interleaving of the registry than one service call at a time, beyond the late refresh and the prompt that is handed over late; tracked turns are values in the registry, so sharing one turn object between calls is not captured.
- Resolving the session a prompt is for, and how long a call waits for it to get ready.
- `RootCreation`: validation, creation and description of a session either succeed or fail; a failing change notification after the result was stored is not modelled.
- Batch session creation and concurrent finalization requests, which have no table of operations in flight.
- `new URL` in the link parser is taken to accept exactly what begins with the literal prefix and matches the path pattern; metadata with missing or malformed fields is not modelled. The links collected in the first pass are cleared by the code before they are used and are not modelled.
- `findGitHubLinks`, which scans text for links, and rows with types the admission query filters out, which are counted but have no content.
- Redraw detection, activity metrics and closing a channel in the PTY broker; a failing pause or resume of the stream.
- `dispose` of the supervisor, backoff delays, error texts and times of the last connection; a maximum of zero attempts behaves like one for the first try.
- What handlers of control requests do and reply, and authentication before it; the drain deadline is a socket that is destroyed.
- `restoreDeleted`, snapshots for rollback and listing in the context store; parsing a file is the inverse of writing it; a failing file system is one result that changes nothing.
- Failing initialization of the log, failing log writes, the text of an entry, and the log's file modes. `wipeOnStart`, which replaces the log by a header line when it is opened: the files at the start of a run are what is there after that.
- Removing empty cache directories and what a cache write stores, beyond its size; a write stores no more than it announced.
- `reset` of the limiter within a run; a limit below one request.
- Drive paths and relative roots in the theorems on containment as an order, on resolving and on relative forms; `toLowerCase` is an arbitrary function, which where it matters treats the text on both sides of a slash on its own.
- Words that look like assignments or reserved words, and NUL, in the launch command; names of variables that need quoting. The reader takes `*`, `?` and `[` for patterns wherever they stand, and does not expand history.
- Rounding of the bucket width, which is exact for times below 2^52; the count of closed sessions.
