# Verification of the ccbd control plane

A Dafny model of the parts of ccbd whose correctness is hardest to see from the code, with proofs of what
they promise. Each module follows one component:

- `TokenRefresh` — the Claude gateway's double-checked token refresh, as threads taking atomic steps in any
  order, with monotone clocks and an upstream that may answer anything at any time. `GatewayCore` is the
  sequential body, proved equal to an undisturbed run of one thread.
- `Base64Url`, `Utf8`, `Json`, `JsonGrammar`, `WorkerJwt` — the gateway's unpadded base64url codec against the bit
  stream of sections 3.2, 3.5 and 5 of RFC 4648, and the unsigned worker token minted and read on top of it, through a
  JSON reader proved against the grammar of RFC 8259.
- `ShellQuote`, `BridgeScript` — the single-quote quoter against a lexer for sections 2.2, 2.3 and 2.6 of the POSIX
  Shell Command Language, and the wrapper script that quoted paths are put into.
- `LogTail` — the cursor-based reader of provider logs against one read of the final file.
- `MasterRevival` — the generation-fenced revival of session masters and the cutover table: any number of
  watchers, in any order, with any stale arguments. `MasterStore` is the code: each of its methods is one step for
  each acquisition of the connection (`Perform` says which), and between two acquisitions anyone may step in.
- `JobGate` — the job state gate with its audit trail, late evidence, cancel takeover and requeue. The check of
  a gate call and its UPDATE are separate steps that other calls may come between. `JobStore` is the code.
- `WslConf` — the planner of the systemd edit of wsl.conf.
- `RuntimeSnapshot` — the classification of a daemon's state and the window of job events in a snapshot.

A protocol is a total function from a state and a step to the next state; a step whose guard fails changes
nothing. A run is any sequence of steps from the initial state, and the main lemmas quantify over all of them.
Clocks, the upstream, the line parsers of the log reader, tmux probes and file contents are parameters.

`dafny verify dfyconfig.toml` checks everything.

Some statements are about limits of the code:

- A poll that cuts a log line in two loses the rest of that line. Incremental reading agrees with one read for every
  parser exactly when no poll does so (`CleanTailIsOneRead`, `CutLineIsLost`), and otherwise reads the fronts of the
  cut lines in their place (`TailReadsFronts`).
- A worker id with a control character other than newline, carriage return or tab is minted into a token that
  its own reader refuses; every other non-empty id is read back (`MintedTokenIsRead`).
- The interlock between revival and cutover is as fresh as its read: a claim can succeed beside a cutover that was
  begun after the answer Revive, and only then (`InterlockExactly`, `InterlockKept`, `InterlockRace`).
- A cancellation that was set when a recovered job was inserted has no audit row, so once the job is dispatched the
  takeover never fires for it (`TakeoverIsBounded`, `RecoveredCancelHangs`). The orchestrator's dispatch
  (src/orchestrator/mod.rs:1085, src/db/jobs.rs:376-431) takes the oldest QUEUED job without looking at the flag, so
  it does dispatch such a job. The query that passes flagged jobs over (src/db/jobs.rs:341) is not on that path.
- A rejected requeue can change `error_reason` (`RequeueJobState` gives the exact condition).
- More than 500 events between two snapshots are lost to a consumer that follows the cursor
  (`FollowingIsLossless`).

## Model

| member | source | states |
|---|---|---|
| TokenRefresh.Invariant | src/claude_gateway.rs:113-192 | In every state of every interleaving only the lock holder is between the re-check and the release, and token, failure cache and events agree with the upstream's log but for what the holder is still to write. |
| TokenRefresh.RefreshesFormAChain | src/claude_gateway.rs:142-185 | At most one refresh is in flight, calls and answers alternate, and every call presents the refresh token of the most recent success, the seed if none. |
| TokenRefresh.RefreshesAreSpaced | src/claude_gateway.rs:33-39 | After a success no call starts until that token is within 300 s of expiry; after a refused grant none starts for 30 s. Both in nanoseconds, as literals. |
| TokenRefresh.CellsReplayTheLog | src/claude_gateway.rs:152-185 | With the lock free, the token is the latest one issued, the cache holds the standing refusal, and there is one RefreshFailed event for each failed call, in order, with the code and upstream text of its kind of refusal. |
| TokenRefresh.AnswersAreGenuine | src/claude_gateway.rs:142-185 | Every answer was decided by one step of the call that returns it: an access token was then the shared token, with more than 300 s left, or came from the upstream in answer to this call; an error is 401 with the invalid-grant code and the upstream's text, or the upstream's status with the failure code, as this call was refused, or it is the standing refusal, stored less than 30 s before. |
| TokenRefresh.LockIsReleased | src/claude_gateway.rs:147-185 | In every schedule, whatever other threads do and the upstream answers, the lock has been released by the time its holder has moved ten times. |
| TokenRefresh.GatewayCore.ValidAccessToken | src/claude_gateway.rs:142-185 | The sequential body leaves token, cache and events, and returns, as the machine does for an undisturbed thread; and, said without the machine: more than 300 s left is answered at once, a refusal under 30 s old is repeated, and otherwise the upstream's answer is applied, a refused grant cached with the clock after the call. |
| TokenRefresh.GatewayCore.RefreshUnderLock | src/claude_gateway.rs:147-185 | The same for the part under the refresh lock, from its re-check on. |
| TokenRefresh.CacheAnswersStandingRefusal | src/claude_gateway.rs:155-192 | Under the lock a caller is let through exactly if nothing is cached or 30 s have passed since the step that stored the refusal; otherwise it is answered with that refusal, which is the refused grant that no refresh has followed. |
| TokenRefresh.StampIsTheClock | src/claude_gateway.rs:172-192 | In every run the stamp of a cached refusal is the clock of the step that stored it, so it is never ahead of the clock, and nothing has replaced it since. |
| TokenRefresh.ValidTokenNeedsNoLock | src/claude_gateway.rs:142-148 | A caller that finds a token with more than 300 s left has it two steps after it starts, whoever holds the lock; any other goes to wait. Nothing shared moves. |
| TokenRefresh.ClocksShowTheTicks | src/claude_gateway.rs:113-192 | The clocks of a run show the time its ticks have added. |
| Base64Url.RoundTrip | src/claude_gateway.rs:1079-1121 | Every byte sequence is decoded back from its encoding. |
| Base64Url.EncodeAlphabet | src/claude_gateway.rs:1079-1097 | Encodings use only the letters, the digits, '-' and '_', and the decoder knows every one of these. |
| Base64Url.AlphabetIs | src/claude_gateway.rs:1079-1121 | A to Z stand for 0 to 25, a to z for 26 to 51, 0 to 9 for 52 to 61, '-' for 62 and '_' for 63, in both directions, and no other character has a value. |
| Base64Url.DecodeAlphabet | src/claude_gateway.rs:1099-1121 | A string is decoded exactly if it is made of these characters. |
| Base64Url.EncodeInjective | src/claude_gateway.rs:1079-1097 | Different byte sequences have different encodings. |
| Base64Url.CanonicalForm | src/claude_gateway.rs:1099-1121 | n alphabet characters decode to floor(6n/8) bytes, and encoding these gives the string back exactly if n mod 4 is not 1 and the leftover bits are zero. |
| Base64Url.ChunkSextetsBits | src/claude_gateway.rs:1081-1095 | The sextets of a chunk of one to three bytes carry its bits, zero-padded to a whole sextet. |
| Base64Url.EncodeChunk | src/claude_gateway.rs:1081-1095 | The loop body pushes the characters of these sextets, computed from the 24-bit word. |
| Base64Url.EncodeChunks | src/claude_gateway.rs:1079-1097 | The chunk loop computes the encoding defined by regrouping the bit stream. |
| Base64Url.DecodeBits | src/claude_gateway.rs:1099-1121 | The shift accumulator never overflows 32 bits, holds 0, 2, 4 or 6 bits after each step, and computes the decoding; it fails exactly on a character outside the alphabet. |
| Base64Url.LowBitsMask | src/claude_gateway.rs:1123-1129 | For every count that a 32-bit shift allows, the mask is one less than that power of two. |
| Utf8.RoundTrip | src/claude_gateway.rs:280-317 | A text is read back from its UTF-8 bytes. |
| Utf8.DecodeIsExact | src/claude_gateway.rs:293-317 | Bytes are accepted exactly if they are the encoding of a text, the one that is read. |
| JsonGrammar.ParseIsExact | src/claude_gateway.rs:1060-1063 | The JSON reader accepts a text exactly if the grammar of RFC 8259 derives it, white space, escapes, surrogate pairs and exponents included, and reads it as what it derives; of two members of one name the later one stands. |
| JsonGrammar.TreeIsRead | src/claude_gateway.rs:1060-1063 | Every derivation is read as its meaning, whatever follows it. |
| JsonGrammar.TreeOnly | src/claude_gateway.rs:1060-1063 | Whatever the reader takes from the front of a text has a derivation with that meaning. |
| WorkerJwt.EscapedIsRead | src/claude_gateway.rs:1065-1077 | The JSON string reader undoes the escaping of every string whose only control characters are newline, carriage return and tab, and refuses every other one. |
| WorkerJwt.HeaderIsRead | src/claude_gateway.rs:280-285 | The token's header parses to its two members. |
| WorkerJwt.PayloadIsRead | src/claude_gateway.rs:280-291 | The payload parses to its three members exactly for such ids. |
| WorkerJwt.MintedTokenIsRead | src/claude_gateway.rs:280-317 | For every string: reading its minted token gives it back, reports a missing id for the empty one, and a bad segment exactly if it has another control character. |
| WorkerJwt.TokenFitsItsChannel | src/claude_gateway.rs:195-217 | A minted token is accepted on a channel exactly if it was minted for that channel's non-empty, readable id; another readable id is a mismatch. |
| WorkerJwt.TokenIsReadExactly | src/claude_gateway.rs:293-317 | For every token: it is read as an id exactly if it is two dot-free segments, each followed by a dot, whose bytes are the UTF-8 of JSON objects with alg none and typ JWT, and with exp 32503680000, sub ah-worker-session and that non-empty worker_id; it is refused for its shape exactly if it is no two such segments. |
| WorkerJwt.HeaderComesFirst | src/claude_gateway.rs:293-302 | Of any token of that shape: an undecodable header, then a wrong one, then an undecodable payload is what is reported. |
| WorkerJwt.PayloadDecides | src/claude_gateway.rs:303-317 | With a good header, which error or id any payload gives, in the order of the checks. |
| WorkerJwt.IdentityIsChecked | src/claude_gateway.rs:195-217 | For every token and channel: accepted exactly if the token carries the channel's id, a mismatch exactly if it carries another one, and else refused as the reader refuses it. |
| WorkerJwt.EscapeIsInjective | src/claude_gateway.rs:1065-1077 | Different strings are escaped differently. |
| WorkerJwt.MintingIsInjective | src/claude_gateway.rs:280-291 | Different ids, readable or not, have different tokens. |
| ShellQuote.QuotedIsOneWord | src/claude_gateway.rs:1056-1058 | Before any delimiter or the end, a shell reads the quoted string as one word equal to the string. |
| ShellQuote.QuotedIsText | src/claude_gateway.rs:1056-1058 | Wherever a word goes on, the quoted string adds exactly its text to it, as quoted text. |
| BridgeScript.BridgeScriptIsRead | src/claude_gateway.rs:1007-1023 | For every command, binary, socket and sandbox directory, a shell reads the text of the template, with the quoted strings filled in, as its fixed tokens, expansions included, and each path, and the command, as one quoted word in its place. |
| BridgeScript.AllWritten | src/claude_gateway.rs:1015-1022 | The text of the template is the script written from its words and operators. |
| BridgeScript.FilesLieUnderTheRoot | src/claude_gateway.rs:1013-1014 | For every root the port file and the error file are two different files right under it. |
| BridgeScript.ItemsAreRead | src/claude_gateway.rs:1015-1022 | A script written from words, operators, redirections and substitutions, nested or not, is read as exactly these. |
| LogTail.CleanTailIsOneRead | src/completion/reader.rs:155-246 | If no poll of an append-only file cuts a line in two, the polls complete what one read of the final file completes, up to one byte of raw offset, and the entry flag after the last poll is the one that read leaves. |
| LogTail.CutLineIsLost | src/completion/reader.rs:224-246 | If some poll does, there is a line parser for which the two differ. |
| LogTail.TailReadsFronts | src/completion/reader.rs:155-246 | For every append-only history, parser and provider, whatever the cuts: the polls do, line by line, what one read of the final file would do if every line that a poll cut in two were replaced by what that poll saw of it; the same entries, completions, deferrals and final flag. |
| LogTail.TailSpansAreFronts | src/completion/reader.rs:177-246 | The lines the polls parse are those of one read, in order, each up to the end of the first poll that reaches into it. |
| LogTail.FrontIsWhole | src/completion/reader.rs:224-246 | A line is parsed whole exactly if no poll ends inside it. |
| LogTail.PollSplit | src/completion/reader.rs:177-246 | A poll up to a line end and a poll from it on parse the lines of one poll. |
| LogTail.TwoPolls | src/completion/reader.rs:170-226 | The same for completions, with the entry flag carried over. |
| LogTail.Provenance | src/completion/reader.rs:177-217 | Each completion is a parsed line of some poll, with its path and offset, and for antigravity no task is pending in the file up to that line. |
| LogTail.LinesAreParsedOnce | src/completion/reader.rs:177-226 | However polls cut an append-only file, the line starts they parse increase, so none is parsed twice. |
| LogTail.CompletionsAreGated | src/completion/reader.rs:170-217 | For claude and antigravity, over polls of any contents, a user entry comes between any two completions, in the same poll or an earlier one. |
| LogTail.LinesAreJudgedExactly | src/completion/reader.rs:177-217 | For every run of polls and every parser, without the reader's own rule: a line is emitted exactly if it parses to a completed turn, the provider needs no entry or, since the file last shrank below its cursor, a user message or the mark of the path came after the last emitted line, and for antigravity no task started up to it is unfinished; a gated provider's user message is an entry, and a completion held back is exactly one with such a task. |
| LogTail.EveryEmittedLineCompletes | src/completion/reader.rs:199-217 | The completions of a run are the emitted lines, all of them, in order, with their parsed content. |
| LogTail.PollParsesLines | src/completion/reader.rs:168-246 | A poll parses exactly the non-empty lines of the file that begin at or after its cursor: from the start or just after a newline up to the next newline or the end. |
| LogTail.PendingMeans | src/completion/reader.rs:107-153 | A task is pending exactly if some line starts it and no line finishes it. |
| LogTail.EntriesCoverCompletions | src/completion/reader.rs:170-217 | So in every prefix of such a run there are at most as many completions as user entries. |
| LogTail.FinishedIsForever | src/completion/reader.rs:107-153 | A task finished in a prefix that ends at a line end is not pending in any longer one. |
| LogTail.HasPendingTasks | src/completion/reader.rs:107-153 | The scan answers whether some started task is not finished. |
| LogTail.ReadLine | src/completion/reader.rs:177-217 | What one line does: ignored, entry seen, held back or emitted; `LinesAreJudgedExactly` says when. |
| LogTail.ReadFile | src/completion/reader.rs:170-226 | The line loop, which always advances, computes the completions of a poll, and moves the path in or out of the set of seen paths. |
| LogTail.ReadProviderLogTail | src/completion/reader.rs:155-234 | The file loop computes completions and the updated cursors and flags. |
| LogTail.PollDecomposes | src/completion/reader.rs:155-234 | A poll of several files does for each path what a poll of that file alone does, and leaves the state of absent paths. |
| LogTail.PollsDecompose | src/completion/reader.rs:155-234 | Over any polls, the completions of a path are those of tailing it alone, from its cursor or, for a path not seen before, from the beginning. |
| MasterRevival.Reachable | src/master_revival.rs:107-132 | The invariant of sessions, events and cutovers holds after every interleaving of the steps. |
| MasterRevival.GenerationsAreMintedOnce | src/master_revival.rs:107-132 | A session's generation is the number of generations minted for it: each of 1..generation by exactly one step, in increasing order. |
| MasterRevival.WritesAreFenced | src/master_revival.rs:431-462 | A write under generation g comes after all steps that minted up to g and before all that minted more, so an older master never overwrites a newer one. |
| MasterRevival.GenerationIsAFence | src/master_revival.rs:107-132 | Generations never decrease; one that a watcher has seen is still current exactly if none was minted since; a session is ACTIVE exactly if it was never stopped. |
| MasterRevival.ClaimIsExclusive | src/master_revival.rs:107-132 | After a successful claim the generation claimed from can be claimed by nobody, and the claimed one is writable exactly until a stop or another minting. |
| MasterRevival.ReviveBudget | src/master_revival.rs:512-567 | At most four Spawn decisions between confirmations, with delays 1, 2, 4, 8; with no fuse pending an ACTIVE session has a retry count of at most 4. |
| MasterRevival.StoppedForever | src/master_revival.rs:569-681 | A session killed, closed or fused is never ACTIVE again, and no later claim, claimed write, attempt or confirmation of it takes effect. |
| MasterRevival.RowsSayWhatWasWritten | src/master_revival.rs:107-792 | In every run each column of a session's row, pid, pane, generation, retry count and time, master state, pending tell, status and exit reason, has the value that the last step to set it wrote, with the WHERE clause of that step met then: so the row names the master of the last spawn or claimed write, the inserted one if none. |
| MasterRevival.ColumnStep | src/master_revival.rs:107-792 | What each step writes to each column of each row, and that it leaves every other column and every row its WHERE clause does not match. |
| MasterRevival.CutoverColumns | src/db/master_cutovers.rs:66-212 | The same for the cutover table, with the state guard and the unique index written out. |
| MasterRevival.CutoversAreExclusive | src/db/master_cutovers.rs:33-35 | In every reachable state a session has at most one cutover preparing, spawning, verifying or active; every other cutover has its completion time, which no later step clears. |
| MasterRevival.ReviveIsSafe | src/master_revival.rs:69-132 | With row, cutovers and claim at three different moments: the answer is Revive exactly if the row was ACTIVE with this pid and generation and no cutover of the session was PREPARING, SPAWNING or VERIFYING when read, and Stale exactly if there was no row or it was ACTIVE, nothing was under way and it named another master; an immediate claim after Revive succeeds; a later one that succeeds was overtaken by no stop and no minting. |
| MasterRevival.InterlockExactly | src/master_revival.rs:69-132 | After the answer Revive, a claim that succeeds does so beside a cutover in flight exactly if a step since the cutovers were read claimed one for the session, or moved one of its into flight, and none of them ended it. |
| MasterRevival.InterlockKept | src/db/master_cutovers.rs:66-188 | If no step since then claims a cutover for the session or moves one into flight, none is in flight at the claim, whatever else happens. |
| MasterRevival.InterlockRace | src/master_revival.rs:107-132 | The race itself, from any state with a matching ACTIVE row and no cutover under way: Revive is answered, any new cutover is claimed, and the claim of the master mints a generation with that cutover PREPARING. |
| MasterRevival.MasterStore.ReviveSessionMaster | src/master_revival.rs:464-490 | With any steps of others between its two halves: stale claims change nothing; else it returns the new generation, with the new master in place, exactly if nobody stopped the session or minted another generation in between, and otherwise the stale error. |
| MasterRevival.MasterStore.RecordMasterReviveAttempt | src/master_revival.rs:512-567 | Stale on a mismatch; else the count and the doubled delay; from the fifth failure on the session ends FAILED, whatever others do before the fuse is written. |
| MasterRevival.MasterStore.MarkAllSessionsIntentionalShutdown | src/master_revival.rs:595-640 | Ends exactly the ACTIVE sessions, as a run of single kills, counts them, and kills exactly their agents that have not ended, with one more state version. |
| MasterRevival.ShutdownKillsTheActive | src/master_revival.rs:595-640 | Column by column: after a shutdown no session is ACTIVE, each that was is KILLED with its reason, each of its agents that was not CRASHED or KILLED is KILLED with one more state version, and nothing else has changed. |
| MasterRevival.MasterStore.ClaimMasterCutover | src/db/master_cutovers.rs:66-119 | Inserts exactly if the session has no cutover under way, the id is new and the session exists; tells the three refusals apart. |
| MasterRevival.MasterStore.Perform | src/master_revival.rs:107-792 | Each step of the machine is what one method of the store, written as the UPDATE it stands for, does to the tables; both RecordSpawned methods also state the new pid, pane and generation outright. |
| JobGate.DbStrRoundTrip | src/db/job_state.rs:69-91 | Each status has one text, and a text is recognized exactly if it is one of these. |
| JobGate.GatePermitsExactly | src/db/job_state.rs:114-195 | The gate lets a job pass exactly if its status is the expected one, the edge is one of nine, named, and for FAILED to COMPLETED some event is the agent's latest state change and reports this job. |
| JobGate.LateEvidenceMeans | src/db/job_state.rs:224-259 | Late evidence is an event, by its index: a state_change of the agent with no later one, whose payload is a JSON object with reason HEALTH_CHECK_STUCK, health:completion among its signal kinds and this job's id. |
| JobGate.Reachable | src/db/job_state.rs:107-222 | The invariant of jobs, audit rows, evidence and passed checks holds after every interleaving. |
| JobGate.AuditIsAChain | src/db/job_state.rs:107-222 | A job's audit rows lead from QUEUED along table edges, each from where the last one ended, to its current status; for each status entries minus exits is 1 if current and else 0. |
| JobGate.AuditIsCurrent | src/db/jobs.rs:59-104 | The last row shows the job's status, times and cancel flag; QUEUED has no times, DISPATCHED only its dispatch, the others their completion. |
| JobGate.JobColumns | src/db/job_state.rs:107-222 | What each step writes to each column of each job, and that it leaves the rest. |
| JobGate.JobInserted | src/db/jobs.rs:116-200 | When a job is inserted, and each of its columns. |
| JobGate.RowsSayWhoWroteThem | src/db/schema.rs:175-191 | Every audit row was written by one step of the run, which it dates and describes: the row's time is the time of that step, and its edge, reason, agent, times and flag are those of the job right after it. |
| JobGate.ChangesAreLegal | src/db/job_state.rs:114-195 | Even with other calls between check and UPDATE, a status changes only by an UPDATE, along one of the nine edges, named. |
| JobGate.CompletionNeedsEvidence | src/db/job_state.rs:224-259 | COMPLETED is entered from DISPATCHED, or from FAILED by an UPDATE after a check that found the job FAILED and the agent's latest state change, at that moment, to report health completion of this job; by index and payload fields. |
| JobGate.TransitionsWereChecked | src/db/job_state.rs:107-195 | Behind every transition row is an UPDATE made while the job had the old status, and before it a successful check of that edge. |
| JobGate.TerminalForever | src/db/job_state.rs:128-151 | COMPLETED and CANCELLED are absorbing: no further row, and no column but `error_reason` changes. |
| JobGate.RequestsAreUnique | src/db/jobs.rs:116-150 | No two jobs have the same agent and request id. |
| JobGate.TakeoverIsBounded | src/db/job_state.rs:279-320 | For every run and job: a pending cancellation of a DISPATCHED job is taken over exactly from its timeout on, counted from the newest row marked as a cancel request, if the job was inserted without the flag or a gate call borrowed the mark; no other job is ever taken over. |
| JobGate.TakeoverCountsFromRequest | src/db/job_state.rs:279-320 | If the job was inserted without the flag and no gate call borrowed the mark, the run has a cancel request that took effect at some time t, and the takeover fires at a moment exactly if that is at least the timeout after t. |
| JobGate.RunHoldsWhatWasPublished | src/db/job_state.rs:224-259 | The events the gate consults are those the run has published, in order. |
| JobGate.RecoveredCancelHangs | src/db/jobs.rs:376-431 | After any run, a job that is recovered with the flag and then dispatched to its agent is DISPATCHED with a pending cancellation that is taken over at no time. |
| JobGate.JobStore.InsertJob | src/db/jobs.rs:116-150 | A repeated request gets the existing job; a new one is QUEUED with its columns and first row; a taken id or an unknown agent is refused. |
| JobGate.JobStore.InsertRecoveredQueuedJob | src/db/jobs.rs:152-200 | The same for a recovered job with its flag, evidence requirements and error. |
| JobGate.JobStore.TransitJobState | src/db/job_state.rs:107-222 | Writes exactly if the status is the expected one and the edge permitted; a rejected call writes nothing and says why. |
| JobGate.JobStore.ForceCancelPendingDispatchedJob | src/db/job_state.rs:279-320 | True exactly if the job is DISPATCHED with a cancellation pending for the timeout since its latest request row, and then it is CANCELLED through the gate, completed now. |
| JobGate.JobStore.QueryCancelRequestedAt | src/db/job_state.rs:293-302 | Finds the time of the newest cancel request row of the job. |
| JobGate.JobStore.RequeueJobState | src/db/job_state.rs:322-354 | Succeeds exactly from the expected DISPATCHED or FAILED; a rejected call leaves all as it was exactly if the status is not the expected one or the error is the old one. |
| JobGate.JobStore.RequestDispatchedJobCancel | src/db/jobs.rs:574-602 | Is the cancel request step and counts the rows it wrote; the request row carries the time of the call. |
| WslConf.PlanIsSound | src/cli/setup.rs:737-816 | A file is malformed exactly if some trimmed line is not empty, a comment or a bracketed name and has no equals sign, and is reported with its first such line; it is left alone exactly if its boot section's first systemd setting is true, so that it has systemd=true under [boot], in any letter case; any other is rewritten to a valid file with the line systemd=true under [boot] that the next plan leaves alone and whose other settings are the same in the same order. |
| WslConf.RewritingIsOneEdit | src/cli/setup.rs:761-790 | A rewriting touches one line: it replaces the first systemd setting of the boot section, else it inserts below the last boot header, else it appends the section, after a blank line if the file does not end in one. |
| WslConf.LinesAreThePieces | src/cli/setup.rs:738-745 | The lines are the pieces of the text between newlines, less a carriage return at their end; nothing is lost. |
| WslConf.TrimIs | src/cli/setup.rs:792-810 | A trimmed line is the line without the white space, given by its code points, at its two ends. |
| WslConf.EnabledIsASetting | src/cli/setup.rs:761-781 | A file left alone has systemd=true, in any letter case, under a boot header. |
| WslConf.JoinRoundTrip | src/cli/setup.rs:812-816 | Joined lines are read back as the same lines up to trimming. |
| WslConf.ScanFinds | src/cli/setup.rs:747-759 | The header scan finds the last boot header before the next other header and the lines it heads, or there is no boot header. |
| WslConf.ValidateWslConf | src/cli/setup.rs:792-810 | Finds the first invalid line, if any. |
| WslConf.FindBootSection | src/cli/setup.rs:747-759 | The loop computes the scan. |
| WslConf.ReviseLines | src/cli/setup.rs:761-784 | The edit in place makes the change that the spec chooses, or none. |
| WslConf.PlanWslConfSystemdEnable | src/cli/setup.rs:737-790 | The code computes the plan that `PlanIsSound` is about. |
| RuntimeSnapshot.BuildRuntimeState | src/runtime_events.rs:227-328 | Active exactly with inventory and nothing down; Starting exactly if something is down and every dead master is pane-less and every dead worker SPAWNING, each under 120 s old; so Active excludes Degraded. |
| RuntimeSnapshot.WithinStartingWindow | src/runtime_events.rs:688-690 | Saturation never moves an age across the window. |
| RuntimeSnapshot.StateInTime | src/runtime_events.rs:664-690 | With liveness fixed, only Starting changes in time, to Degraded, exactly when something down outlives its window. |
| RuntimeSnapshot.QueryRuntimeJobEvents | src/runtime_events.rs:559-621 | Returns the last 500 visible events in order and the greatest visible id. |
| RuntimeSnapshot.VisibleIs | src/runtime_events.rs:559-593 | An event is visible exactly if it is in the log and no workspace is asked for or it is the event's own; the order is that of the log. |
| RuntimeSnapshot.WindowSinceCursor | src/runtime_events.rs:559-621 | Above an earlier cursor the window holds the last 500 of the events added since, so all of them exactly if they are at most 500. |
| RuntimeSnapshot.FollowingIsLossless | src/runtime_events.rs:559-621 | A consumer that follows the cursor gets visible events in the order of the log, none twice, and gets every one exactly if at most 500 come between any two snapshots. |

## Left out

- HTTP, Unix socket and TCP transport, the production upstream, credential files, listeners and the bridge: input and output.
- Lock poisoning and a wall clock that is set back while a refresh is in progress.
- Header search and rewriting of forwarded requests: easy members only.
- The recursion limit of the JSON reader and the value of numbers that are not 64-bit integers.
- Base64Url.DecodeBits: shifts and masks are written as division and remainder.
- ShellQuote.QuotedIsOneWord: treats U+0000 as an ordinary character, which no argument can hold.
- BridgeScript.BridgeScriptIsRead: reads tokens, not the grammar above them; paths are texts, as `Path::display` gives them.
- `read_provider_assistant_progress_after_cursors`, file discovery and sorting, and files that cannot be read.
- The provider line parsers of `src/completion/parser.rs` and the task patterns: the reader is proved for every parser.
- A file that shrinks below its cursor, beyond what a single poll does with it.
- Deletion of sessions, jobs and events by cascade, and overflow of 64-bit counters.
- Writes to `sessions` from other modules, and recovery windows.
- Monitor keys and per-session spawn locks, which do not touch the tables.
- `created_at`, `updated_at` and the path columns of cutovers; `request_id`, `job_created_at` and `changed_json` of audit rows: copies.
- The reply text of jobs, and the calls that complete, fail or dispatch jobs through the gate: compositions of gate calls.
- Session and agent snapshots, cleanup flags and tmux names of a runtime snapshot: copies and single conditions.
- Every `src/cli` command other than the wsl.conf planner, completion registry and monitor, learned rules, doctor.
