# Verified model of carteiro

carteiro is an SMTP submission server with a durable queue: clients log in and submit messages over SMTP, each message
becomes a row of a SQL table, and a worker claims due rows, talks to the exchangers of the recipients' domains, and
retries, removes or dead-letters the message. This project models that core in Dafny and proves what it keeps.

## What is modelled

**The queue as a concurrent protocol.** `QueueTable.dfy` gives each SQL statement as a function on the table.
`Protocol.dfy` is a transition system over that table: any number of pollers and delivery tasks, in any number of
processes, interleave their statements one at a time, with stale snapshots, clocks that need not agree, expired leases,
failed statements, crashes at any point and requeues at any moment. Proved over every run: no recipient is lost
(`Safety.dfy`), two claims of a row are a lease apart unless someone cleared the lease in between (`Exclusivity.dfy`),
and the dead letters stay within their cap although COUNT, SELECT and DELETE of concurrent calls interleave
(`DeadCap.dfy`). For one worker without crashes: nothing is delivered twice and a message is claimed at most
MaxAttempts times (`SoloWorker.dfy`), and a rejected recipient is tried again only after a requeue
(`Rejections.dfy`). `Races.dfy` shows that the first of these needs the single worker, by runs in which two workers
deliver a message twice with no crash, no failed statement and no takeover of an expired lease. `SingleShot.dfy` proves
exactly when there is such a run: for every message that may be retried or is for several domains. In the remaining case
no number of workers, crashes and failures delivers it twice as long as no expired lease is taken over.

**The queue as sequential objects.** `Storage.dfy` and `Relay.dfy` hold the store and the delivery worker as classes
whose methods run to completion, with the loops of the original. The delivery loop ends, contacts each domain at most
once and accounts for every recipient; history, queue and counters agree after every operation (`Books.dfy`).
`LateMarks.dfy` is the requeue endpoint as it is, with other operations between its two halves.
`Mirror.dfy` ties the two models together: every attempt and every batch of the classes is a run of the protocol's
single worker, with the same table and the same reports. `Service.dfy` is the server made of these parts; its table is
always that of a protocol run, so the theorems about runs hold of the loops.

**The SMTP session.** `Session.dfy` is a connection as a class, its commands as state functions, and the safety of every
command sequence. `SessionTrace.dfy` traces the log back to the commands: which AUTH command proved a login, and which
MAIL and RCPT commands a queued message was made of. `Submission.dfy` joins it with the reading of the body, from the byte stream to the session log.

**Bytes.** `LineReader.dfy` (fragmenting line reads), `DataTransfer.dfy` (dot-unstuffing as in section 4.5.2 of RFC 5321
and line-end normalisation, end to end), `Idempotence.dfy` (when normalising twice is normalising once) and
`QuotedPrintable.dfy` (the encoder against an independent decoder for section 6.7 of RFC 2045).

**Smaller pieces.** `Backoff.dfy` (retry delays in 64-bit arithmetic), `Wakeup.dfy` (the one-slot channel and the LIMIT
of the SELECT), `Merge.dfy` (last-wins configuration merging), `Accounts.dfy` (idempotent seeding), `Routing.dfy`
(recipients by domain), `Text.dfy` (trimming and lower-casing).

## Where the code differs from what it says or what one expects

- internal/smtpd/session.go:478-480 says that an over-long body is read to its terminator. Once the limit is exceeded
  on an earlier line the terminator is never recognised: `NoTerminatorOnceOver`.
- The "line too long" error of internal/smtpd/session.go:567-569 cannot occur, since over-long fragments are dropped
  before the length test: `WithinLimit`. What comes back is a prefix for every line exactly when the buffer capacity
  divides the limit: `PrefixIffDivides`.
- qpEncode may write lines of 77 characters, counting the soft break, where rule 5 of section 6.7 of RFC 2045 allows
  76: `RuleFiveIff` says exactly when it keeps the rule, `LineOf77` is an input for which it does not. It loses blanks
  at the very end of its input: `RoundTripIff`.
- normalizeCRLF may remove two CRs from one line end: `NormalizeIdempotentIff`.
- Persist drops the lease in the middle of a delivery, and Release drops the lease of whoever holds the row, not only
  the caller's: `TwoWorkersRedeliver` and `RedeliveryIff`.
- RequeueDead wakes the worker before MarkQueued restarts the history entry. If the worker delivers the message in
  between, the late mark leaves the entry "queued" although the row is gone, and nothing corrects it:
  `DeliveredBeforeMark`. A mark brings its entry into agreement exactly when the row is still queued and untried: `OverlappingRequeues`.
- A worker that has been woken does not look at everything: its SELECT returns at most max(2, 2 * concurrency) rows, and
  the others wait for the poll timer although their wake-ups are used up: `RowsLeftBehind`, with the exact condition in
  `SleeperLeaves`.
- The SELECT does not look at leases, so leased rows may use up its LIMIT while newer ones could be claimed: `StarvedIff`.
- The retry delay may drop below the promised one, after an overflow of 64 bits or from attempt 64 on, where the shift is
  capped: `PromiseKeptIff`, `ShiftCapShortens`. It may also drop from
  one attempt to the next: `NeverShorterIff`, `OverflowShortens`.
- A message removed with some recipients rejected is counted by no counter: the `partials` of `Balanced`.
- A message whose recipients are all rejected goes to the dead letters with the recipients of its last domain still in
  its row and without their reasons, because Persist ignores an empty list: `LastGroupKept`, which `Deliver` ensures.
- A permanent refusal of the DATA command itself, unlike one of the body, is treated as transient: `GroupFails`.
- Seeding twice is not idempotent for every list of seeds: `SeedingIdempotentIff` says for which it is. The lists that
  the configuration yields are among them: `RestartSettled`.

## Model

| member | source | states |
|---|---|---|
| Safety.StepKeepsInv | internal/relay/deliver.go:93-189 | every step of any worker, poller, producer or operator, failures and crashes included, keeps the invariant that rows, snapshots and reports together cover the accepted recipients |
| Safety.RunKeepsInv | internal/storage/queue.go:16-222 | that invariant holds in every state of every run |
| Safety.NoRecipientLost | internal/relay/deliver.go:93-189 | in every reachable state a recipient of an accepted message was reported delivered or rejected, or is in its row, or the row was pruned; and rows and reports name accepted recipients only |
| Safety.LedgerExactly | internal/relay/deliver.go:93-189 | over every run a recipient counts as accepted, delivered or rejected exactly when an enqueue or a conversation of a task for its message said so, and a message as pruned exactly when a pruning deleted its dead row |
| Safety.NoRecipientForgotten | internal/relay/deliver.go:93-189 | in terms of steps alone: after its enqueue a recipient is in its row, or some task reported delivering to it or rejecting it, or a pruning deleted the dead row |
| Safety.AttemptsBounded | internal/relay/deliver.go:155-180 | in every reachable state each row has fewer than MaxAttempts attempts and at least one recipient |
| Exclusivity.StepKeepsHeld | internal/storage/queue.go:65-84 | no step shortens the lease of a row except an effective Persist, a Release, a dead-letter UPDATE or a requeue of that row |
| Exclusivity.HeldThroughout | internal/storage/queue.go:65-84 | a claimed row stays leased for LeaseTimeout over every continuation of the run without such a step |
| Exclusivity.ClaimsApart | internal/storage/schema.go:11-15 | two successful claims of one row are at least LeaseTimeout apart on the claimants' clocks, or such a step lies between them |
| DeadCap.VictimsRemoved | internal/storage/queue.go:165-205 | removing the selected victims leaves exactly the surplus fewer dead rows |
| DeadCap.RunKeepsCap | internal/storage/queue.go:154-205 | in every reachable state the cap holds, or some pruning in progress will restore it, or a pruning was cut short since the last burial |
| DeadCap.DeadLettersCapped | internal/storage/queue.go:154-205 | with no DeadLetter in progress and none cut short there are at most deadMax dead rows, however concurrent calls interleaved |
| DeadCap.CutShortExactly | internal/storage/queue.go:165-205 | a pruning counts as cut short exactly when a crash or a failed statement ended one and no row was dead-lettered since |
| DeadCap.PruningSparesQueued | internal/storage/queue.go:190-205 | the statements of a pruning change no row except that DELETE removes one that is dead at that moment |
| SoloWorker.RunKeepsSolo | internal/relay/deliver.go:66-91 | for one crash-free worker, rows at rest and snapshots in use name no delivered recipient, tasks work on different messages and claims match attempts, in every state |
| SoloWorker.HandOverFresh | internal/relay/deliver.go:106-153 | what one worker hands to deliverGroup was never reported delivered |
| SoloWorker.NoRedelivery | internal/relay/deliver.go:106-189 | a recipient reported delivered is in no later deliverGroup call for that message, across retries, dead-lettering and requeues |
| SoloWorker.ClaimsBounded | internal/relay/deliver.go:155-180 | one crash-free worker claims a message at most MaxAttempts times since it was enqueued or requeued |
| Rejections.RunApart | internal/relay/deliver.go:127-189 | for one crash-free worker, in every state neither the messages of tasks nor queued rows at rest name a recipient rejected since the last requeue |
| Rejections.RejectedUntilRequeue | internal/relay/deliver.go:127-189 | a recipient reported permanently rejected is in a later deliverGroup call for that message only if it was requeued in between |
| Races.TwoWorkersRedeliver | internal/storage/queue.go:117-150 | for every message that may be retried or is for several domains there is a run of two workers, each waiting for its own batch, without crash, failure or lease expiry, that hands over and delivers recipients a second time |
| SingleShot.RunAlone | internal/relay/deliver.go:155-189 | with one domain and one attempt, for any number of workers, crashes and failed statements, at most one task works on the message, and once something was delivered its row stays leased, as long as no claim takes over its expired lease |
| SingleShot.HandOverFirst | internal/relay/deliver.go:111-153 | in that case nothing of the message was reported delivered when its recipients are handed over |
| SingleShot.RedeliveryIff | internal/storage/queue.go:65-150 | without takeover of an expired lease a message can be delivered twice, by any workers, if and only if it may be retried or is for more than one domain |
| Routing.SplitConserves | internal/relay/deliver.go:469-478 | the group of a domain and the rest together hold every recipient as often as before |
| Routing.DomainLaw | internal/relay/deliver.go:461-467 | the domain of an address is what follows its last '@', in lower case and without one final dot |
| Routing.NoDomainLaw | internal/relay/deliver.go:461-467 | an address without '@' is its own domain |
| Routing.ConversationLaw | internal/relay/deliver.go:469-478 | a conversation with a domain is for exactly the recipients behind whose '@' that domain stands, whatever the case and with or without a final dot |
| Routing.OneConversation | internal/relay/deliver.go:106-118 | so recipients with one domain share their conversations, and recipients with different domains never do |
| Routing.SplitByDomain | internal/relay/deliver.go:461-478 | the loop returns exactly the recipients of the domain, in order, and the others, losing and duplicating none; DomainLaw says which domain that is |
| Relay.NameRecipients | internal/relay/deliver.go:288-304 | the call fails exactly when some answer is a broken connection, a code below 500 or 421; otherwise exactly the accepted are taken and exactly those answered with another code from 500 on are rejected |
| Relay.DeliverGroup | internal/relay/deliver.go:232-327 | answer by answer, in reply codes: which answers end in a retry with nothing delivered, which reject the whole group, and otherwise exactly who is delivered and who rejected; each rejection keeps the text of the answer behind it |
| Relay.PutBack | internal/relay/deliver.go:127-147 | the kept recipients are followed by exactly the group members nobody reported on, each once |
| Relay.Deliverer.SendNext | internal/relay/deliver.go:111-151 | the domain of the first recipient is contacted; a failed group goes behind the others and nothing is stored; otherwise every member is reported, the delivered are those the exchanger took, none is put back, and the rest and the reasons are persisted |
| Relay.AccountedAsMultiset | internal/relay/deliver.go:111-153 | for duplicate-free recipients delivered, rejected and remaining add up to the original as multisets |
| Relay.GroupAccounted | internal/relay/deliver.go:127-150 | reporting a group keeps the account of the attempt |
| Relay.FailureAccounted | internal/relay/deliver.go:118-125 | a failed group keeps the account and all remaining recipients, in a new order |
| Relay.Deliverer.SendAll | internal/relay/deliver.go:106-153 | the loop terminates, holds one conversation for each domain in the sense of ConversationLaw, stops at the first that asks for a retry, accounts for every recipient with exactly those delivered whom the exchangers took, and follows the protocol step by step |
| Relay.Deliverer.Deliver | internal/relay/deliver.go:93-189 | one attempt removes the message (all recipients reported, one delivered), buries it (all rejected, the row then naming the last domain's recipients without their reasons; or attempts used up, the row naming exactly the unreported ones), or postpones it with one attempt more and exactly the unreported recipients; the delivered are those the exchangers took and were not delivered before; other queued rows are untouched, the books agree, and the table moves as in a run of the protocol; exactly one counter moves, by one: delivered for a removal without rejections, dead for a burial, none for a postponement or for a removal with rejections, which the model counts apart; the history entry has one attempt more and the status of the ending |
| Relay.PostponedWaits | internal/relay/deliver.go:163-170 | a postponed message is in no batch before its time |
| Relay.PostponedReturns | internal/storage/queue.go:42-48 | from its time on it is in the batch unless more rows than the LIMIT are ripe |
| Relay.Deliverer.ProcessBatch | internal/relay/deliver.go:66-91 | the batch has at most max(2, 2 * concurrency) messages, chosen as NextDue says; after it each claimed message is gone, dead or one attempt further and below MaxAttempts; no recipient of a claimed message was delivered before; other queued rows are unchanged, the books agree, and the whole batch is a run of the protocol |
| Mirror.StepReached | internal/relay/deliver.go:66-91 | what a single worker can reach is closed under its steps |
| Mirror.GroupMirrored | internal/relay/deliver.go:118-147 | reporting a domain is a protocol step that adds exactly these reports |
| Mirror.FailureMirrored | internal/relay/deliver.go:118-125 | so is a failure |
| Mirror.RetryMirrored | internal/relay/deliver.go:163-170 | Persist and Release of a postponed message are two steps that end the task |
| Mirror.BurialMirrored | internal/storage/queue.go:154-205 | the dead-letter UPDATE, the count, the choice and the deletions are steps that end the task with exactly the victims removed |
| Mirror.FinishMirrored | internal/storage/queue.go:138-142 | so is the removal |
| Mirror.BatchMirrored | internal/storage/queue.go:35-86 | one SELECT and the claims one by one lead to the leased table and one task for each claimed message |
| Mirror.IdleFresh | internal/relay/deliver.go:66-91 | between batches no row names a recipient that was reported delivered |
| Mirror.ReachedCap | internal/storage/queue.go:165-205 | between batches the dead letters of a single worker are within their cap |
| Service.Server.Accept | internal/smtpd/session.go:436-455 | a submission keeps the server in step with the protocol and the books in agreement |
| Service.Server.Requeue | internal/api/api.go:478-491 | so does a requeue, which succeeds exactly for a dead row |
| Service.Server.RunBatch | internal/relay/deliver.go:49-91 | so does a batch, and nobody in it was delivered to in any earlier batch |
| Service.Server.LosesNobody | internal/relay/deliver.go:93-189 | between operations every accepted recipient is reported, in its row, or went with a pruned row |
| Service.Server.KeepsBounds | internal/storage/queue.go:154-205 | between operations the cap on dead letters and the bound on attempts hold |
| Storage.Oldest | internal/storage/queue.go:42-48 | a row of the set that no other precedes in age |
| Storage.Query | internal/storage/queue.go:178-184 | the oldest rows of the set, oldest first, as many as asked for |
| Storage.ClaimNext | internal/storage/queue.go:65-84 | claiming one by one equals claiming each row as it was read |
| Storage.BatchLaw | internal/storage/queue.go:42-84 | by the columns: every message of a batch was queued, its time had come and its lease was over, it carries the row, and the row is now leased for 30 minutes; other rows are as before; and if no more rows than the LIMIT are ripe, all of them with no running lease are in the batch; the batch is oldest first, and no row that could have been in it is older than one that is |
| Storage.StarvedIff | internal/storage/queue.go:42-84 | with a due row that could be claimed, a batch is empty exactly when the LIMIT is used up by due rows that are leased, none of them newer |
| Storage.Store.Enqueue | internal/storage/queue.go:16-31 | refuses an empty recipient list and a taken id, else inserts a queued row with no attempts, no reasons, no lease and due at once, and fills the wake-up slot |
| Storage.Store.NextDue | internal/storage/queue.go:35-86 | returns the snapshots of the oldest due rows whose claim succeeds and leases exactly those rows, which makes a batch in the sense of BatchLaw; a LIMIT of 0 or less means 100 |
| Storage.Store.Persist | internal/storage/queue.go:117-134 | with recipients left the row takes over the message and loses its lease, keeping its status; otherwise, and for every other row, nothing changes |
| Storage.Store.Succeed | internal/storage/queue.go:138-142 | afterwards the message is not queued; dead rows and all other rows stay |
| Storage.Store.Release | internal/storage/queue.go:146-150 | a queued row can be claimed at any time again; its message and all other rows are unchanged |
| Storage.Store.DeadLetter | internal/storage/queue.go:154-163 | the row is dead with its lease and next attempt cleared and all else kept; only the oldest dead rows beyond the cap are removed, the cap holds and no dead row that stays is older than a removed one, and no other row changes |
| Storage.PruneLaw | internal/storage/queue.go:165-205 | deleting the answer of the SELECT leaves exactly the cap of dead rows if any was deleted, never more, and none older than a deleted one |
| Storage.Store.PruneDead | internal/storage/queue.go:165-205 | removes exactly the surplus oldest dead rows, as PruneLaw says, or nothing without a cap |
| Storage.Store.RequeueDead | internal/storage/queue.go:209-222 | succeeds exactly for a dead row, which becomes queued and due at once with no attempts and no lease, all else kept, and fills the wake-up slot |
| Storage.Store.Submit | internal/api/api.go:631-643 | records and enqueues, or leaves no record; history, queue and counters agree afterwards |
| Storage.Store.Requeue | internal/api/api.go:478-491 | requeues a dead row, restarts its entry and counts it; history, queue and counters agree afterwards |
| Books.AcceptKeepsOrder | internal/smtpd/session.go:436-455 | accepting a message keeps the agreement and the balance |
| Books.RefusalKeepsOrder | internal/sends/sends.go:128-133 | so does dropping the record of a refused message |
| Books.RetryKeepsOrder | internal/relay/deliver.go:155-170 | so does a postponed attempt |
| Books.RemovalKeepsOrder | internal/relay/deliver.go:182-189 | so does a removal, whether counted or not |
| Books.BurialKeepsOrder | internal/relay/deliver.go:191-199 | so does a burial with its pruning |
| Books.RequeueKeepsOrder | internal/api/api.go:478-491 | so does a requeue |
| Books.LeasesKeepOrder | internal/storage/queue.go:65-84 | so do claims |
| Books.OperationsKeepOrder | internal/storage/counters.go:29-45 | after any sequence of completed operations an entry is queued, dead or delivered exactly as its message is, with equal attempts, and queued + requeued = rows queued + dead + delivered + partial deliveries |
| Books.CountersCount | internal/storage/counters.go:29-45 | after any sequence of completed operations each counter is the number of its own kind of operation: queued of submissions, requeued of requeues, dead of burials, delivered of removals without rejections; the partial deliveries are the removals with rejections |
| LateMarks.MarkAgreesIff | internal/sends/sends.go:112-118 | a restarted entry agrees with the queue exactly when its row is queued and untried |
| LateMarks.RequeueInterrupted | internal/api/api.go:478-491 | for every sequence of operations between RequeueDead and MarkQueued the counters balance, every other entry agrees, and the entry of the message agrees exactly when its row is queued and untried |
| LateMarks.OverlappingRequeues | internal/api/api.go:478-491 | however requeues overlap with operations and each other, the counters balance at any time, every entry agrees whose message was not requeued since its last agreeing mark, and a mark agrees exactly in that case |
| LateMarks.DeliveredBeforeMark | internal/api/api.go:480-488 | if the message is delivered before the mark its entry ends up "queued" for a row that is gone |
| LineReader.Connection.ReadRaw | internal/smtpd/session.go:558-577 | for every capacity, stream and mode exactly the first line is consumed, all of it, none of it or its limited form is returned, and without a line end everything is consumed and reported |
| LineReader.WithinLimit | internal/smtpd/session.go:562-570 | a line within the limit comes back whole and no result exceeds the limit |
| LineReader.CutAtLimit | internal/smtpd/session.go:562-570 | when the capacity divides the limit an over-long line comes back cut exactly at the limit |
| LineReader.PrefixIffDivides | internal/smtpd/session.go:562-570 | limited reading yields a prefix of every line if and only if the capacity divides the limit |
| DataTransfer.ReadDataLine | internal/smtpd/session.go:542-552 | one line without its line end, or the empty string when discarding, whatever the line was |
| DataTransfer.TrimEolLaw | internal/smtpd/session.go:542-552 | trimming takes exactly the CRs and LFs off the end of a line |
| DataTransfer.UnstuffLaw | internal/smtpd/session.go:500-503 | one leading dot is taken away, and nothing else |
| DataTransfer.ReadData | internal/smtpd/session.go:481-506 | outcome and unread input are those of the recursive reading of the stream |
| DataTransfer.NoTerminatorOnceOver | internal/smtpd/session.go:486-499 | once over the limit every input is read to its end and the transfer aborted |
| DataTransfer.WireSizeLaw | internal/smtpd/session.go:481-506 | the size that is counted is the number of bytes on the wire, with one byte instead of two for each line end |
| DataTransfer.BodyReceived | internal/smtpd/session.go:481-506 | a dot-stuffed body is read through its terminator only and yields its lines, flagged or aborted exactly by the counted size; within the limit at most limit - 2 bytes are stored |
| DataTransfer.NormalizeCRLF | internal/relay/deliver.go:444-459 | the loop renders every line with a CRLF |
| DataTransfer.NormalizeStored | internal/relay/deliver.go:444-459 | stored lines without CR and LF come out unchanged, each ended by CRLF |
| DataTransfer.BodyTransparent | internal/smtpd/session.go:481-506 | stuffing, reading and normalising give back exactly the lines, each ended by CRLF, leaving what follows the terminator unread |
| Idempotence.NormalizeByLines | internal/relay/deliver.go:444-459 | for arbitrary bytes the result is given line by line |
| Idempotence.NormalizeIdempotentIff | internal/relay/deliver.go:444-459 | normalising twice equals normalising once if and only if no line of the input ends in too many CRs |
| Idempotence.StrayCRs | internal/relay/deliver.go:444-459 | a concrete input for which it does not |
| QuotedPrintable.QpEncode | internal/sends/msg.go:337-373 | the loop computes the recursive encoding |
| QuotedPrintable.EscapeLaw | internal/sends/msg.go:337-373 | an escape is "=" and the two digits of the byte in capital hexadecimal |
| QuotedPrintable.RoundTripFrom | internal/sends/msg.go:337-373 | from every column, decoding gives back the canonical input unless it ends in a blank |
| QuotedPrintable.LosesBlanks | internal/sends/msg.go:354-359 | an input that ends in a blank decodes to something shorter |
| QuotedPrintable.PassesThroughIff | internal/sends/msg.go:337-373 | encoding leaves a text as it is, up to its line ends, exactly when all its bytes are printable ASCII but "=" or blanks not before a line end, and no line has more than 76 |
| QuotedPrintable.RoundTripIff | internal/sends/msg.go:337-373 | the round trip gives the input without CRs and with CRLF for LF if and only if it does not end in a blank |
| QuotedPrintable.LinesBounded | internal/sends/msg.go:365-368 | no output line has more than 76 characters before its soft break |
| QuotedPrintable.RuleFiveIff | internal/sends/msg.go:365-368 | no output line has more than 76 characters, soft break included, if and only if no byte has to be written when its line is filled up to 76 |
| QuotedPrintable.LineOf77 | internal/sends/msg.go:365-368 | 77 letters are an input that breaks this |
| Backoff.DelayInRange | internal/relay/deliver.go:428-440 | the delay is between 1 and the maximum for every attempt number |
| Backoff.PromiseKeptEarly | internal/relay/deliver.go:428-440 | for attempts 1 to 63 the delay is min(base * 2^(n-1), max) exactly when the product is below 2^64 or its remainder is not a positive value below the cap |
| Backoff.PromiseKeptLate | internal/relay/deliver.go:428-440 | from attempt 64 on the promise is the cap, kept exactly when base * 2^62 in 64 bits is not a positive value below it |
| Backoff.PromiseKeptIff | internal/relay/deliver.go:428-440 | the condition for every attempt number |
| Backoff.ShiftCapShortens | internal/relay/deliver.go:428-440 | for base 1 the cap on the shift alone breaks the promise at attempt 64 |
| Backoff.SettlesAt63 | internal/relay/deliver.go:428-440 | from attempt 63 on it does not change |
| Backoff.NeverShorterIff | internal/relay/deliver.go:428-440 | for every attempt the next delay is not shorter, unless the shifted base is negative in 64 bits now and positive below the cap at the next attempt, and only then |
| Backoff.NeverShorter | internal/relay/deliver.go:428-440 | in particular not while the product stays below 2^64 |
| Backoff.OverflowShortens | internal/relay/deliver.go:428-440 | beyond that it may decrease, for a concrete base |
| Session.UpTo | internal/smtpd/session.go:590-603 | the address inside angle brackets ends before the first closing one, or nowhere |
| Session.CommandKeepsSound | internal/smtpd/session.go:105-168 | every command keeps the invariant of login, sender, recipients and log |
| Session.SessionSafe | internal/smtpd/session.go:105-168 | for every command sequence each queued message has a sender its account allows and 1 to MaxRecipients valid recipients, and follows a login permitted by TLS, loopback or a lax setting |
| Session.FreshLoginBetween | internal/smtpd/session.go:508-514 | between two queued messages lies a fresh permitted login by the account of the second |
| SessionTrace.Served | internal/smtpd/session.go:48-103 | a connection reads its commands up to the first that closes it and ends in the state behind that |
| SessionTrace.OneEntry | internal/smtpd/session.go:105-168 | a command adds an entry exactly when it is an AUTH that proves an account in a state that permits it, or a DATA that queues the envelope, and at most one |
| SessionTrace.LoginIff | internal/smtpd/session.go:326-353 | an AUTH in such a state logs the account in if and only if it is looked up and its hash verifies the password |
| SessionTrace.LoginProven | internal/smtpd/session.go:326-353 | for every command sequence each login in the log goes back to an AUTH command whose credentials prove the account; it was permitted; and TLS in the entry goes back to implicit TLS or a STARTTLS whose handshake succeeded |
| SessionTrace.MessageTraced | internal/smtpd/session.go:355-461 | for every command sequence a queued message has the sender of the last effective MAIL before its DATA and the recipients of exactly the RCPT commands that took effect in between, in order |
| SessionTrace.MechanismLaw | internal/smtpd/session.go:230-253 | AUTH takes LOGIN and PLAIN, and credentials in the command with PLAIN only |
| SessionTrace.BracketLaw | internal/smtpd/session.go:590-603 | an argument in angle brackets names what stands between them |
| SessionTrace.WordLaw | internal/smtpd/session.go:590-603 | without brackets it names its first word |
| SessionTrace.ValidLaw | internal/smtpd/session.go:618-624 | an address is valid exactly when both sides of its last '@' are non-empty and it has no blank, bracket or parenthesis |
| Session.Conn.Reset | internal/smtpd/session.go:508-514 | the envelope is cleared, and the login on request; greeting, TLS and log are kept |
| Session.Conn.HandleStartTLS | internal/smtpd/session.go:190-218 | TLS is on exactly after a successful handshake, which drops greeting and transaction and keeps the login |
| Session.Conn.HandleAuth | internal/smtpd/session.go:230-253 | no second login, no login without permission; the connection closes exactly when the exchange cannot be read |
| Session.Conn.TryAuthenticate | internal/smtpd/session.go:326-353 | field by field: the user is the account of the normalised login exactly if it is found and its hash verifies the password, and is then logged; otherwise nobody; the envelope is cleared |
| Session.Conn.HandleMail | internal/smtpd/session.go:355-383 | the sender is set, and recipients dropped, exactly for a valid, allowed address within the size; nothing else changes |
| Session.Conn.HandleRcpt | internal/smtpd/session.go:385-408 | a valid recipient is added behind the others while there is a sender and room; nothing else changes |
| Session.Conn.HandleData | internal/smtpd/session.go:410-461 | a message is queued with the current account, sender and recipients exactly when the body was read in full and the queue takes it; login and envelope are used up whenever the body was read |
| Session.Conn.Handle | internal/smtpd/session.go:105-168 | each verb, in whatever case, has its effect: QUIT closes, RSET clears all, HELO and EHLO keep the login, unknown verbs change nothing, the others act as their handlers |
| Session.Serve | internal/smtpd/session.go:48-103 | the log of a whole connection is that of the state functions, and safe |
| Submission.DataCommand | internal/smtpd/session.go:410-461 | nothing is read unless login, sender and recipients are there; otherwise stream and session are those of reading the body and of its outcome |
| Submission.BodyToLog | internal/smtpd/session.go:410-506 | a transmitted body is logged as queued exactly when its counted size plus two is within the limit and the queue takes it, the relayed bytes are then its lines, and an over-long body swallows the stream and leaves the session as it was |
| Wakeup.NoLostWakeup | internal/storage/storage.go:165-173 | in every interleaving, for each write since the worker's last SELECT its producer has still to wake, or a token is stored, or the worker is about to SELECT; several producers may write one row |
| Wakeup.LeavesNothingIff | internal/storage/queue.go:42-48 | a SELECT leaves nothing due exactly when at most its LIMIT of rows are due and all of them can be claimed |
| Wakeup.SleeperLeaves | internal/relay/deliver.go:49-71 | a worker that waits with an empty slot and no producer in mid-call leaves unserved exactly what its last SELECT left and the rows whose retry time has come since; the former is empty exactly in that case |
| Wakeup.TwoStepsLook | internal/storage/queue.go:20-28 | a waiting worker can always take two steps that look for a row whose producer has returned, and find it if at most the LIMIT of rows are due |
| Wakeup.RowsLeftBehind | internal/relay/deliver.go:67-71 | whatever the LIMIT, a run in which more rows are submitted ends with the worker asleep, the slot empty, no producer in mid-call, and the rows its SELECT did not return still due |
| Merge.Deduplicate | internal/config/config.go:623-662 | every normalised key once, with its last entry, in the order of first occurrence |
| Merge.MergedDistinct | internal/config/config.go:623-662 | such a list has no key twice |
| Merge.MergeEnv | internal/config/config.go:262-278 | the YAML entries no environment entry names literally, then the environment entries |
| Merge.UnnamedExactly | internal/config/config.go:262-278 | an entry of the file stays exactly when no environment entry has literally its key |
| Merge.LastOfConcat | internal/config/config.go:262-278 | in a concatenation the later list decides every key it has |
| Merge.PreFilterHarmless | internal/config/config.go:262-278 | the literal pre-filter changes neither the set of keys nor the entry any of them ends with |
| Accounts.NormalizeList | internal/storage/accounts.go:185-197 | the loop computes the first occurrences of the normalised non-empty addresses behind the given start |
| Accounts.AllowedProper | internal/storage/accounts.go:185-197 | the list starts with the account's address and has no repetition, no empty and no unnormalised address |
| Accounts.AllowedExactly | internal/storage/accounts.go:185-197 | it holds the account's address, every non-empty address asked for, and nothing else |
| Accounts.AllowedIdempotent | internal/storage/accounts.go:185-197 | normalising a normalised list changes nothing |
| Accounts.ConfigNormalisationHarmless | internal/config/config.go:704-716 | normalising the extra addresses when the configuration is read does not change what is stored |
| Accounts.AllowsFrom | internal/storage/accounts.go:175-183 | true exactly when the normalised address is in the list |
| Accounts.UpsertKeepsValid | internal/storage/accounts.go:81-130 | seeding keeps every stored list proper, also when it stops with an error |
| Accounts.OthersUntouched | internal/storage/accounts.go:81-130 | accounts no seed names keep their contents, also when it stops with an error |
| Accounts.LastSeedWins | internal/storage/accounts.go:81-130 | after success the hash of every seeded account verifies the password of the last seed with its address, and its senders are those of that seed |
| Accounts.CreatedExactly | internal/storage/accounts.go:121-127 | after success the created addresses are exactly the seeded ones the table did not have |
| Accounts.EverySeedReported | internal/storage/accounts.go:81-130 | after success every seed is reported once, as created, updated or unchanged |
| Accounts.StopsAtFault | internal/storage/accounts.go:87-114 | a failing call stops at the first seed with an empty address, an empty password or a password that cannot be hashed, says which, and keeps what the seeds before it did |
| Accounts.UnchangedIffSettled | internal/storage/accounts.go:98-105 | a call changes nothing and reports every address unchanged if and only if the table holds what every seed asks for |
| Accounts.SeedingIdempotentIff | internal/storage/accounts.go:81-130 | seeding again changes nothing and reports every address unchanged if seeds with one address agree, and only if they do when no hash verifies two passwords |
| Accounts.DistinctConsistent | internal/storage/accounts.go:81-130 | seeds with distinct normalised addresses agree |
| Accounts.RestartSettled | internal/config/config.go:623-636 | the seeds a configuration yields are settled by the first run, and are the last entries of their addresses |
| Accounts.Directory.UpsertAccounts | internal/storage/accounts.go:81-130 | table, summary and error are those of the fold over the seeds, stopping at the first error; the table stays valid |
| Accounts.Directory.UpdateAccount | internal/storage/accounts.go:145-172 | fails exactly for an unknown account or a password that cannot be hashed, changing nothing; else replaces the senders, and the hash if asked, of that account alone |
| Text.CanonIdempotent | internal/storage/accounts.go:86-86 | trimming and lower-casing twice is doing it once |
| Text.LowerLaw | internal/relay/deliver.go:461-467 | lower-casing maps the 26 capitals to the small letters and changes nothing else |
| Text.TrimLaw | internal/storage/accounts.go:86-86 | trimming takes away exactly the white space around a text |

## Left out

- Text.CanonIdempotent: trimming and lower-casing cover ASCII, not the Unicode letters and spaces of the original.
- Relay.DeliverGroup: the network, DNS and TLS are nondeterministic answers; the texts of the rejection reasons, and the reconnection after a failed STARTTLS, are one answer each; a failed write of the body counts as a failed DATA.
- Relay.Deliverer.ProcessBatch: deliveries of a batch run one after the other; their interleavings are in the protocol model only.
- Service.Server.Accept: submissions and requeues come between batches; while one runs they are in the protocol model only. Ids are new, as NewID is meant to make them.
- Books.OperationsKeepOrder: holds for operations run to completion; requeues whose two halves are apart are in LateMarks.dfy, all other operations stay whole there.
- Storage.Store.Enqueue: the columns sender, data, last_error and worker_id are not kept, and time columns are natural numbers.
- Books.AcceptKeepsOrder: texts, sizes, previews and times of the history are not kept.
- Safety.NoRecipientLost: ids are assumed fresh, as NewID is meant to make them, and a SELECT may return any due rows in any order, which covers its ORDER BY and LIMIT.
- DataTransfer.ReadData: the 64-bit overflow of the size counter is not modelled.
- Session.Conn.HandleAuth: base64 decoding and the two exchanges are one input that says what the client gave.
- Session.Conn.HandleMail: the SIZE parameter is an input, its parsing is not modelled.
- Session.Serve: the outcome of reading a body is an input of a command here; Submission.dfy computes it. Reply codes and texts, time-outs and the splitting of a line into verb and argument are not modelled.
- Accounts.Directory.UpsertAccounts: hashing and verifying passwords are inputs, and database errors are not modelled.
- Wakeup.NoLostWakeup: one worker per process, as Run is started once.
- Message parsing and composition other than the quoted-printable encoder.
- DKIM signing, certificates, migrations, JSON columns, retention of the history, listing and statistics queries.
- The admin API other than requeueing and the tail of sending, the web panel, DNS reports, log masking, metrics output.
- Reading and validating the configuration other than merging and de-duplication.
