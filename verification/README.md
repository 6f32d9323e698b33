# minechat session engine, modelled in Dafny

A model of the session logic of the minechat client:
- the wire framing and the token handshake of the chat protocol (`minechat_api.py`, `core/auth.py`);
- one read session (`core/reader.py`);
- one send session, with its message and ping loop (`core/sender.py`);
- the fixed-delay restart loop around a generation of sessions (`core/connection.py`);
- the two stand-alone chat listeners with capped doubling backoff (`listen-minechat.py`, `main.py`).

Everything asynchronous is replaced by scripts of input events:
- **Socket reads.** `inbox[i]` is what the i-th `readline` meets: a line (`""` is end of stream), silence (nothing arrives before an enclosing timeout fires), or an exception. A script that runs out behaves as a peer that has closed its end. Untimed reads wait silence out. Timed reads, which are the sender's acknowledgement and prompt reads, treat silence as their timeout.
- **The outbound queue.** It is a script of what each timed `sending_queue.get()` yields: a text, the idle timeout, or an exception. Running out of events stands for the cancellation that ends every send session that does not fail.
- **Sessions inside the loops.** A generation of `handle_connection` is the list of exceptions its task group ends with. A listener session is an episode: whether `open_connection` succeeds, and its inbox. A loop script that runs out means the loop is still running.
- **Outputs.** They are lists: status events, liveness events, socket operations (`Recv`/`Send`), queue puts, and log actions (`Chat`, `Say`, `Sleep`). Exceptions are a datatype with the classes the `except` clauses distinguish.

The session loops are methods proved equal to reference functions: `ReadMsgs` and `ReadSession`, `SendMsgs` and `SendSession`, `HandleConnection` and `Supervise`, `ReadChatForever` and `Forever`, and their inner loops likewise. Lemmas state what the source promises about those functions. The two straight-line exchanges, `authorise_or_raise` (`Auth.AuthoriseOrRaise`) and `register` (`Api.Register`), are methods whose contracts state their outcomes directly, without a reference function.

Some behaviours of the code are easy to expect otherwise; the model follows the code:
- `_readline_text` returns `""` both at end of stream and for a blank line (`Api.ReadlineTextEmpty`).
- A bare `""` read counts as the sender's acknowledgement.
- The sender reports CLOSED twice for a rejected token (`Sender.RejectedToken`).
- The sender reports no CLOSED when a KeyboardInterrupt leaves.
- `authorise` accepts any non-null JSON, while `authorise_or_raise` wants a truthy payload (`Api.AcceptanceDiffers`).
- `core/connection.py` sleeps a fixed delay, while the stand-alone listeners double it up to 60 seconds.

## Model

| member | source | states |
|---|---|---|
| Text.RStrip | minechat_api.py:13 | `rstrip(chars)` keeps a prefix, drops only characters of `chars`, and the kept part does not end in one |
| Text.RStripUnique | minechat_api.py:13 | any prefix with those three properties is the `rstrip` result |
| Text.RStripIgnoresTrail | listen-minechat.py:33 | appending stripped characters to a line does not change its `rstrip` |
| Text.RStripFixed | minechat_api.py:81 | a string not ending in a stripped character is its own `rstrip` |
| Text.RStripIdempotent | core/reader.py:32 | stripping twice is stripping once |
| Text.Strip | core/sender.py:87 | `strip()` has no whitespace at either end, and is empty exactly when the text is blank |
| Text.StripTrims | core/sender.py:87 | `strip()` is a slice of the text with only whitespace before and after it |
| Text.StripFixed | core/sender.py:87 | a string without whitespace at its ends is its own `strip()` |
| Text.StripIdempotent | core/sender.py:87 | stripping a stripped message changes nothing |
| Text.NatToString | listen-minechat.py:69 | the rendered delay is all decimal digits, without a leading zero |
| Text.NatToStringRoundTrip | listen-minechat.py:69 | the rendered delay reads back as the delay |
| Events.Arrival | minechat_api.py:58 | an untimed readline waits through silence and completes at the first line, end of stream or exception |
| Events.StreamGoesOn | core/reader.py:28-36 | a read that neither ends the stream nor fails adds its decoded line, or nothing for silence, and the loop goes on |
| Events.StreamStops | core/reader.py:29-31 | end of stream or an exception ends the readline loop and nothing more is received |
| Events.DrainCons | core/reader.py:29-33 | a received line is delivered ahead of everything after it |
| Events.DrainAppend | core/reader.py:28-36 | a quiet stretch of the stream delivers exactly its lines, in arrival order, ahead of what follows |
| Events.LinesThenEof | core/reader.py:28-36 | N non-empty lines then end of stream deliver exactly the N decoded lines, in order, then the end |
| Api.ReadlineText | minechat_api.py:8-13 | end of stream gives `""`; otherwise the line without its trailing newlines, and only newlines are removed |
| Api.ReadlineTextEmpty | minechat_api.py:11-13 | the text is empty exactly when the raw line is end of stream or only newlines |
| Api.SubmissionBody | minechat_api.py:80-81 | the body ends in two newlines and is at most two characters longer than the text |
| Api.SubmissionBodyShape | minechat_api.py:80-81 | before those two newlines the body is the text up to where only newlines remain, and it does not end in a newline there |
| Api.FramingRoundTrip | minechat_api.py:81 | removing the terminator gives back the text, less trailing newlines, and exactly the text when it had none |
| Api.FramingIgnoresTrailingNewline | minechat_api.py:81 | the body of `t + "\n"` is the body of `t`, and the empty text frames to `"\n\n"`, the ping |
| Api.Payload | minechat_api.py:68-71 | an empty response or one that does not decode gives None, and any other response gives the value it decodes to |
| Api.AcceptanceDiffers | minechat_api.py:68-73 | every truthy payload passes `is not None`, and exactly `{}`, `""` and the other falsy values pass it while failing truthiness |
| Api.Handshake | minechat_api.py:58-65 | read the greeting, write the line once, read the reply; an exception on either read stops the exchange, with what was done so far |
| Api.HandshakeTurns | minechat_api.py:58-65 | the token exchange alternates read, write, read |
| Api.Authorise | minechat_api.py:47-73 | `authorise` writes exactly `token + "\n"` once between the two reads and returns True exactly when the reply is non-empty and decodes to a JSON value other than null, `{}` and `false` included |
| Api.Register | minechat_api.py:27-44 | greeting, `"\n"`, prompt, `nickname + "\n"`, token line, in that order; an exception from a read escapes with what was done before it; otherwise the result is `json.loads` of the token line, whose decoding error escapes, an empty token line included |
| Api.Loads | minechat_api.py:43 | `json.loads` succeeds exactly on text that decodes |
| Auth.LoadToken | core/auth.py:17-25 | a missing or unreadable token file is an InvalidToken (the missing one with its own message); otherwise the `account_hash`, possibly None |
| Auth.Nickname | core/auth.py:52 | the value of the payload's `nickname` member, whatever its type, `null` included, or the text `<unknown>` when there is none |
| Auth.AuthoriseOrRaise | core/auth.py:28-62 | an unusable token file fails before any event; an open connection does greeting, token, reply; an exception from a read leaves unchanged after INITIATED alone; a falsy payload (null, `{}`, `""`, `false`, ...) reports CLOSED and raises InvalidToken; a truthy value that is not an object raises the AttributeError naming its type; an object with members reports the `nickname` value then ESTABLISHED and returns it; the writer is closed exactly when opened |
| Reader.Normalise | core/reader.py:38-42 | cancellation is re-raised unchanged; every Exception becomes a ConnectionError with the same message |
| Reader.RepeatAll | core/reader.py:35-36 | the watchdog gets CHAT_RX once per line and nothing else |
| Reader.ReadLoop | core/reader.py:28-36 | both queues receive exactly the decoded lines in arrival order, one CHAT_RX each, until the loop ends with end of stream or an exception |
| Reader.ReadMsgs | core/reader.py:11-49 | the run equals the reference read session for every open outcome and inbox |
| Reader.SessionShape | core/reader.py:11-49 | same lines on both queues; INITIATED first and CLOSED last; ESTABLISHED, READ_OK and closing the writer exactly when the connection opened; only cancellation, ConnectionError or KeyboardInterrupt leave |
| Reader.LinesThenClose | core/reader.py:28-42 | N lines then end of stream put exactly the N decoded lines on both queues and raise ConnectionError("server closed read stream") |
| Reader.CancellationPassesThrough | core/reader.py:38-39 | cancellation while lines flow is re-raised unchanged, after the lines before it, and CLOSED is still reported |
| Sender.CallsAt | core/sender.py:70-91 | each dequeued event is classified on its own, in dequeue order |
| Sender.CallFrames | core/sender.py:71-91 | an idle timeout sends the bare `"\n\n"` ping; a message is stripped and dropped exactly when blank, else sent as stripped text plus terminator; a failing `get` stops |
| Sender.Classify | core/sender.py:70-89 | an idle timeout calls for the `"\n\n"` ping with the ping ack timeout's message; a message is blank exactly when its strip is empty, and otherwise is submitted as its strip plus the terminator with the "no prompt after message" error; a failing `get` stops the loop |
| Sender.TakeTurn | core/sender.py:74-101 | a submission is written and reported as MSG_SENT; any line read next, the empty read at end of stream included, acknowledges it with CHAT_RX; silence raises the submission's ConnectionError; an exception from the read leaves as it is |
| Sender.MessageLoop | core/sender.py:69-101 | the loop's writes, liveness events, taken events and stopping exception are those of the reference loop |
| Sender.PumpSendsInOrder | core/sender.py:87-93 | the loop writes exactly the framed submissions of the events it took, in dequeue order |
| Sender.PumpStops | core/sender.py:69-101 | the loop ends only when the queue runs out, when the `get` raises, or after writing a submission that is not acknowledged, with silence raising that submission's ConnectionError and a read exception leaving unchanged |
| Sender.ConverseTimeouts | core/sender.py:63-101 | without a prompt within the ack timeout nothing is written, CLOSED is reported and ConnectionError("no initial prompt after auth") is raised; a submission of the loop left unacknowledged raises the ping's or the message's ConnectionError after CLOSED |
| Sender.LoopTimeout | core/sender.py:74-101 | an unacknowledged submission ends the loop with ConnectionError("ping ack timeout") for a ping and ("no prompt after message") for a message |
| Sender.TurnAlternates | core/sender.py:91-99 | one turn is a send followed by its acknowledgement, with MSG_SENT then CHAT_RX |
| Sender.PumpAlternates | core/sender.py:69-101 | submissions and acknowledgements alternate strictly, mirrored by MSG_SENT and CHAT_RX |
| Sender.Escalate | core/sender.py:103-123 | CLOSED except on KeyboardInterrupt; cancellation and InvalidToken unchanged; OSError and other exceptions become ConnectionError(str(e)) |
| Sender.AbortShape | core/sender.py:103-129 | every exit but KeyboardInterrupt appends CLOSED, leaves with one of the four allowed exceptions, and closes the writer exactly when open |
| Sender.Conversation | core/sender.py:58-101 | equals the reference conversation; without a prompt within the ack timeout it writes nothing, reports CLOSED and raises ConnectionError("no initial prompt after auth"); a ping or message left unacknowledged raises ConnectionError("ping ack timeout") or ("no prompt after message") respectively, with CLOSED reported |
| Sender.SendMsgs | core/sender.py:39-129 | the run equals the reference send session for every token file, open outcome, inbox and queue |
| Sender.Accepted | core/sender.py:51-59 | an accepted token hands over to the conversation after writing only the token line |
| Sender.ConverseOutcome | core/sender.py:58-129 | after acceptance: INITIATED, ESTABLISHED, then CLOSED on every exit but KeyboardInterrupt; the writer is closed |
| Sender.SessionOutcome | core/sender.py:39-129 | token failure before any event; INITIATED first; CLOSED last unless interrupted; ESTABLISHED exactly when the token is accepted; only cancellation, InvalidToken, ConnectionError or KeyboardInterrupt leave |
| Sender.RejectedToken | core/sender.py:52-111 | a rejected token reports INITIATED, CLOSED, CLOSED, raises InvalidToken, writes only the token and tells the watchdog nothing |
| Sender.ConverseSends | core/sender.py:63-101 | after the prompt exactly the queued submissions are written, in dequeue order, and SEND_OK precedes the loop's liveness events |
| Sender.CallsPrefix | core/sender.py:69-72 | the events dequeued so far are classified as a prefix of the whole queue |
| Connection.SplitPartitions | core/connection.py:51-58 | the handled ConnectionErrors and the re-raised other exceptions together number the group's members, each member lands in its part, nothing re-raised is a ConnectionError, and the handler runs exactly when the group holds a ConnectionError |
| Connection.HandleConnection | core/connection.py:32-61 | the loop's starts, sleeps and final exceptions are those of the reference loop |
| Connection.Stop | core/connection.py:51-61 | the loop stops at the first generation with an exception other than ConnectionError |
| Connection.StopsAtUnhandled | core/connection.py:32-61 | the loop re-raises exactly what `except*` did not handle, at the first such generation, having started each generation once |
| Connection.SleptRound | core/connection.py:51-58 | a generation sleeps once, for the delay, exactly when it failed with a ConnectionError |
| Connection.FixedDelay | core/connection.py:51-58 | one sleep per generation with a ConnectionError, none after a clean end, always the fixed delay |
| Connection.PauseFollowsLaunch | core/connection.py:32-58 | every sleep comes straight after the start of the generation it follows |
| Chat.NthClosedForm | listen-minechat.py:65-78 | after n doublings the delay is `min(2^(n+1), 60)` |
| Chat.NthBounds | listen-minechat.py:65-78 | the delay stays within [2, 60] |
| Chat.NthMonotone | listen-minechat.py:65-78 | the delay never decreases |
| Chat.NthCapped | listen-minechat.py:71 | from the sixth delay on it is 60 |
| Chat.AnnouncedDelayReadsBack | listen-minechat.py:69-76 | the number in a rendered announcement reads back as the delay announced |
| Chat.ChatsAt | listen-minechat.py:50-51 | the k-th chat action logs the k-th line |
| Chat.OnceShape | listen-minechat.py:39-60 | a failed open logs nothing; otherwise the connection notice first, the close notice last on a normal return, only chat lines and these notices, no sleep |
| Chat.OutcomesLogged | listen-minechat.py:39-60 | every session's log has that shape |
| Chat.ReadChatOnce | listen-minechat.py:39-60 | the session (`read_chat_once` of both scripts) equals the reference session |
| Chat.ChatLoop | listen-minechat.py:44-51 | every line is logged without its trailing newlines, in order; end of stream logs the close and returns; an exception leaves without a notice |
| Chat.OnceLogsLines | listen-minechat.py:45-51 | N lines then end of stream log the connection, the N lines in order, then the close, and return normally |
| Chat.OnceFails | listen-minechat.py:44-53 | an exception logs the lines before it and leaves with no close notice |
| Chat.DelaysAt | listen-minechat.py:71 | the k-th delay after n doublings is the delay after n + k |
| Chat.DelayRun | listen-minechat.py:65-78 | the delays 2, 4, 8, 16, 32, then 60, within [2, 60], never shorter than the one before |
| Chat.HaltIsFirst | listen-minechat.py:72-73 | the loop survives every session before the first cancelled or interrupted one and stops at it |
| Chat.Backoff | listen-minechat.py:63-78 | one sleep per survived session, the delays doubling from the current one; the loop re-raises what stopped it |
| Chat.Halted | listen-minechat.py:72-73 | a cancelled or interrupted session is re-raised without sleeping |
| Chat.Survived | listen-minechat.py:67-78 | a survived session sleeps once, for the current delay, before the rest of the loop runs with the next delay |
| Listener.Stamp | listen-minechat.py:33 | a logged line is the timestamp, a space and the line without trailing whitespace |
| Listener.StampIgnoresTrailingSpace | listen-minechat.py:33 | trailing whitespace, the newline among it, does not reach the history |
| Listener.RecoverySleepsOnce | listen-minechat.py:69-77 | between two sessions the listener sleeps once, for the current delay, last |
| Listener.ReadChatForever | listen-minechat.py:63-78 | the listener's log, sleeps and re-raised exception are those of the reference loop over the sessions |
| Listener.DelaysDouble | listen-minechat.py:65-78 | sleeps are 2, 4, 8, 16, 32, then 60, within [2, 60], never decreasing or reset; the loop ends exactly at the first cancelled or interrupted session, re-raising it |
| Listener.AnnouncedIsSlept | listen-minechat.py:69-77 | every sleep directly follows the announcement of that very delay |
| Saver.Stamp | main.py:26 | a logged line is `!! `, the timestamp, a space and the line without trailing whitespace |
| Saver.StampIgnoresTrailingSpace | main.py:26 | trailing whitespace does not reach the history |
| Saver.RecoverySleepsOnce | main.py:66-76 | between two sessions the saver sleeps once, for the current delay |
| Saver.ReadChatForever | main.py:61-76 | the saver's log, sleeps and re-raised exception are those of the reference loop over the sessions |
| Saver.DelaysDouble | main.py:61-76 | the same capped doubling as the listener, ending at the first cancelled or interrupted session |
| Saver.AnnouncementOrder | main.py:66-76 | after a close the sleep follows the close notice unannounced and the reconnection announced next names the doubled delay; after an error the sleep follows the announcement of its own delay |
| Saver.ChunkOrder | main.py:66-76 | within one session and the recovery after it, each sleep and each reconnection announcement is preceded as above |

## Left out

- Concurrency: asyncio tasks, the anyio task group of `handle_connection` and sibling cancellation. A generation is only the exceptions its group ends with.
- Real sockets, `async_timeout` and queue blocking. They are the input scripts described above, so timeouts have no durations.
- UTF-8 decoding with replacement and encoding on write. Lines are already strings.
- `json.loads`. It is a parameter `parse` returning a decoded value or a decoding error. A value is seen only as far as the client looks into it: null, a string, an object with its members, or any other value with its truthiness and type name. Since `json.loads("")` always raises, `Api.Register` requires `parse` to reject the empty text; `authorise` and `authorise_or_raise` never pass it one.
- The filesystem. The token file is a value: missing, unreadable, or an object with or without `account_hash`. `log_line`'s `print` and file append become `Chat`/`Say` actions in a trace. `Stamp` gives the text written, with the timestamp passed in, since clocks are not modelled.
- The exception class name in the "Ошибка соединения" notice. `Chat.Render` takes it as a parameter.
- `logger.debug`/`logger.info` output, and with it the `%.1f` formatting of the reconnect delay. A `Connection.Pause` step carries the first ConnectionError's message and the delay instead.
- The `if status_queue:` and `if watchdog_queue:` guards. The supervisor always passes both queues, so the model always puts.
- `writer.close()` and the suppressed `wait_closed()`. They are a `writerClosed` flag in the read session, the send session and `authorise_or_raise`. The close that `read_chat_once` performs in its `finally` is not modelled: `Chat.Outcome` has no such flag.
- Failing writes. Every `writer.write` and `drain` succeeds in the model: in `register`, `authorise`, `authorise_or_raise` and each submission of the send loop. A peer that has gone away is seen only by reads: the sender's acknowledgement read then meets end of stream, which counts as an acknowledgement. So for a dead server the model's traces overstate: they record the `Send`, MSG_SENT and CHAT_RX of submissions whose `drain` would raise, and the session goes on until the queue or a read stops it. In the source such a failure leaves as ConnectionError(str(e)) after CLOSED.
- Cancellation during a reconnect sleep. The sleep in the `except*` handler of `handle_connection` and the sleeps of the two listeners always complete in the model. A cancellation or KeyboardInterrupt that arrives while one of them sleeps cannot be expressed.
- `amain`'s start-up log line, the signal handlers and argument parsing of the two scripts. They are outside the session loops.
- Not part of this model: core/watchdog.py, core/app.py, core/history.py, gui.py, utils.py, core/config.py, register_gui.py, register-minechat-user.py and send-minechat-auth.py.
- `core/sender.py` repeats `_load_token` as `_read_token` and `_readline_text` as its own helper. Both copies behave identically, so the model uses `Auth.LoadToken` and `Api.ReadlineText` for them.
