# Verified models of the yuuka server's state machines

Dafny models of the parts of yuuka where several requests, clocks or failures meet, and proofs of
what they promise. One module per component; the order below is the order of importance.

**The chat turn protocol** (`MessageLog`, `InFlight`, `ChatProtocol`, `ChatInvariant`,
`ChatTheorems`, `ChatAdmission`, `ChatAlternation`, `ChatRace`, `Recovery`, `ChatRecovery`,
`ChatServer`). A POST to the chat endpoint takes a per-user slot, has its message written, is
answered 202, and a background turn writes an assistant row later. Whether a slot is busy is read
off the message log, so a newer request may take over a slot whose guard is still alive. The model
interleaves any number of requests in atomic steps: a critical section of the slot mutex, a read of
committed rows, handing a transaction to the single writer, the writer committing or failing the
oldest one. Reads and writes may fail, handlers may be cancelled, turns may panic or time out, and
the process may crash at any step and sweep on its next start. `ChatInvariant` is the inductive
invariant; its key line is that a live guard owns its slot or its turn has a committed answer.

What is assumed of the surroundings, and nothing else:

- The writer executes transactions one at a time, in the order in which they were handed over
  (`crates/yuuka-db/src/writer.rs:57-126`), and a read sees committed rows only.
- The engine hands over at most one assistant row per turn, before it returns or is timed out. A row
  handed over before the timeout may still be committed after it.
- No other component writes PWA rows of the bot; rows of other sources come in at any time.

One finding. The comment at `crates/yuuka-client-api/src/routes.rs:1053-1055` says that checking
`is_current` keeps a turn from writing a notice after a newer message. The check and the write are
separate steps, so it does so only if no reply of the turn is committed or with the writer when the
check passes. `ChatRace.NoticeIsSafeIffUnexposed` proves that this condition is exact: if it fails,
there is a clean continuation in which a poller takes the notice of the old turn for its own answer.
Two reachable ways to fail it are given (a failed read at line 1043, and a reply still with the
writer when the engine times out). The theorems about runs are therefore stated for *clean* runs, in
which the condition holds at each such check; `ChatRace.PromptRunsAreClean` shows that reads that
work and replies that arrive before the terminal check make every run clean.

**The session store** (`Sessions`), **encryption and key rotation** (`Crypto`, `Rotation`), **the
line primitive of the charts** (`Line`), **the device authorization store** (`DeviceAuth`,
`DeviceHistory`), **the read pool** (`ReadPool`), **the markdown normaliser** (`Markdown`), **the
message search** (`LikeEscape`), **the one-shot guard** (`Dedup`), **the rate limits**
(`RateLimit`), **invite codes and registration** (`Invites`, `InviteHistory`), **pending
registrations** (`Pending`) and **the component codec of the desktop client** (`Components`,
`ComponentFields`) are each modelled in the form the program has: a class whose methods update its
fields, or a loop, proved against a function, and theorems about that function over all runs. `Text`
and `Wrappers` hold what several of them use.

More places where a promise holds only under a condition, each proved to be exact or shown by an
example:

- `destroy_all_for_user` with Redis unreachable leaves the user's Redis sessions
  (`Sessions.DestroyAllRevokes`).
- The device store's two maps stay inverse exactly as long as device code hashes do not repeat
  (`DeviceAuth.CreateKeepsInverseIffNew`).
- A read cancelled while its closure runs gives its permit back and the closure keeps its
  connection. The pool keeps to its size from a state on, as long as no further closure is cut off
  like that, exactly when none that was is still running (`ReadPool.KeepsToSizeIff`,
  `ReadPool.CancelledReadKeepsConnection`).
- Cleaning markdown twice is cleaning it once exactly when no line inside a fence keeps a carriage
  return at its end with a line that is not blank after it (`Markdown.CleanTwiceIff`). A line keeps
  one if it ends in two of them before its line feed.
- Checking the login lock and recording a failure are separate steps, so the bound on failures grows
  with the number of logins under way; it is met for every such number (`RateLimit.FailuresBounded`,
  `RateLimit.FailuresBoundMet`).
- An initial setup that began while there was no user still adds one when others have entered
  meanwhile (`Invites.SetupAddsSecond`, `Invites.TwoSetups`); that user is no administrator unless
  listed.
- A line is drawn without 32-bit overflow exactly when no endpoint has the largest coordinate, while
  its longer side is at most a third of the range (`Line.NoOverflow`).

Times are integers that never decrease. Hashes, random draws, ciphers and key derivations are
parameters. `dafny verify dfyconfig.toml` checks everything.

## Model

| member | source | states |
|---|---|---|
| InFlight.InFlightTurns.InsertSlot | crates/yuuka-client-api/src/routes.rs:158-171 | A slot gets a token never used before and no `sinceId`; other slots stay. |
| InFlight.InFlightTurns.LookFirst | crates/yuuka-client-api/src/routes.rs:190-201 | First critical section of `acquire`: a slot is taken exactly when it is free, whoever else has one; one without `sinceId` refuses, else holder and `sinceId` are reported; but for a taken slot nothing changes. |
| InFlight.InFlightTurns.LookAgain | crates/yuuka-client-api/src/routes.rs:205-218 | Second critical section: the slot is taken exactly when it is free or still the holder's. |
| InFlight.InFlightTurns.MarkAccepted | crates/yuuka-client-api/src/routes.rs:241-251 | Records `sinceId` only in the guard's own slot. |
| InFlight.InFlightTurns.IsCurrent | crates/yuuka-client-api/src/routes.rs:253-260 | True exactly when the slot carries the guard's token. |
| InFlight.InFlightTurns.DropGuard | crates/yuuka-client-api/src/routes.rs:263-270 | Frees the slot only if it carries the guard's token. |
| MessageLog.ReplyAfterIsOwn | crates/yuuka-client-api/src/routes.rs:130-138 | While a turn is its conversation's latest, a committed assistant row after its `sinceId` is its own. |
| MessageLog.AttributedSnoc | crates/yuuka-client-api/src/routes.rs:125-128 | Appending a row keeps every answer with the latest message exactly when the row is a message or answers for the latest one. |
| MessageLog.SweptOrphans | crates/yuuka-orchestrator/src/message_log.rs:603-646 | Writing one notice per listed conversation takes exactly those out of the set of unanswered ones. |
| MessageLog.SweepAppends | crates/yuuka-orchestrator/src/message_log.rs:603-646 | The notices of a sweep belong to the turns of the last messages of their conversations, each seen as it was before the sweep. |
| ChatInvariant.StepKeeps | crates/yuuka-client-api/src/routes.rs:190-270 | Every clean step of any request, of the writer, of a crash and of the sweep keeps the invariant: each live guard owns its slot or is answered, each slot belongs to a live guard, each answer to the latest message. |
| ChatInvariant.RunKeeps | crates/yuuka-client-api/src/routes.rs:880-963 | The invariant holds after every clean run. |
| ChatInvariant.AdmitKeeps | crates/yuuka-client-api/src/routes.rs:205-218 | Taking over a slot is sound when every live owner of it has a committed answer. |
| ChatInvariant.SendKeeps | crates/yuuka-client-api/src/routes.rs:930-939 | Handing over a message, a reply or a notice keeps the invariant while the turn has no answer. |
| ChatInvariant.CommitKeeps | crates/yuuka-orchestrator/src/message_log.rs:544-572 | Committing the oldest transaction keeps it; the accept reads the previous id and inserts at once. |
| ChatInvariant.FailKeeps | crates/yuuka-client-api/src/routes.rs:1059-1065 | So does a transaction that fails. |
| ChatInvariant.SweepKeeps | crates/yuuka-client-api/src/recovery.rs:32-50 | So does the sweep between a crash and serving. |
| ChatTheorems.EveryAnswerBelongsToLatestMessage | crates/yuuka-client-api/src/routes.rs:119-139 | In every interleaving every committed assistant row belongs to the turn of the most recent user row before it. |
| ChatTheorems.PollerNeverSeesOlderAnswer | crates/yuuka-client-api/src/routes.rs:866-879 | Let a message be committed, by any turn in any process so far. Every row above the highest id its conversation had before it, which is the `sinceId` of its client, answers that message or a later one, whether or not a guard is still alive. |
| ChatTheorems.PollsFromAcceptOn | crates/yuuka-client-api/src/routes.rs:866-944 | From the commit of a message on, over any further run with crashes and sweeps in it, a client polling past the `sinceId` that the accept answered finds only answers to its own message or to a later one. |
| ChatTheorems.OneUnansweredTurn | crates/yuuka-client-api/src/routes.rs:107-139 | Of two live turns of one user at most one has no committed answer. |
| ChatTheorems.NoLeakedSlot | crates/yuuka-client-api/src/routes.rs:263-269 | Every slot belongs to a live guard, so with no guard alive the slot map is empty. |
| ChatTheorems.SupersededDropFreesNothing | crates/yuuka-client-api/src/routes.rs:233-269 | A superseded guard's drop leaves the slot with its new owner. |
| ChatTheorems.TokensAreFresh | crates/yuuka-client-api/src/routes.rs:145-171 | A new turn gets a token above those of all live guards, slots and admitted requests, and no row committed or on its way is by a turn with it. |
| ChatTheorems.OneReclaimWins | crates/yuuka-client-api/src/routes.rs:202-218 | Of all the requests that saw the same finished holder, once one has taken the slot the others lose for as long as it is taken. |
| ChatTheorems.NoFalseConflict | crates/yuuka-client-api/src/routes.rs:130-139 | A request that arrives after the holder's answer was committed is refused only if its read failed or a newer request took the slot, whatever happens in between. |
| ChatTheorems.AnswersComeAfter | crates/yuuka-client-api/src/routes.rs:930-939 | A turn's own answer has an id above its `sinceId`. |
| ChatAdmission.FreeUserGetsIn | crates/yuuka-client-api/src/routes.rs:186-201 | A user without a live turn gets a guard at once, with a new token and a slot; every other turn and slot is as before. |
| ChatAdmission.GetsInIff | crates/yuuka-client-api/src/routes.rs:107-139 | By its own steps a request can get a guard if and only if every live turn of its user has a committed answer: no false conflict, and no second turn while one is at work. |
| ChatAdmission.AnsweredUserGetsIn | crates/yuuka-client-api/src/routes.rs:186-228 | How: by arriving, or by arriving, a read that works and a second look. |
| ChatAdmission.BusyUserIsRefused | crates/yuuka-client-api/src/routes.rs:186-228 | While a live turn of the user has no answer, a request is refused, at once or after its read, and nothing else changes. |
| ChatAdmission.LeftAlone | crates/yuuka-client-api/src/routes.rs:930-1066 | A turn that nothing interferes with commits its message and exactly one answer, the reply or else the notice, and leaves a free slot and everything else as before. |
| ChatAdmission.RequestLeftAlone | crates/yuuka-client-api/src/routes.rs:880-1066 | So does a request from its arrival on, whenever its user's turns are answered. |
| ChatAlternation.StepQuiet | crates/yuuka-client-api/src/routes.rs:987-999 | What quiet steps keep: rows alternate, an unanswered conversation has a turn that works on it, and a turn leaves only when answered. |
| ChatAlternation.QuietRunsAlternate | crates/yuuka-client-api/src/routes.rs:987-999 | Without abandoned turns and failed notices every conversation goes message, answer, message, answer. |
| ChatAlternation.QuietRunsAnswerEverything | crates/yuuka-client-api/src/routes.rs:987-999 | In such a run, when no turn of a user is at work, whatever others do, every message of that user has an answer after it. |
| ChatAlternation.OneAnswerPerTurn | crates/yuuka-client-api/src/routes.rs:998-999 | In an alternating, attributed log no turn answers twice. |
| ChatRace.NoticeIsSafeIffUnexposed | crates/yuuka-client-api/src/routes.rs:1043-1065 | When `is_current` says yes, attribution survives every clean continuation if and only if no reply of the turn is committed or on its way. |
| ChatRace.ExposedNoticeBreaks | crates/yuuka-client-api/src/routes.rs:1056-1059 | If one is, here is a clean continuation that breaks attribution. |
| ChatRace.LateReplyExposes | crates/yuuka-client-api/src/routes.rs:1014-1018 | Such a state is reached by a timeout while the reply is with the writer. |
| ChatRace.FailedReadExposes | crates/yuuka-client-api/src/routes.rs:1047-1051 | Such a state is reached by a failed terminal check after the reply was committed. |
| ChatRace.PromptRunsAreClean | crates/yuuka-client-api/src/routes.rs:1043-1066 | If terminal checks can read and no reply arrives after them, every run is clean. |
| ChatRace.PromptRunsAttribute | crates/yuuka-client-api/src/routes.rs:1000-1066 | Then attribution holds without any other assumption. |
| Recovery.MessageDb.AcceptUserMessage | crates/yuuka-orchestrator/src/message_log.rs:544-572 | The message becomes the last row, and `sinceId` is the highest id the conversation had before. |
| Recovery.MessageDb.HasReply | crates/yuuka-orchestrator/src/message_log.rs:715-735 | Whether a committed assistant row has an id above `sinceId`. |
| Recovery.MessageDb.InsertNotice | crates/yuuka-orchestrator/src/message_log.rs:490-517 | One assistant row of the conversation is appended. |
| Recovery.MessageDb.SelectOrphans | crates/yuuka-orchestrator/src/message_log.rs:603-646 | A batch lists distinct conversations ending in a message, all of them if they fit. |
| Recovery.MessageDb.SweepPass | crates/yuuka-orchestrator/src/message_log.rs:603-646 | One batch gets its notices; a full batch leaves strictly fewer, a short one none. |
| Recovery.MessageDb.FailOrphanedTurns | crates/yuuka-orchestrator/src/message_log.rs:603-646 | The passes end; on success every unanswered conversation has exactly one notice more and their number is returned, on failure whole batches have theirs. |
| ChatRecovery.RestartAnswersEverything | crates/yuuka-client-api/src/recovery.rs:14-50 | After a crash at any step and a finished sweep every message ever committed has an answer, nothing is lost, and answers still belong to the latest message. |
| ChatRecovery.RestartEndsPolling | crates/yuuka-client-api/src/routes.rs:874-879 | After a crash at any step and the sweep, the client of any message ever committed finds an answer above the `sinceId` it was given, whether or not its turn was still at work. |
| ChatRecovery.SweepIsIdempotent | crates/yuuka-client-api/src/recovery.rs:14-31 | The sweep leaves nothing for another, and adds one answer to each conversation that ended in a message and none to others. |
| ChatRecovery.SweepWhileServingAnswersTwice | crates/yuuka-client-api/src/recovery.rs:26-28 | Why it must run before serving: a turn at work would be answered by the sweep and then by its own reply. |
| ChatServer.Server.Arrive | crates/yuuka-client-api/src/routes.rs:190-201 | The step on the server's fields is the protocol's step. |
| ChatServer.Server.ReadHolder | crates/yuuka-client-api/src/routes.rs:205-228 | Likewise for the read of the holder's answer. |
| ChatServer.Server.Reclaim | crates/yuuka-client-api/src/routes.rs:206-218 | Likewise for the second look at the slot. |
| ChatServer.Server.CheckReply | crates/yuuka-client-api/src/routes.rs:1043-1052 | Likewise for the terminal check. |
| ChatServer.Server.CheckCurrent | crates/yuuka-client-api/src/routes.rs:1053-1058 | Likewise for the check that the slot is still its own. |
| ChatServer.Server.Commit | crates/yuuka-db/src/writer.rs:57-126 | Likewise for the writer taking the oldest transaction. |
| Sessions.ApplyKeeps | crates/yuuka-auth/src/session.rs:108-300 | Every operation keeps: a live Redis session is in its user's set, which expires no earlier; sets hold no foreign hash; the in-memory maps are inverses without empty sets. |
| Sessions.RunKeeps | crates/yuuka-auth/src/session.rs:108-300 | So it holds over any run, Redis coming and going. |
| Sessions.DestroyAllRevokes | crates/yuuka-auth/src/session.rs:194-219 | No session of the user resolves afterwards if and only if Redis answered or had none of them; the user's sets are gone, and everybody else's sessions and sets are as before. |
| Sessions.RevocationIsFinal | crates/yuuka-auth/src/session.rs:194-219 | After any run and a revocation, whatever happens short of a new session of that user, no token resolves to the user. |
| Sessions.GetOutcome | crates/yuuka-auth/src/session.rs:108-300 | A lookup told from the history alone, Redis coming and going: it answers the user exactly when the session was issued, no logout or revocation has reached its place since, lookups that reached it came within a time to live of each other, and its place, Redis or memory, can be reached now; else nobody, or an error if Redis is down. |
| Sessions.GetUnissued | crates/yuuka-auth/src/session.rs:134-167 | A token that was never issued resolves to nobody. |
| Sessions.LogoutForgets | crates/yuuka-auth/src/session.rs:170-191 | Logging out with Redis up removes the session from both stores and, if live, from its user's index; other sessions and entries stay. |
| Sessions.ExpiredIsRemoved | crates/yuuka-auth/src/session.rs:241-279 | A lookup that meets a session expired in memory removes it from both maps. |
| Sessions.CreateThenGet | crates/yuuka-auth/src/session.rs:108-167 | Looked up next, with Redis as it was at the issue, a session resolves until its time to live has passed. |
| Sessions.SessionStore.CreateSession | crates/yuuka-auth/src/session.rs:108-131 | The store's fields after the call are those of the function, with the fall back to memory. |
| Sessions.SessionStore.GetSession | crates/yuuka-auth/src/session.rs:134-167 | Likewise, with the sliding expiry, the rescue from memory, and nobody instead of an error in a store built without Redis. |
| Sessions.SessionStore.DestroySession | crates/yuuka-auth/src/session.rs:170-191 | Likewise for logging out. |
| Sessions.SessionStore.DestroyAllForUser | crates/yuuka-auth/src/session.rs:194-219 | Likewise for revoking a user. |
| Sessions.SessionStore.RemoveLocked | crates/yuuka-auth/src/session.rs:267-279 | A hash leaves both in-memory maps, an emptied set with it. |
| Sessions.SessionStore.MemGet | crates/yuuka-auth/src/session.rs:241-259 | An expired session is removed, a live one extended. |
| Crypto.HexRoundTrip | crates/yuuka-crypto/src/lib.rs:132-155 | Decoding the hex of bytes gives the bytes. |
| Crypto.HexDecodeIff | crates/yuuka-crypto/src/lib.rs:157-181 | Exactly the strings of pairs of hex digits of either case are read. |
| Crypto.HexIsLower | crates/yuuka-crypto/src/lib.rs:132-175 | Encoding what was read gives the string in lower case. |
| Crypto.DecryptUndoesEncrypt | crates/yuuka-crypto/src/lib.rs:132-181 | What was encrypted under a key decrypts under it to the same text, with the tag split off and joined again. |
| Crypto.DecryptedLengths | crates/yuuka-crypto/src/lib.rs:157-181 | Only a triple with a nonce of 24 and a tag of 32 hex digits decrypts. |
| Crypto.UserKeyOfSalt | crates/yuuka-crypto/src/lib.rs:112-127 | A user's key is derived from the secret and the bytes of the salt; under eight bytes there is none. |
| Crypto.EncryptedLengths | crates/yuuka-crypto/src/lib.rs:132-155 | Nonces are stored as 24 hex digits, tags as 32. |
| Crypto.NonEmptyStays | crates/yuuka-crypto/src/lib.rs:132-181 | A triple with a ciphertext has one again after being re-encrypted. |
| Crypto.SystemCrypto.UserKey | crates/yuuka-crypto/src/lib.rs:260-283 | Answers the key of the secret and the salt's bytes, cached or not, exactly when the salt is hex of at least eight bytes and derivation works, and remembers it for the salt; a failure is not remembered. |
| Crypto.SystemCrypto.EncryptForUser | crates/yuuka-crypto/src/lib.rs:285-296 | The result is the encryption under the user's key with the nonce that was drawn, and decrypts for the same user. |
| Crypto.SystemCrypto.DecryptForUser | crates/yuuka-crypto/src/lib.rs:298-308 | Decrypts with the key of the salt, cached or not. |
| Rotation.EncryptedColumnsOk | crates/yuuka-crypto/src/rotate.rs:28-81 | The registry's specs share no column with each other's triples, keys or owners; only the two of `users` share a table. |
| Rotation.Connection.ReadSalts | crates/yuuka-crypto/src/rotate.rs:111-124 | Fails exactly on a row whose user id is no text or whose salt is neither text nor NULL; else maps each user id with a salt to the last salt of its rows, and nobody else. |
| Rotation.SaltIsRead | crates/yuuka-crypto/src/rotate.rs:111-124 | With one row per user, each user with a salt is given that salt. |
| Rotation.Connection.Reencrypt | crates/yuuka-crypto/src/rotate.rs:173-194 | Works exactly when both keys derive, the triple decrypts and the text encrypts; the new triple decrypts under the new key to the old plaintext. |
| Rotation.Connection.RotateRow | crates/yuuka-crypto/src/rotate.rs:173-208 | One row: skipped or rotated, all other rows and columns unchanged, counted if eligible; it fails exactly when an eligible row cannot be re-encrypted or its UPDATE fails. |
| Rotation.Connection.RotateRows | crates/yuuka-crypto/src/rotate.rs:145-208 | All rows of one spec, failing exactly when one of them does. |
| Rotation.Connection.RotateSpecs | crates/yuuka-crypto/src/rotate.rs:126-209 | All specs, each eligible triple once although two specs share a table, failing exactly when a row does. |
| Rotation.Connection.RotateSecretKey | crates/yuuka-crypto/src/rotate.rs:90-214 | Succeeds exactly when both system keys derive, the salts can be read, each eligible triple can be re-encrypted and no statement fails. Then every stored triple has moved: it decrypts to its old plaintext under the new secret's system key, or under the key of the new secret and its owner's salt; rows without a triple or an owner's salt and all other cells are as before, and the number returned is that of the pairs of spec and eligible row. On any error, or with the same secret, the tables are as before. |
| Rotation.FinishedRotation | crates/yuuka-crypto/src/rotate.rs:90-214 | After a rotation every row has, for each spec, its old plaintext under the new key, or its old cells. |
| Rotation.FinishedMeansMoved | crates/yuuka-crypto/src/rotate.rs:90-214 | The same in terms of cells, derived keys and the salts in the users' rows. |
| Rotation.CountIsPairs | crates/yuuka-crypto/src/rotate.rs:126-209 | The count is the number of pairs of a spec and an eligible row. |
| Rotation.NullKeysStay | crates/yuuka-crypto/src/rotate.rs:162-172 | The UPDATE leaves a row whose key is NULL or differs in a column. |
| Rotation.ThereAndBack | crates/yuuka-crypto/src/rotate.rs:90-214 | Rotating to another secret and back leaves each readable triple readable with its plaintext. |
| Rotation.KeysStayUnique | crates/yuuka-crypto/src/rotate.rs:162-172 | Rotating never touches key columns, so the UPDATE keeps hitting one row. |
| Line.DrawLine | crates/yuuka-chart/src/render.rs:134-159 | The loop ends after `max(a, b)` moves, and the written pixels are those of the reference line with their right and lower neighbours. |
| Line.CoveredMeans | crates/yuuka-chart/src/render.rs:142-145 | What is drawn for a path is its pixels, the one right of each and the one below it. |
| Line.LineSpans | crates/yuuka-chart/src/render.rs:134-159 | Both endpoints are drawn, the far one last, and all pixels lie in the rectangle they span. |
| Line.LineIsClose | crates/yuuka-chart/src/render.rs:134-159 | No pixel is more than half a pixel off the ideal line: `2 * abs(a*j - b*i) <= max(a, b)`. |
| Line.LineIsConnected | crates/yuuka-chart/src/render.rs:134-159 | Consecutive pixels touch. |
| Line.RoundsArePixels | crates/yuuka-chart/src/render.rs:143-158 | The state of the loop after `k` rounds is the `k`-th pixel of the closed form. |
| Line.NoOverflow | crates/yuuka-chart/src/render.rs:135-158 | While the longer side is at most a third of the 32-bit range: what is computed before the loop fits, and every pixel, its right and lower neighbours and every error term fit if and only if no endpoint has the largest coordinate. |
| Line.Image.Blend | crates/yuuka-chart/src/render.rs:98-120 | Of the pixels inside the image exactly the given one is written; one outside is ignored. |
| DeviceAuth.StepKeepsInverse | crates/yuuka-auth/src/device_auth.rs:88-204 | Every operation with a new hash keeps the two maps inverse. |
| DeviceAuth.CreateKeepsInverseIffNew | crates/yuuka-auth/src/device_auth.rs:103-131 | Issuing keeps them inverse if and only if the hash is new. |
| DeviceAuth.RunKeepsInverse | crates/yuuka-auth/src/device_auth.rs:57-204 | With hashes that do not repeat the maps are inverse after every run. |
| DeviceAuth.ApproveOutcomes | crates/yuuka-auth/src/device_auth.rs:145-164 | Approving finds a live record of the code or answers `NotFound`; it never answers `Expired`. |
| DeviceAuth.PollOutcome | crates/yuuka-auth/src/device_auth.rs:168-204 | The answer to a poll told from the history alone: expired or used, too soon after the last answered poll, pending, or approved by whoever was granted the last approval. |
| DeviceHistory.CreateOutcome | crates/yuuka-auth/src/device_auth.rs:103-131 | Issuing told from the history: the first drawn user code that belongs to no live device code, and none only if all draws do. |
| DeviceHistory.ApproveOutcome | crates/yuuka-auth/src/device_auth.rs:145-164 | Approving told from the history: granted with the device's name exactly when the user code was issued and its device code is neither expired nor exchanged. |
| DeviceHistory.CodesInUseDiffer | crates/yuuka-auth/src/device_auth.rs:103-131 | No two live device codes have the same user code. |
| DeviceAuth.Lives | crates/yuuka-auth/src/device_auth.rs:88-204 | A record is stored exactly until it expires or is exchanged. |
| DeviceAuth.RecordTells | crates/yuuka-auth/src/device_auth.rs:145-204 | A stored record names the last approver and the time of the last answered poll. |
| DeviceAuth.ExchangeFollowsApproval | crates/yuuka-auth/src/device_auth.rs:168-204 | An exchange is preceded by the code's issue, within its time to live, and by an approval, and yields the latest approver. |
| DeviceAuth.ExchangedAtMostOnce | crates/yuuka-auth/src/device_auth.rs:194-199 | A device code is exchanged at most once. |
| DeviceAuth.NoSecondExchange | crates/yuuka-auth/src/device_auth.rs:194-199 | Every poll after the exchange is answered `Expired`. |
| DeviceAuth.FewPollsAreHeard | crates/yuuka-auth/src/device_auth.rs:179-187 | At most 120 polls of one code escape `slow_down` (section 3.5 of RFC 8628). |
| DeviceAuth.BoundIsMet | crates/yuuka-auth/src/device_auth.rs:179-187 | A run in which exactly 120 do. |
| DeviceAuth.DeviceAuthStore.SweepExpired | crates/yuuka-auth/src/device_auth.rs:88-100 | The loop removes exactly the expired records and their user codes. |
| DeviceAuth.DeviceAuthStore.IssueCode | crates/yuuka-auth/src/device_auth.rs:103-131 | The first unused user code is taken; without randomness nothing is issued. |
| DeviceAuth.DeviceAuthStore.ApproveCode | crates/yuuka-auth/src/device_auth.rs:145-164 | The fields after an approval. |
| DeviceAuth.DeviceAuthStore.PollToken | crates/yuuka-auth/src/device_auth.rs:168-204 | The fields after a poll. |
| ReadPool.NeverMoreThanSize | crates/yuuka-db/src/pool.rs:154-194 | In any interleaving of reads, with failed opens, panicking closures and reads cancelled before or after their closure runs, idle, borrowed and about to be opened connections are at most the size. |
| ReadPool.ConnectionsBounded | crates/yuuka-db/src/pool.rs:154-194 | With cancelled reads, at most the size plus the closures that still run for them. |
| ReadPool.DetachedCountExtra | crates/yuuka-db/src/pool.rs:154-194 | That bound is met: from every state there is a run to the size plus the detached closures. |
| ReadPool.KeepsToSizeIff | crates/yuuka-db/src/pool.rs:154-194 | From a state on, with no further closure cut off, there are never more connections than the size if and only if no closure of a cancelled read is still running. |
| ReadPool.CancelledReadKeepsConnection | crates/yuuka-db/src/pool.rs:183-190 | A run with one cancelled read that has two connections in a pool of one. |
| ReadPool.ConnectionsExclusive | crates/yuuka-db/src/pool.rs:173-193 | No connection is used by two reads, or by one while idle. |
| ReadPool.PermitsComeBack | crates/yuuka-db/src/pool.rs:166-171 | When no read holds a permit all are back, however the reads ended. |
| ReadPool.WaitsOnlyWhenFull | crates/yuuka-db/src/pool.rs:166-171 | A read waits only while as many others as the size hold a permit. |
| ReadPool.ConnectionsConserved | crates/yuuka-db/src/pool.rs:173-194 | In every interleaving each connection ever opened is idle, with a read, or closed, and it is closed only by a panic, by the end of a closure that was cut off, or by a cancellation while it is given back. |
| ReadPool.CancelledIsOver | crates/yuuka-db/src/pool.rs:161-194 | A cancelled read is over and its permit back; a running closure runs on with its connection. |
| ReadPool.StepKeepsCounted | crates/yuuka-db/src/pool.rs:154-194 | Every step keeps the count of permits and of connections. |
| ReadPool.StepKeepsExclusive | crates/yuuka-db/src/pool.rs:173-193 | Every step keeps connections in one place at a time. |
| ReadPool.SharedPool.PopIdle | crates/yuuka-db/src/pool.rs:173-177 | Takes the last idle connection, if there is one. |
| ReadPool.SharedPool.Read | crates/yuuka-db/src/pool.rs:161-194 | An undisturbed read leaves permits as they were and gives its connection back unless the open failed or the closure panicked. |
| Markdown.CleanMarkdown | crates/yuuka-browser/src/markdown.rs:197-228 | The loop computes the function of one pass, a join and a trim. |
| Markdown.CleanKeepsText | crates/yuuka-browser/src/markdown.rs:197-228 | The result has the same texts, fences and lines of code as the input, in the same order, with blank lines between two of them exactly where there were some; only code after an open last fence is touched, by the final trim. |
| Markdown.CleanTwiceIff | crates/yuuka-browser/src/markdown.rs:197-228 | Cleaning again changes nothing if and only if no line inside a fence of the text keeps a carriage return at its end with a line that is not blank after it. |
| Markdown.ResultKeepsCr | crates/yuuka-browser/src/markdown.rs:197-228 | That is when the result has no carriage return before a line feed. |
| Markdown.CleanTwice | crates/yuuka-browser/src/markdown.rs:197-228 | So cleaning is idempotent on every text without two carriage returns before a line feed, whatever its fences. |
| Markdown.CleanTwiceDiffers | crates/yuuka-browser/src/markdown.rs:209-211 | A text on which it is not. |
| Markdown.OutLinesAreLines | crates/yuuka-browser/src/markdown.rs:197-228 | The result is joined from lines without line feeds, and splitting it gives them back unless a fenced line keeps a carriage return. |
| Markdown.NoTwoBlankLines | crates/yuuka-browser/src/markdown.rs:213-224 | Of the lines the result is joined from, which hold no line feed and are its lines unless one keeps a carriage return, no two consecutive ones outside fences are blank. |
| Markdown.FencedVerbatim | crates/yuuka-browser/src/markdown.rs:203-212 | Of the same lines, those inside fences are the text's own verbatim up to the final trim, and entirely when the last fence is closed. |
| LikeEscape.EscapeLike | crates/yuuka-conversation/src/lib.rs:267-277 | The loop escapes backslash, percent and underscore. |
| LikeEscape.PatternFindsExactly | crates/yuuka-conversation/src/lib.rs:193-198 | LIKE with the pattern matches exactly the contents that contain the keyword, up to the case of ASCII letters. |
| LikeEscape.EscapedMatchesItself | crates/yuuka-conversation/src/lib.rs:267-277 | An escaped text as a pattern matches itself only. |
| LikeEscape.UnescapedFindsMore | crates/yuuka-conversation/src/lib.rs:193-198 | The keyword `_` unescaped would find every message that is not empty. |
| LikeEscape.QuotedIsOneString | crates/yuuka-conversation/src/lib.rs:175-178 | The full-text expression reads back as one string, the keyword, whatever quotes are in it. |
| LikeEscape.BindKeyword | crates/yuuka-conversation/src/lib.rs:153-213 | What is bound for a keyword: nothing, a pattern or an expression. |
| LikeEscape.SearchMeans | crates/yuuka-conversation/src/lib.rs:153-213 | One or two characters, after trimming, are searched by a pattern that finds exactly the contents with them, more by an expression that is one string; all is listed only without a keyword. |
| LikeEscape.FoldIff | crates/yuuka-conversation/src/lib.rs:193-198 | Characters count as equal when they are, or are the two cases of one ASCII letter. |
| Dedup.GrantedIff | crates/yuuka-discord/src/idempotent.rs:58-78 | A claim is granted exactly when every earlier grant of its key is at least the time to live ago: lazy sweeping gives the answers of the full history. |
| Dedup.GrantsApart | crates/yuuka-discord/src/idempotent.rs:51-78 | Two grants of one key are at least the time to live apart. |
| Dedup.MapIsHistory | crates/yuuka-discord/src/idempotent.rs:58-78 | What the map says of a key at a time is what the history says. |
| Dedup.MapIsSmall | crates/yuuka-discord/src/idempotent.rs:64-67 | Above 2001 entries the map holds only grants that have not run out, and the latest. |
| Dedup.MessageDedup.ClaimAt | crates/yuuka-discord/src/idempotent.rs:58-78 | The map after a claim, and its answer; on a poisoned mutex the claim is granted and nothing is recorded. |
| RateLimit.TwoWindows | crates/yuuka-auth/src/ratelimit.rs:55-100 | If no window has more than `cap` hits, no interval of fifteen minutes has more than `2*cap - 1`. |
| RateLimit.AtMostNineSends | crates/yuuka-auth/src/ratelimit.rs:78-101 | Any half-open interval of fifteen minutes has at most nine allowed sends of one key (so at most ten). |
| RateLimit.NineSendsHappen | crates/yuuka-auth/src/ratelimit.rs:78-101 | A run in which nine are allowed. |
| RateLimit.RefusedOnlyAtMax | crates/yuuka-auth/src/ratelimit.rs:78-101 | A send is refused only while its window has had five. |
| RateLimit.FailuresBounded | crates/yuuka-auth/src/ratelimit.rs:41-75 | With at most `c` logins of a key under way, at most `7 + 2c` failures in fifteen minutes between two clearings. |
| RateLimit.FailuresBoundMet | crates/yuuka-auth/src/ratelimit.rs:41-75 | For every `c` a run with at most `c` logins under way that has exactly `7 + 2c`; two logins at once already exceed nine. |
| RateLimit.SequentialFailuresBounded | crates/yuuka-auth/src/ratelimit.rs:41-75 | One login after the other: at most nine. |
| RateLimit.ConcurrentFailuresUnbounded | crates/yuuka-auth/src/ratelimit.rs:41-70 | Without a bound on concurrency, any number of failures. |
| RateLimit.CheckThenRecord | crates/yuuka-auth/src/ratelimit.rs:41-101 | Checking and recording with nothing in between is what a code send does. |
| RateLimit.RateLimiter.LoginLockedSecs | crates/yuuka-auth/src/ratelimit.rs:41-52 | Whether the key is locked, and the seconds left rounded up. |
| RateLimit.RateLimiter.RecordLoginFailure | crates/yuuka-auth/src/ratelimit.rs:55-70 | The record after a failure. |
| RateLimit.RateLimiter.AllowRegisterSend | crates/yuuka-auth/src/ratelimit.rs:78-101 | The answer and the record after a send. |
| Invites.UsedIsFinal | crates/yuuka-auth/src/invite.rs:33-89 | Whatever happens afterwards, a used code keeps its user and is not revoked, deleted or revived. |
| Invites.UsersHaveCodes | crates/yuuka-auth/src/routes.rs:373-466 | In every interleaving, users created by verify map injectively to codes, each used by its user. |
| Invites.UsedCodesAreSpent | crates/yuuka-auth/src/routes.rs:373-466 | Codes used since the start correspond one to one to the requests that consumed one: about to create, created, or failed to. |
| Invites.OneUserPerCode | crates/yuuka-auth/src/invite.rs:33-59 | Of all the requests with one code only one ever creates a user. |
| Invites.OnlyConsumeUses | crates/yuuka-auth/src/invite.rs:38-59 | No other operation makes a code used. |
| Invites.OneUnlistedAdmin | crates/yuuka-auth/src/users.rs:140-174 | Counting and inserting in one transaction makes one unlisted administrator and no more, whatever the interleaving. |
| Invites.InTable | crates/yuuka-auth/src/users.rs:140-174 | Who is in the user table, told from the history: those inserted, at the start or by a verify or a setup, and not deleted since. |
| InviteHistory.AccountIs | crates/yuuka-auth/src/users.rs:140-174 | The account of an id told from the history: what was inserted for it last, with the role given last, unless deleted since; the first user and the listed ones start as administrators. |
| InviteHistory.ListedStayAdmins | crates/yuuka-auth/src/users.rs:140-174 | In runs without role changes every listed user is an administrator, first or not. |
| InviteHistory.InviteIs | crates/yuuka-auth/src/invite.rs:33-89 | The row of a code told from the history of that code alone: created or seeded, withdrawn, deleted, or used by whom. |
| InviteHistory.VerifyGoesThroughIff | crates/yuuka-auth/src/routes.rs:418-451 | With any other requests in between, a verify request passes each step exactly when the id is not registered, then the code valid, then both keys free; at the end the user has an account and the code is used, and a code is burned exactly if only the last of these fails. |
| InviteHistory.VerifyAlone | crates/yuuka-auth/src/routes.rs:418-451 | On its own, with a valid code and free keys, it ends with the user registered and the code used by it, and nothing else changed. |
| InviteHistory.CheckTurnsAwayIff | crates/yuuka-auth/src/routes.rs:418-428 | In any run a check that works turns away exactly the ids that the history has registered, and consumes nothing. |
| InviteHistory.StopIsFinal | crates/yuuka-auth/src/routes.rs:373-466 | A request that stops registers nobody later, and a code it had taken stays taken. |
| InviteHistory.SetupBeginsIff | crates/yuuka-auth/src/routes.rs:163-178 | A setup is let in exactly when the history has nobody registered. |
| Invites.SetupAddsSecond | crates/yuuka-auth/src/routes.rs:163-230 | A setup that began without users and finishes after any run makes the one user, an administrator, if nobody has entered meanwhile; it makes a further user exactly when somebody has and both its keys are free, an administrator only if listed. |
| Invites.TwoSetups | crates/yuuka-auth/src/routes.rs:163-230 | Two setups at once that both create a user. |
| Invites.Tables.ValidateAndConsumeCode | crates/yuuka-auth/src/invite.rs:38-59 | Consumes exactly the codes that are there, unused and not revoked. |
| Invites.Tables.SeedInitialCodes | crates/yuuka-auth/src/invite.rs:66-89 | Inserts the trimmed, non-empty codes that are new and counts them. |
| Invites.Tables.CreateInviteCode | crates/yuuka-admin/src/repo.rs:420-434 | A new code is there afterwards, unused and by its creator; an existing code and all others are left alone. |
| Invites.Tables.RevokeInviteCode | crates/yuuka-admin/src/repo.rs:440-454 | Only a valid code is revoked; afterwards it is not valid. |
| Invites.Tables.DeleteInviteCode | crates/yuuka-admin/src/repo.rs:460-472 | Only an unused code is deleted; afterwards the code is there exactly if it was used. |
| Invites.Tables.CreateAccount | crates/yuuka-auth/src/users.rs:140-174 | Inserts exactly if id and username are free, as administrator exactly if first or listed. |
| Pending.CtEq | crates/yuuka-auth/src/pending.rs:148-158 | The loop of OR and XOR is true exactly on equal byte strings. |
| Pending.UniformBelowMillion | crates/yuuka-auth/src/pending.rs:134-146 | The first draw under the limit decides; there is none exactly if the generator fails first. |
| Pending.EveryCodeEquallyLikely | crates/yuuka-auth/src/pending.rs:134-146 | Each code is given by exactly 4294 of the accepted buffers. |
| Pending.CodesDiffer | crates/yuuka-auth/src/pending.rs:67-70 | Different numbers have different six-digit codes. |
| Pending.CodeIsNumber | crates/yuuka-auth/src/pending.rs:67-70 | A code is six digits whose decimal value is the number. |
| Pending.VerifyOutcome | crates/yuuka-auth/src/pending.rs:97-120 | The answer to a code told from the history alone: used up or swept, expired, too many wrong ones, right, or wrong. |
| Pending.VerifyUnknown | crates/yuuka-auth/src/pending.rs:97-101 | Without an entry ever made the answer is `NotFound`. |
| Pending.StoreTells | crates/yuuka-auth/src/pending.rs:76-120 | What the store holds for an id is what the history says, with the number of wrong codes so far. |
| Pending.AtMostFiveWrong | crates/yuuka-auth/src/pending.rs:106-119 | At most five wrong codes are compared with one entry. |
| Pending.OneSuccessPerEntry | crates/yuuka-auth/src/pending.rs:110-115 | Between two successes of one id a new entry was made. |
| Pending.PendingStore.CreatePending | crates/yuuka-auth/src/pending.rs:76-94 | Expired entries go and the new one replaces the id's, with no wrong codes yet. The code that is sent is the value of the first draw under the limit, modulo a million, in six decimal digits; there is none exactly if every draw is over the limit. |
| Pending.PendingStore.VerifyCode | crates/yuuka-auth/src/pending.rs:97-120 | The entries after a code, and the answer. |
| Components.RoundTrip | clients/desktop/src/model.rs:135-251 | Decoding an encoded component gives the component, at every depth, absent fields and unknown components included. |
| Components.RoundTripAll | clients/desktop/src/model.rs:135-139 | So does a row's list. |
| Components.EncodeInjective | clients/desktop/src/model.rs:206-251 | Different trees are encoded differently. |
| Components.OrderIrrelevant | clients/desktop/src/model.rs:163-204 | The order of members with different keys does not matter to decoding. |
| Components.UnknownMemberIgnored | clients/desktop/src/model.rs:163-204 | A member that is no field is ignored, whatever its value. |
| ComponentFields.DecodeObject | clients/desktop/src/model.rs:142-204 | An object decodes exactly when it has a `type`, no field twice and each field of the right kind. What it decodes to is told by the fields, with defaults for absent ones, and any number but 1 and 2 is an unknown component. |
| ComponentFields.DecodeArray | clients/desktop/src/model.rs:142-204 | An array decodes as the object with its items under the field names, in their order. |
| ComponentFields.EncodeFields | clients/desktop/src/model.rs:206-251 | What is written for each field: absent texts and a `disabled` that is false are left out. |

## Left out

- The engine, its prompts, tools and replies: a turn is when it hands over a row and when it ends.
- Row contents, attachments, the bot's id and the HTTP side of the endpoints: a row is its user, its role and its turn.
- The rate limit and the key check of a chat POST: a request may drop its guard there at any time.
- Poisoned mutexes other than the one-shot guard's: the code goes on with their contents.
- Tokens as 64-bit counters: they are unbounded.
- Cancelled sweeps: the sweep finishes or fails a pass before requests are served.
- Commands of one Redis operation that fail halfway or straddle an expiry: each session operation is one step at one time with Redis up or down throughout.
- Serialization of sessions and values in Redis that cannot be parsed.
- Inside of AES-GCM, scrypt, Argon2, bcrypt and SHA-256: parameters with the properties that `Crypto.Sound` lists.
- SQL typing in key columns of the rotation: key columns are compared as the values that were read.
- Line.Image.Blend: does not model colours, because the mix is floating point; it records that a pixel was written.
- Line.DrawLine: does not model 32-bit wrap-around; `Line.NoOverflow` says when there is none, for lines whose longer side is at most a third of the range.
- The trimming and upper-casing of user codes, and the formatting of device and user codes.
- Issuing the desktop token after an exchange: a failure there loses the code, as the source says.
- Fairness of the semaphore: any waiting read may be next.
- HTML traversal in front of the markdown normaliser.
- SQLite's matching of NUL characters and of invalid UTF-8 in LIKE, and the trigram index behind full-text search.
- Validation of registration input, sending the code, and storing the encrypted API key after the user was created.
- Invites.OneUnlistedAdmin: does not cover runs in which users are deleted or roles changed, because then an emptied system has a first user again.
- JSON text: components are decoded from parsed members, with repeated keys kept; which of several errors is reported is not modelled.
- Charts beyond the line, search ranking, settings, briefings, bots, credentials, todos and the web clients: statements and layouts settled by reading one branch.
