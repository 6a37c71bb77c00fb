# A model of the EH-2 messenger core

This project models the messenger's cryptographic protocols and the small algorithms
around them, and proves what they promise. Key material is symbolic: every derivation is
an injective constructor, a Diffie-Hellman output is the unordered pair of its two keys, a
sealed frame opens only under its own key, counter and header, and an ML-KEM
decapsulation under the wrong key gives an unrelated secret (section 7.3 of FIPS 203).
Randomness and the clock are parameters.

How the parts build on each other:

- `Keys`: the symbolic key material and chains of keys.
- `SkippedKeys`, `Ratchet`: one party's Double Ratchet with the hybrid ML-KEM step, as
  pure operations on a state and as the classes that update in place.
- `Conversation`, `Agreement`, `Runs`: two such parties and a network that loses, delays,
  repeats, reorders and injects. The shared history is a sequence of turns; every reachable
  state of both sides is tied to it. The roots agree as long as no frame held back from a
  closed chain is opened late while it carries a superseded encapsulation key;
  `Runs.TurnFollowedIff` gives the exact condition, and `LateKey` a run of honest parties that
  breaks it.
- `Parting`, `Views`, `Openings`: what is left after such a turn. Every state any run can
  reach is either sound or parted, so at most once, own text only, and the loss of a stale
  turn hold over all runs with no condition on them.
- `Delivery`, `Window`: exactly once, over all runs: first with the condition along the run
  (no jump over the bound, no expired key, no evicted chain), then with conditions read off
  the list of events and the turns as they were sealed.
- `Handshake`, `Attack`, `Establish`: the EH-2 handshake. The undisturbed exchange ends in
  the state from which every ratchet run stays in step; against an attacker with any set of
  corrupted private keys a completed side has exactly one partner, and it can come to know SK
  exactly when it holds an end of each Diffie-Hellman and of the KEM; the push-driven driver
  resolves its session exactly when the last check passed.
- `Secured`: the two composed. After an authenticated completion under attack, every run of
  the two ratchets under the same attacker keeps what a session promises.
- `Buffers`, `TsRatchet`, `Serial`: the TypeScript ratchet, where keys live in buffers that
  are zeroed in place and may be aliased, refines the ratchet on values, and its promise
  queue makes interleaved calls behave as if run in issue order.
- `Expiry`, `Cadence`: what time does to one side. A skipped key past its lifetime never opens
  its frame again, however the run goes on; and over all calls, when an encapsulation key is
  issued, how long it rides, and that a key noted is answered in the next own root step.
- `SenderKey`, `GroupSession`, `Group`, `GroupRuns`: sender-key chains, a session's stored
  chains, the group manager, and whole runs with dishonest members.
- `FileCrypto`, `Feedback`, `Crc32`, `Wire`, `Cid`, `Announce`, `Inbox`, `Marker`: chunked
  files, CRC-32 (the theory of the shift register is in `Feedback`), the canonical wire
  formats, base32 and CIDs, the announce replay gate, the inbox decoy schedule and rate
  caps, and the 128-byte group marker.

Methods are specified by the pure functions of the same module, and the properties are
proved about those functions, so they hold of the methods.

Some statements one would expect are false of the code, and the project proves exactly when
the code meets them:

- An honest turn is not always followed by its peer: after a superseded encapsulation key is
  opened late, the next turn answers the wrong key and is refused for good
  (`LateKey.LateKeyPartsTheRoots`, `Openings.StaleTurnIsLost`, `Runs.TurnFollowedIff`).
- The TypeScript ratchet does not wipe every key it drops. The buffers left unwiped that nothing
  needs are at all times exactly those that frames have left, and `TsRatchet.TsRatchet.Receive`
  says which these are, with what they hold. `TsRatchet.WhenKeysAreLeft` is the exact condition
  on the state and the header: a frame under an unknown ratchet key that fails after the
  current chain was closed (a ciphertext of the wrong length with a key owed there, or a
  counter over the bound), or a frame that opens and puts a key where the stash holds one.
  `TsRatchet.ForgedTurnLeavesKeys`, `TsRatchet.WrongLengthLeavesKeys` and
  `TsRatchet.ReusedKeyReplaces` are inputs; a peer that follows the protocol never causes the
  second case (`TsRatchet.HonestReplacesNothing`). A Diffie-Hellman that throws on a low-order
  peer key, which comes after the chain was closed as well, is not part of this model.
- `decryptBytes` does not refuse every manifest that does not fit: one that claims no chunks
  takes an empty ciphertext and hands out zeros. It is safe if and only if the manifest has
  at least one chunk (or a negative size), which the envelope decoder guarantees
  (`FileCrypto.NoChunksGiveZeros`, `FileCrypto.SafeExactly`, `FileCrypto.AcceptedIsSafe`).

- The check for a verifiable CID lets through texts that no content has: those whose filling
  bits are not zero (`Cid.MadeExactly`, `Cid.LooseExists`). Matching compares with a CID made
  anew and is not affected.

## Model

| member | source | states |
|---|---|---|
| Runs.RunAgrees | core-rs/src/ratchet.rs:210-330 | over every run of two parties from a state in step, with classical and hybrid steps mixed, both stay on one sequence of roots, the two roots at most one step apart |
| Agreement.RootsAgree | core-rs/src/ratchet.rs:210-330 | in every reachable state both roots are roots of the one shared sequence, equal or one step apart |
| Agreement.ChainsAgree | core-rs/src/ratchet.rs:278-330 | a receiving chain is the peer's sending chain at the receiver's own counter |
| Conversation.DeliverKeeps | core-rs/src/ratchet.rs:259-330 | whatever the network hands over, both sides stay tied to the shared turns |
| Conversation.OpensOnly | core-rs/src/ratchet.rs:114-121 | a message key of a root step from turn k's root opens exactly one frame: that frame of turn k, under its own header |
| Conversation.SendOnKeeps | core-rs/src/ratchet.rs:229-247 | sending on an open chain keeps the invariant and adds one text to the own turn |
| Conversation.SendTurnKeeps | core-rs/src/ratchet.rs:211-228 | a turn that answers the peer's outstanding key opens a chain the peer can follow, and keeps the invariant |
| Agreement.OpensIffReachable | core-rs/src/ratchet.rs:259-330 | a frame the peer sealed opens, to its own text, if and only if its key is stashed and no more than the lifetime old, or it is within the skip bound on the current chain or on the newest one |
| Agreement.ReplayRefused | core-rs/src/ratchet.rs:265-285 | a frame opened once is refused from then on |
| Delivery.NothingElseLost | core-rs/src/ratchet.rs:136-163 | over any run, sends and deliveries mixed, a counter that was walked past is opened or still held, unless at some delivery its key was expired or its whole chain evicted |
| Delivery.OpensExactlyOnce | core-rs/src/ratchet.rs:259-330 | over any run, a frame of a turn both sides follow that is handed over with no jump over the bound, key never expired and chain never evicted, is opened exactly once; one never handed over is never opened |
| Delivery.OpensAtFirst | core-rs/src/ratchet.rs:259-330 | and it opens at its first arrival, to its own text |
| Window.DeliveredExactlyOnce | core-rs/src/ratchet.rs:124-330 | from a completed handshake: if all a side is handed comes within one key lifetime, no genuine frame jumps over the bound and the store has room for the peer's turns, then in any order, with repeats and forgeries, each genuine frame opens exactly at its first arrival and nothing else opens |
| Window.NeverGone | core-rs/src/ratchet.rs:138-148 | a store with room for all of the peer's turns never evicts one of them |
| Views.OpensWhenReachable | core-rs/src/ratchet.rs:259-330 | the exact condition for a sealed frame to open, in every state any run can reach |
| Expiry.ExpiredNeverOpens | core-rs/src/ratchet.rs:259-330 | over any run: once a side holding a skipped key is handed a frame later than the lifetime after the key was stashed, the frame of that key opens neither then nor ever after |
| Expiry.NothingOldIsHeld | core-rs/src/ratchet.rs:158-162 | after any frame that decodes, whatever came of it, no key older than the lifetime is held |
| Agreement.DeliverKeepsPrompt | core-rs/src/ratchet.rs:250-256 | short of a late superseded key, every delivery leaves a side owing exactly the answer to the peer's current key |
| Openings.EachFrameOpensOnce | core-rs/src/ratchet.rs:259-330 | over any run at all, late superseded keys and stale turns included, no frame is opened twice by the same side |
| Openings.OpeningsAreHonest | core-rs/src/ratchet.rs:259-330 | over any run at all every opening is of a frame the peer sealed, to that frame's own text |
| Parting.StepStaysWhole | core-rs/src/ratchet.rs:210-330 | whatever is sent or delivered, the state is sound or parted by one stale turn, and a parted one stays so with no further turn |
| Runs.AllowedRunIsAnswered | core-rs/src/ratchet.rs:250-256 | without late superseded keys every turn of a run answers the peer's outstanding key |
| Runs.StartInStep | core-rs/src/ratchet.rs:189-204 | two matching handshake results start two ratchets in step |
| Runs.AnsweredRunAgrees | core-rs/src/ratchet.rs:210-330 | with any deliveries at all, late ones included, the roots stay on one sequence as long as each turn answers the peer's outstanding key |
| Parting.StaleTurnParts | core-rs/src/ratchet.rs:210-228 | a turn that does not answer the peer's outstanding key parts the conversation |
| Openings.StaleTurnIsLost | core-rs/src/ratchet.rs:210-330 | however a run goes on after such a turn, no frame of it ever opens, nobody turns again, and the two roots stay apart |
| Runs.TurnFollowedIff | core-rs/src/ratchet.rs:250-256 | the first frame of a turn opens at the peer if and only if the turn answers the peer's outstanding key |
| LateKey.LateKeyPartsTheRoots | core-rs/src/ratchet.rs:250-256 | a run of honest parties in which one frame of a closed chain, opened late, makes the next turn unreadable and the roots part |
| LateKey.HeldFrameOpens | core-rs/src/ratchet.rs:266-274 | in that run the held frame opens and replaces the answer owed to the newer key |
| Ratchet.RefusalChangesNothing | core-rs/src/ratchet.rs:259-330 | transactional: a frame that does not open leaves everything but expired stash entries as it was |
| Ratchet.StashGrowth | core-rs/src/ratchet.rs:124-163 | the store keeps at most max_chains chains; one opened frame adds at most max_skip keys, or twice that when the chain turns |
| Expiry.OverTheBoundExactly | core-rs/src/ratchet.rs:259-308 | exactly which frames are reported as a jump over the bound, and how far the jump was |
| Cadence.KeyComesDue | core-rs/src/ratchet.rs:211-236 | over all calls from the handshake on, counted from the calls: an own root step leaves an encapsulation key outstanding if and only if one was, or ML-KEM last entered the root `pq_every_steps` own steps or `pq_every_ms` ago; no other send issues one |
| Cadence.CountersTell | core-rs/src/ratchet.rs:210-330 | after any calls the three counters say how many own classical steps there were since ML-KEM last entered the root, when that was, and how often it did |
| Cadence.KeyIsAnnounced | core-rs/src/ratchet.rs:234-243 | the key outstanding rides in every frame sent, and stays outstanding until a turn of the peer's answers it |
| Cadence.NotedIsAnswered | core-rs/src/ratchet.rs:210-255 | a key of the peer's brought by an opened frame is answered in the next own root step, whatever happens in between short of another key: its secret goes into the root, and the frame carries its ciphertext |
| Cadence.AnswerRidesOn | core-rs/src/ratchet.rs:210-330 | the ciphertext rides on every further frame of that chain until a turn of the peer's is taken |
| Ratchet.Advance | core-rs/src/ratchet.rs:124-133 | refuses exactly a jump over the bound, otherwise gives the keys passed over and the chain key behind them |
| Ratchet.Ratchet.constructor | core-rs/src/ratchet.rs:189-204 | the state after a handshake: the initiator may send, the responder must step first |
| Ratchet.Ratchet.Send | core-rs/src/ratchet.rs:210-247 | state and frame are those of the pure `Encrypt`, whose runs are the ones proved about |
| Ratchet.Ratchet.StepRoot | core-rs/src/ratchet.rs:211-228 | the root step of a turn, with the owed secret if there is one and a new encapsulation key when it is time |
| Ratchet.Ratchet.NotePeer | core-rs/src/ratchet.rs:250-256 | only the last peer key is remembered, and each new one is answered once |
| Ratchet.Ratchet.Receive | core-rs/src/ratchet.rs:259-330 | state and outcome are those of the pure `Decrypt`, whose runs are the ones proved about |
| Ratchet.Ratchet.ReceiveSame | core-rs/src/ratchet.rs:278-292 | a frame on the current chain: spent, over the bound, shut, or opened with the passed keys stashed |
| Ratchet.Ratchet.ReceiveTurn | core-rs/src/ratchet.rs:294-330 | a turn of the peer is taken only when its frame opens |
| SkippedKeys.PutFind | core-rs/src/ratchet.rs:138-148 | after a put a lookup finds the new key, nothing of the evicted oldest chain, and everything else as before |
| SkippedKeys.PutKeysFind | core-rs/src/ratchet.rs:138-148 | a run of puts leaves its keys there and costs at most one older chain |
| SkippedKeys.DropFind | core-rs/src/ratchet.rs:152-157 | dropping takes exactly one key away |
| SkippedKeys.PruneFind | core-rs/src/ratchet.rs:158-162 | pruning takes exactly the expired keys away |
| SkippedKeys.KeptOrGone | core-rs/src/ratchet.rs:138-148 | a held key survives any run of puts unless its whole chain was evicted from a full store |
| SkippedKeys.Skipped.Put | core-rs/src/ratchet.rs:138-148 | the store after a put |
| SkippedKeys.Skipped.Peek | core-rs/src/ratchet.rs:149-151 | finds the key of a chain and counter without consuming it |
| SkippedKeys.Skipped.Drop | core-rs/src/ratchet.rs:152-157 | the store after a drop; an emptied chain goes with its last key |
| SkippedKeys.Skipped.Prune | core-rs/src/ratchet.rs:158-162 | the store after pruning; emptied chains go |
| Handshake.HonestCompletion | core-rs/src/handshake.rs:78-167 | an undisturbed exchange completes on both sides exactly when each clock is within the other's window, and then both hold the same first step and the same SK, of the three exchanges, the encapsulated secret and msg1, although they did different exchanges |
| Handshake.HonestSessionAgrees | core-rs/src/handshake.rs:78-167 | composition: from a completed exchange every run of the two ratchets stays in step |
| Attack.AnsweredContactBegan | core-rs/src/handshake.rs:117-130 | under a tag key the attacker lacks, a responder answers only a session that its contact has begun under that key, not a stranger's and not a second window of its own |
| Attack.InitiatorAuthenticates | core-rs/src/handshake.rs:91-107 | an initiator that completes towards an uncorrupted peer has exactly one partner, which hashed the same msg1, EK_r, ciphertext and timestamp and holds the same SK |
| Attack.ResponderAuthenticates | core-rs/src/handshake.rs:151-168 | a responder past the msg3 gate, its peer uncorrupted, has exactly one partner, and that one completed |
| Attack.PartnersMatch | core-rs/src/handshake.rs:91-168 | partners that both completed hold matching results, the ones the ratchets start in step from |
| Attack.ResponderSkExactly | core-rs/src/handshake.rs:134-148 | however a run goes on, the attacker can come to know what a responder derived if and only if it holds one end of each of the three exchanges and the initiator's ML-KEM key or the responder's own encapsulation randomness |
| Attack.InitiatorSkExactly | core-rs/src/handshake.rs:91-105 | the same of a completed initiator: its own ML-KEM key, or the randomness of the ciphertext it read under that key |
| Attack.KemAloneKeepsSk | core-rs/src/handshake.rs:59-65 | with every X25519 key corrupted SK stays unknown while the session's ML-KEM key and randomness do |
| Attack.SkNeedsAnEphemeral | core-rs/src/handshake.rs:59-65 | the attacker computes SK only with one of the two ephemeral keys; both identity keys and a broken KEM are not enough |
| Attack.RunKeeps | core-rs/src/handshake.rs:78-168 | what every run of any number of sessions under attack keeps |
| Secured.AuthenticatedSessionIsSafe | core-rs/src/handshake.rs:151-168 | a responder past the gate, its own ephemeral and its peer's identity key uncorrupted, has a completed partner, and in every ratchet run of the two, injected frames being sealed under what the attacker knows after going on for as long as it likes, frames open at most once and only to their own text, and short of late superseded keys the roots agree |
| Secured.HeldKeys | core-rs/src/handshake.rs:151-168 | over every attacked run the only session keys the attacker knows are those its corrupted private keys expose |
| Secured.AttackIsPossible | core-rs/src/ratchet.rs:114-121 | with the session key unknown to the attacker, whatever it injects is a frame some side sealed or one under no key of the session |
| Establish.ResponderGate | impl/eh2/establish.ts:171-195 | the responder's session resolves if and only if the first frame is a msg1 it answers and the second the msg3 that verifies, and it is the session of those two |
| Establish.InitiatorGate | impl/eh2/establish.ts:147-169 | the initiator's session resolves if and only if the first msg2 fed verifies; other frames do not matter |
| Establish.ResponderSettlesOnce | impl/eh2/establish.ts:171-195 | once resolved or rejected the session never changes, even though a later msg1 is answered |
| Establish.InitiatorSettlesOnce | impl/eh2/establish.ts:147-169 | the same for the initiator |
| Establish.EnginesMeet | impl/eh2/establish.ts:144-200 | two contacts' engines fed what the other hands back: msg2, msg3 and nothing, nothing settled before its check, and then both sessions resolved to matching results and both peers authenticated |
| Establish.AuthenticatedOnlyOver | impl/eh2/establish.ts:144-200 | a peer is called authenticated exactly at a msg3 (a msg2) whose MAC verifies |
| Establish.BadMsg3Wipes | core-rs/src/handshake.rs:160-166 | a msg3 that does not verify rejects an unsettled session and wipes SK and the first step |
| Establish.Responder.Take | impl/eh2/establish.ts:176-194 | one frame fed: the new state and what is answered or thrown |
| Establish.Initiator.Take | impl/eh2/establish.ts:154-167 | one frame fed: the new state and what is answered or thrown |
| TsRatchet.TsRatchet.constructor | impl/eh2/ratchet.ts:284-306 | the first root is the handshake's SK buffer; the first step consumes it, it is wiped, and nothing unneeded is left unwiped |
| TsRatchet.TsRatchet.Send | impl/eh2/ratchet.ts:308-356 | the same frame and state as on values for any clock; every live root, chain and stashed key untouched, and every buffer nothing needs any more wiped |
| TsRatchet.EnginesSendAlike | impl/eh2/ratchet.ts:334-335 | the two engines send alike unless no time at all is asked for between contributions and the clock has gone back |
| TsRatchet.TsRatchet.Receive | impl/eh2/ratchet.ts:412-499 | the same state and outcome as on values on every way out; no buffer is written but with zeros; the unwiped buffers nothing needs grow by exactly `left`, which holds exactly the keys `LeftBy` names: new buffers when the frame did not open, buffers the stash held when it did; they do not grow if and only if `LeftBy` is empty; on a frame that decodes every buffer of a key held longer than the lifetime is wiped |
| TsRatchet.WhenKeysAreLeft | impl/eh2/ratchet.ts:412-489 | a frame leaves a key unwiped if and only if it opens and one of its puts comes where a key is held, a closing put not having evicted it, or it does not open, comes under an unknown ratchet key, and its turn fails after closing the chain with a key owed there or the counter over the bound |
| TsRatchet.ForgedTurnLeavesKeys | impl/eh2/ratchet.ts:454-467 | an input: one key owed and a counter one over the bound, under a key never seen, leave the owed key, the link behind it and both step keys |
| TsRatchet.WrongLengthLeavesKeys | impl/eh2/ratchet.ts:454-459 | an input: a ciphertext of the wrong length with one key owed leaves that key and the link behind it |
| TsRatchet.ReusedKeyReplaces | impl/eh2/ratchet.ts:181-195 | an input: a peer that turns back to an old ratchet key has its frame opened, and the key still held for it there stays |
| TsRatchet.HonestReplacesNothing | impl/eh2/ratchet.ts:181-195 | in a conversation with an honest peer a frame that opens leaves no key unwiped |
| TsRatchet.TsRatchet.Advance | impl/eh2/ratchet.ts:363-376 | the walk writes only new buffers, wipes every link it passed, and does not wipe the buffer it started from, which may be the live chain |
| TsRatchet.TsRatchet.TrySame | impl/eh2/ratchet.ts:432-440 | a frame tried on the current chain: every live buffer as it was, and when it does not open all scratch wiped again |
| TsRatchet.TsRatchet.CommitSame | impl/eh2/ratchet.ts:443-446 | the passed keys are stashed, the message key, the old chain key and the last link are wiped, the next chain key moves in |
| TsRatchet.TsRatchet.SwapRoots | impl/eh2/ratchet.ts:485-487 | the old root, the old receiving chain and all that is spent are wiped, the new root and chain move in whole |
| TsRatchet.TsRatchet.SwapSend | impl/eh2/ratchet.ts:327-329 | the old root and sending chain are wiped, the new ones move in whole |
| TsRatchet.TsRatchet.TryTurn | impl/eh2/ratchet.ts:454-479 | the peer's step on the side: every live buffer as it was, all scratch wiped when the body does not open, and when the turn fails before that exactly the buffers in `left` stay, which hold the keys owed, the link walked to and, over the bound, both step keys |
| TsRatchet.TsRatchet.CommitTurn | impl/eh2/ratchet.ts:483-489 | the old root and chain and all scratch are wiped, none of it live or stashed; left are exactly the stashed keys that were replaced |
| TsRatchet.TsRatchet.StashPut | impl/eh2/ratchet.ts:181-195 | evicting a chain wipes that chain's keys and nothing else; a key put over another leaves that one unwiped |
| TsRatchet.TsRatchet.Prune | impl/eh2/ratchet.ts:210-217 | the keys dropped are exactly those held longer than the lifetime; each is wiped, and no other buffer is |
| TsRatchet.TsRatchet.SpendStashed | impl/eh2/ratchet.ts:424 | a stashed key that has opened its frame is wiped and gone |
| TsRatchet.TsRatchet.NotePeer | impl/eh2/ratchet.ts:404-410 | the peer's key answered once; a malformed one is reported and changes nothing |
| TsRatchet.TransactionalInPlace | impl/eh2/ratchet.ts:391-402 | a frame that does not open changes nothing but aged stash entries; a malformed peer key is reported exactly on a frame that opened, and nothing is owed for it |
| Buffers.DerefPrune | impl/eh2/ratchet.ts:210-217 | pruning a store of buffers and pruning the store of their keys are the same |
| Buffers.DerefPut | impl/eh2/ratchet.ts:181-195 | the same for a put |
| Buffers.DerefDrop | impl/eh2/ratchet.ts:202-208 | the same for a drop |
| Serial.QueueIsIssueOrder | impl/eh2/ratchet.ts:519-530 | however the sections of the issued calls would interleave, each settled call gave what it gives when all run one by one in issue order, and so is the final state |
| Serial.NeverWedged | impl/eh2/ratchet.ts:515-524 | while any call is unsettled exactly one may go on, so a failing call never blocks later ones |
| Serial.CallIsOperation | impl/eh2/ratchet.ts:308-499 | the sections of a call between its awaits, each reading and writing the state as it then is, come to the engine's whole operation when nothing runs in between, a malformed peer key reported included |
| Serial.ChainIsQueued | impl/eh2/ratchet.ts:519-524 | the promise chain, each run hanging on the tail it found and its guard becoming the tail, lets the calls do only what the queue allows |
| Serial.ReadyByChain | impl/eh2/ratchet.ts:519-524 | a call is ready in the queue if and only if the chain lets it go on, now or once the guard it hangs on is released, whether the call before it was fulfilled or rejected |
| Serial.ChainIsIssueOrder | impl/eh2/ratchet.ts:515-530 | through the promise chain, however calls settle, each settled call gave what it gives one by one in issue order, and while any is unsettled exactly one comes up |
| Serial.QueuedSealsDiffer | impl/eh2/ratchet.ts:501-524 | from a completed handshake, whatever is issued and arrives, no two sends through the promise chain seal under one message key |
| Serial.UnqueuedRepeatsKey | impl/eh2/ratchet.ts:501-509 | without the queue two sends issued together seal under one key and one counter |
| SenderKey.OpenRefines | core-rs/src/senderkey.rs:89-117 | the receiver answers as the simple model of a seed and a set of opened counters does, and stays on it |
| SenderKey.ForgedBurnsNothing | core-rs/src/senderkey.rs:89-117 | a forged or repeated packet moves nothing; only age takes a waiting key away |
| SenderKey.OpensOnce | core-rs/src/senderkey.rs:89-117 | whatever arrives, no counter opens twice |
| SenderKey.OpensExactlyFirsts | core-rs/src/senderkey.rs:89-117 | within the bound and the lifetime, delivery in any order with repeats and forgeries opens every genuine packet exactly at its first arrival |
| SenderKey.ExpiredNeverOpens | core-rs/src/senderkey.rs:82-117 | a waiting key whose lifetime is over at some arrival opens nothing, then or later |
| SenderKey.SealedIsGenuine | core-rs/src/senderkey.rs:55-63 | what the sender seals as number n of its chain is genuine at every receiver of that chain |
| SenderKey.FreshReceiverRefines | core-rs/src/senderkey.rs:76-79 | a new receiver of a chain key at any counter starts on the simple model |
| SenderKey.SnapshotRefines | core-rs/src/senderkey.rs:122-123 | a restored snapshot continues the same chain with the waiting keys given up |
| SenderKey.SendChain.SealNext | core-rs/src/senderkey.rs:55-63 | one packet sealed, the chain one step on |
| SenderKey.SenderReceiver.Prune | core-rs/src/senderkey.rs:82-87 | the stash without its aged keys |
| SenderKey.SenderReceiver.Receive | core-rs/src/senderkey.rs:89-117 | state and outcome are those of the pure `Open`, the one proved to refine the simple model |
| SenderKey.SenderReceiver.Snapshot | core-rs/src/senderkey.rs:122-123 | the live position, without the waiting keys |
| GroupSession.NeverBackOverall | impl/lib/group.ts:252-268 | through any mix of frames and stale or repeated sender keys, a stored chain never moves back |
| GroupSession.NeverTwice | impl/lib/group.ts:252-268 | a counter opened on a stored chain is never opened on it again |
| GroupSession.OpenedIsAddressed | impl/lib/group.ts:336-379 | what opens carries a MAC of this pair over exactly this header and body, from a member other than oneself |
| GroupSession.SaidInTurn | impl/lib/group.ts:315-334 | what a member says in turn: each frame under the group, the epoch and the next counter, sealed under its own key of the chain, with a MAC for every other member and nobody else |
| GroupSession.HeardAsSaid | impl/lib/group.ts:315-379 | a member at the sender's chain position opens what it says, to its own text, and stays at its position |
| GroupSession.HeardAllAsSaid | impl/lib/group.ts:315-379 | from such a position it opens everything said from then on, in order |
| GroupSession.HeardExactly | impl/lib/group.ts:336-379 | a frame is heard if and only if this pair's MAC is on it and it opens on the chain held for its sender; the key is asked for if and only if there is no such chain or the counter is over the bound |
| GroupSession.GroupSession.TakeSenderKey | impl/lib/group.ts:252-268 | a distributed key is taken unless it is one's own or behind the chain already held |
| GroupSession.GroupSession.Broadcast | impl/lib/group.ts:315-334 | the frame and the chain one step on |
| GroupSession.GroupSession.Take | impl/lib/group.ts:336-379 | the state and answer for any frame |
| Group.AllAppliedAdvances | impl/lib/group.ts:719-814 | whoever sends whatever, no epoch goes down, nothing but chains changes inside one, roster[0] stays, and the group key once held and the device entry are kept |
| Group.MovesOnlyUnderTheMac | impl/lib/group.ts:773-814 | roster and epoch move if and only if a MAC made for this member with the group's own key is handed over by roster[0] for a newer epoch; inside an epoch a chain is taken exactly from a roster member, and nothing else changes anything |
| Group.HandedOverIsTaken | impl/lib/group.ts:773-852 | what the holder of the group key, first on its roster, hands a member who is new or behind is accepted, and the member has its epoch, roster and secret, follows its chain at its own key and counter, and hears what it says next |
| Group.ChainHandedOver | impl/lib/group.ts:802-852 | inside an epoch any member's chain reaches any other, unless the other holds it further along, and the next frame opens |
| Group.EarlierStaysShut | impl/lib/group.ts:834-852 | one who joins or is rekeyed after something was said does not hear it |
| Group.RekeyStartsAnew | impl/lib/group.ts:719-828 | a change of roster is the next epoch with the new roster and secret, a fresh sending chain and nobody's chains; authority, group key and device entry stay |
| Group.RemovedHearsNothing | impl/lib/group.ts:816-828 | no session of an earlier epoch, whatever chains it holds, takes what is said after a change of roster |
| Group.RestoreUndoesSnapshot | impl/lib/group.ts:889-933 | restoring a snapshot into an empty manager gives back every group with its epoch, secret, roster, authority and chain positions |
| Group.GroupManager.TakeIn | impl/lib/group.ts:719-745 | a new group or a newer epoch gets a fresh session, anything else changes nothing; admin authority survives |
| Group.GroupManager.Apply | impl/lib/group.ts:773-814 | the state and outcome for any distribution, every refusal included |
| Group.GroupManager.ChangeRoster | impl/lib/group.ts:824-828 | a rekey is the next epoch with the new roster and secret |
| Group.GroupManager.Dissolve | impl/lib/group.ts:871-883 | an admin locks everybody out, then the record is gone |
| Group.GroupManager.Forget | impl/lib/group.ts:702-708 | the record is gone |
| Group.GroupManager.TakeSnapshot | impl/lib/group.ts:889-908 | one entry for every group, with every chain's live position |
| Group.GroupManager.Restore | impl/lib/group.ts:913-933 | the entries admitted one after another and their chains put back |
| GroupRuns.Agreement | impl/lib/group.ts:719-814 | in every run with arbitrary messages from dishonest members, honest members at one epoch of an honest admin's group hold the same roster and secret, the ones the admin made for it |
| GroupRuns.EpochsOnlyRise | impl/lib/group.ts:719-814 | over any run, while a member stays in the group, its epoch never goes down, roster[0], the group key and the device entry never change, and the authority of the group key, once held, stays |
| GroupRuns.EpochReachesMember | impl/lib/group.ts:773-852 | in every state a run reaches, the owner's present epoch, handed to a roster member who has not got it, is taken on delivery, with roster, secret and chain, and the owner's next frame opens |
| GroupRuns.CreatorStaysOwner | impl/lib/group.ts:719-745 | who creates a group holds its key in every later state until it leaves |
| GroupRuns.DeletedForGood | impl/lib/group.ts:871-883 | once its owner deletes a group there is one more epoch with nobody else on it and never another, and every other honest member stays at an older one |
| GroupRuns.Lockout | impl/lib/group.ts:816-852 | while an epoch's roster is honest, only its members ever hold the epoch's secret; a removed member learns none from the removing rekey on until an epoch lists it again |
| GroupRuns.OnlyMembersAreServed | impl/lib/group.ts:834-852 | whatever the roster, what honest members hand over of an epoch, its secret and their chain, goes to members of that epoch's roster only |
| GroupRuns.RunKeeps | impl/lib/group.ts:719-883 | what every run of creating, rekeying, deleting, leaving, speaking, handing over and delivering keeps |
| FileCrypto.RoundTrip | impl/lib/filecrypto.ts:128-159 | every file of every admitted size and chunk size comes back, and its ciphertext is 16 bytes a chunk longer |
| FileCrypto.RefusesOrExact | impl/lib/filecrypto.ts:145-159 | under the right key, for any manifest of at least one chunk and any bytes, either a refusal or exactly the original file |
| FileCrypto.AcceptsExactly | impl/lib/filecrypto.ts:128-159 | under the right key and a manifest of at least one chunk, decryption accepts exactly the ciphertext that was sealed, and only under the manifest made for it |
| FileCrypto.EncryptsExactly | impl/lib/filecrypto.ts:67-74 | a file is encrypted if and only if it has at most 128 MiB and its chunks between one byte and 16 MiB |
| FileCrypto.ClaimedSize | impl/lib/filecrypto.ts:145-159 | whoever sealed what, bytes handed out are as many as the manifest claims |
| FileCrypto.SafeExactly | impl/lib/filecrypto.ts:145-159 | a manifest can never yield another file if and only if it has at least one chunk or a negative size |
| FileCrypto.NoChunksGiveZeros | impl/lib/filecrypto.ts:145-159 | a manifest of no chunks takes the empty ciphertext and gives zeros |
| FileCrypto.AcceptedIsSafe | impl/lib/envelope.ts:291-298 | a manifest the envelope decoder accepts is the planned one, and safe |
| FileCrypto.PlanCuts | impl/lib/filecrypto.ts:67-74 | the planned count cuts the file into full chunks and one last piece, an empty file into one empty piece |
| FileCrypto.SealedLengths | impl/lib/filecrypto.ts:99-102 | the manifest's expected lengths are those of the sealed chunks |
| FileCrypto.Encrypt | impl/lib/filecrypto.ts:128-143 | the loop and the buffer filled by offset give the sealed chunks one after another |
| FileCrypto.Decrypt | impl/lib/filecrypto.ts:145-159 | the checks and the loop over the output buffer give the pure decryption, refusals in the same order |
| Crc32.Compute | impl/lib/gmarker.ts:102-106 | the table-driven loop gives the bit-serial reflected CRC-32 of every input (section 3.2.9 of IEEE 802.3) |
| Crc32.BuildTable | impl/lib/gmarker.ts:93-101 | each entry is eight bit steps of its own index |
| Crc32.TableStep | impl/lib/gmarker.ts:102-106 | eight bit steps of any word are a table look-up of its low byte and a shift of the rest |
| Crc32.CheckValue | impl/lib/gmarker.ts:93-106 | the CRC of the nine ASCII digits is 0xCBF43926, the value CRC-32 is known by |
| Crc32.BurstDetected | impl/lib/gmarker.ts:93-106 | two inputs of one length that differ only inside one four-byte window have different CRCs |
| Crc32.RegisterLaws | impl/lib/gmarker.ts:97 | a bit step is linear, loses nothing, and only moves a word down while zero bits leave |
| Feedback.BurstSeen | impl/lib/gmarker.ts:93-106 | the same for any linear register: differences inside one four-word window never cancel |
| Feedback.EnterByte | impl/lib/gmarker.ts:95-99 | entering the bits of a byte one by one is adding the byte and stepping |
| Wire.HandshakeFramesCanonical | core-rs/src/wire.rs:31-73 | msg1 and msg2: a frame decodes to a message if and only if it is the encoding of that message |
| Wire.LongCanonical | core-rs/src/wire.rs:41-73 | whatever is accepted is the one encoding of what it decodes to |
| Wire.LongRoundTrip | core-rs/src/wire.rs:31-73 | decoding undoes encoding exactly when the KEM field has its one length |
| Wire.Msg3Canonical | core-rs/src/wire.rs:75-85 | the same for msg3 |
| Wire.LongLayout | core-rs/src/wire.rs:31-62 | msg1 and msg2 byte by byte: 1260 and 1164 bytes, each field at its offset |
| Wire.Msg3Layout | core-rs/src/wire.rs:75-85 | msg3 byte by byte: 34 bytes |
| Wire.AppendLong | core-rs/src/wire.rs:31-62 | the encoder's appends give the frame |
| Wire.TsDecode | impl/eh2/wire.ts:150-199 | the walking offset decoder accepts exactly the frames of the Rust decoder with a timestamp of at most 2^53 - 1 |
| Wire.EnginesAgree | impl/eh2/wire.ts:91-199 | what TypeScript sends Rust reads; what Rust sends TypeScript reads unless the timestamp is over 2^53 - 1 |
| Wire.HeaderCanonical | core-rs/src/ratchet.rs:66-102 | a ratchet frame has header h taking len bytes if and only if h is well-formed, the frame begins with h's encoding, and a tag still fits behind it |
| Wire.HeaderLayout | core-rs/src/ratchet.rs:66-80 | a data header byte by byte: type, version, key, counters, flags |
| Wire.FieldsLayout | core-rs/src/ratchet.rs:66-80 | both optional fields behind their lengths, the ciphertext first |
| Wire.ReadHeader | core-rs/src/ratchet.rs:81-102 | the loop over the two flags gives the decoded header and its length |
| Cid.Encode | impl/lib/cid.ts:35-44 | the loop with an unmasked 32-bit accumulator writes unpadded base32 (section 6 of RFC 4648) of every input |
| Cid.ByteIn | impl/lib/cid.ts:38 | shifting a byte into the overflowing word keeps the bits not yet written |
| Cid.LengthOfBase32 | impl/lib/cid.ts:35-44 | the text has ceil(8n/5) characters |
| Cid.Base32Injective | impl/lib/cid.ts:35-44 | at each length, two inputs have the same text if and only if they are the same |
| Cid.MadeIsVerifiable | impl/lib/cid.ts:53-63 | every CID made here passes the check for one that can be verified |
| Cid.MatchesExactly | impl/lib/cid.ts:53-75 | a made CID matches content exactly when the digests are the same |
| Cid.MadeExactly | impl/lib/cid.ts:53-63 | a text is the CID of some digest if and only if the check lets it through and its filling bits are zero |
| Cid.LooseExists | impl/lib/cid.ts:62-63 | a text the check lets through that no digest makes |
| Announce.NeverTwice | impl/lib/announce.ts:28-67 | with a clock that does not go back, no announce is accepted twice, although the cache forgets |
| Announce.TakenExactly | impl/lib/announce.ts:28-67 | in every run an arrival is taken if and only if it is version 3 under the pair's own MAC over exactly its four fields, its timestamp is within five minutes of the clock, and its nonce is not remembered |
| Announce.BuiltIsTaken | impl/lib/announce.ts:20-43 | what a holder of the key publishes is taken at its first arrival within five minutes, for the peer it names, whatever forgeries came before, under its nonce too |
| Announce.WindowExactly | impl/lib/announce.ts:52-67 | a cache window is enough if and only if it is at least twice the replay window |
| Announce.SmallerWindowRepeats | impl/lib/announce.ts:52-67 | for every smaller window a run that accepts one announce twice |
| Announce.BoundedAfterAccept | impl/lib/announce.ts:56-64 | after an acceptance the cache holds at most 256 nonces or only young ones |
| Announce.NonceCache.Insert | impl/lib/announce.ts:56-64 | a nonce set, and the sweep up to the first entry still young |
| Announce.NonceCache.Admit | impl/lib/announce.ts:28-67 | the gate as its callers run it: true exactly for an attested, timely announce whose nonce is not remembered, and the cache as the run's |
| Inbox.DecoysKeepComing | impl/lib/inbox.ts:222-299 | at every tick of every run with ticks at most `apart` apart, for any per-slot hash, the newest decoy is at most 2D + apart - 2 old, and before the first one the run is at most D + apart - 2 old |
| Inbox.BoundIsMet | impl/lib/inbox.ts:222-299 | that bound cannot be lowered: for every slot length and tick distance a run meets it |
| Inbox.NeverEvicted | impl/lib/inbox.ts:79 | at the default slot and tick the topic is at every tick idle for less than the relay's 120 s |
| Inbox.Schedule.PlanNext | impl/lib/inbox.ts:256-261 | a slot's instant lies inside it |
| Inbox.Schedule.Step | impl/lib/inbox.ts:288-298 | one tick: an overdue slot is paid, then the new one if its instant has come |
| Inbox.CapHolds | impl/lib/inbox.ts:196-217 | no minute ever sees more frames pass a sliding-window cap than its limit |
| Inbox.TurnedAwayOnlyWhenFull | impl/lib/inbox.ts:196-217 | a frame is turned away if and only if the limit passed within the last minute |
| Marker.MarkerRoundTrip | impl/lib/gmarker.ts:147-234 | whatever the name and members, the record is at most 128 UTF-8 bytes and reads back to the two hints, the longest whole-character prefix of the sanitised name that fits, and all member hints with their CRC or none |
| Marker.MarkerSays | impl/lib/gmarker.ts:147-234 | what a reader gets, in terms of its own: at most 128 bytes of UTF-8; four bytes of the owner's and admin's ids; no longer showing of the name, separators blanked and 16 characters at most, would have fitted; four bytes of every member's id and the CRC of all ids exactly when one to ten members all have one |
| Marker.WhenBuilt | impl/lib/gmarker.ts:157-187 | a record is written if and only if both the owner and the admin can be hinted at |
| Marker.B64UrlByTheBook | impl/lib/descr.ts:129-131 | the text is base64url (section 5 of RFC 4648) without padding: the letters of three bytes spell the same number |
| Marker.ByteLenIsUtf8 | impl/lib/descr.ts:61-63 | the length a budget counts is that of the UTF-8 encoding (section 3 of RFC 3629) |
| Marker.NeverDropped | impl/lib/gmarker.ts:192-200 | the branch that drops the roster is never reached; the roster is in exactly when all members can be named and there are one to ten |
| Marker.ShortNameSurvives | impl/lib/gmarker.ts:189-200 | a sanitised name of at most 41 bytes survives whole beside any roster |
| Marker.SliceIsLongest | impl/lib/descr.ts:65-73 | the cut is the longest prefix of whole characters within the budget |
| Marker.SliceLoop | impl/lib/descr.ts:65-73 | the loop gives that cut |
| Marker.B64UrlBack | impl/lib/descr.ts:129-135 | base64url reads back to the same bytes |
| Marker.B64UrlPlain | impl/lib/descr.ts:129-131 | base64url is ASCII, contains no separator, and is four characters for three bytes |

## Left out

- Real cryptography (X25519, ML-KEM, AES-GCM, HKDF of RFC 5869, SHA-256, Ed25519 bytes): symbolic, and collision-free. Low-order X25519 points are not modelled.
- Random draws and clock readings are parameters; runs assume fresh draws for new ratchet, KEM and group secrets.
- Counters are unbounded: overflow at 2^32 is not modelled.
- The stores hold at least one chain; the Rust store fails on a bound of zero.
- Runs.RunAgrees: assumes no superseded encapsulation key is opened late, because the code remembers only the last peer key; Runs.AnsweredRunAgrees and Runs.TurnFollowedIff give the exact condition, and Openings and Delivery need none.
- Delivery.OpensExactlyOnce: for turns both sides follow; no frame of a stale turn ever opens.
- TsRatchet: buffers are addresses in an explicit memory; the buffers of ML-KEM secrets and DH outputs are values, only SK, roots, chains and message keys are placed.
- Secured.AuthenticatedSessionIsSafe: the ratchet's own ephemeral keys stay out of the attacker's hands.
- TsRatchet.WhenKeysAreLeft: a Diffie-Hellman that throws on a low-order peer key leaves the closed chain's keys too; low-order points are not modelled.
- Serial: a call is any number of sections over the shared state; the ratchet's own calls are cut where they write the state, awaits with no write between them taken together, and a decryption commits what it computed from the state its first section saw.
- Handshake: the in-place wiping of temporaries in `handshake.ts` and of a responder's SK after a failed msg3 is not modelled.
- Attack.KemAloneKeepsSk: of the handshake's SK; a ratchet state handed to the attacker, and the healing after it, are not modelled.
- Establish: each feed runs to completion before the next; the choice of engine is left out.
- Establish.ResponderSettlesOnce: the responder goes on to answer a msg1 after it has completed, as the code does; only the session is final.
- GroupSession: the hold queue, its timers, and the throwaway receivers that open held frames, which can open one held copy more than once.
- GroupSession.NeverTwice: claims at most once for stored chains only.
- Group: a session inside a group record is a value; the manager replaces it instead of sharing an object.
- Group.RestoreUndoesSnapshot: into an empty manager, and for a reference to a device-held group key that can be brought back.
- GroupRuns.Lockout: `rekey` does not check that its caller is the admin or stays first on the roster; runs let only the holder of the group key rekey, itself first.
- GroupRuns: groups whose admin is dishonest are present in runs but nothing is claimed about their rosters.
- FileCrypto: one file per key; streaming, progress callbacks and non-integer sizes are left out.
- FileCrypto.RefusesOrExact: for manifests of at least one chunk, because without one the code does not refuse.
- Cid: content enters by its SHA-256 digest.
- Announce: the MAC covers the fields rather than their text, which is the same for peers and nonces without a bar; verifying and adding read one clock value.
- Inbox: topics, their rotation, publishing, and the duplicate filter; the schedule assumes the topic is there, and times are whole milliseconds.
- Inbox.DecoysKeepComing: for ticks at most a slot apart.
- Marker: resolving hints against a contact list, padding and white space in base64 input, lone surrogates.
- Peer and own descriptions (`buildPeerDescr`, `buildSelfDescr`) and key labels: easy members of the same kind as the marker.
- Foreign-function and engine bridges, transport, relay, device calls, dialling, presence, sealed stores, outbox, terminal and text tools.
