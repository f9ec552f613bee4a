# Verified model of the kerchunk modules

This project models the stateful parts of the kerchunk repeater controller and proves what they promise: the
one-time-password login, the reflector link receiver, the repeater and Morse-identifier machines alone and together,
the telephone bridge, the push sender, the UTF-8 line editor and the JSON escaping. `dafny verify dfyconfig.toml`
checks everything.

Code that updates globals or buffers is a class or an array method here, and each such method is proved equal to a
step of a specification function; the theorems are about those functions, over all inputs and all runs. Standards
(FIPS 180-4, RFC 2104, RFC 4648, RFC 4226, RFC 3629, RFC 8259) have modules of their own, written from the standard
and not from the code. Every lemma switches automatic induction off; inductions are written out.

| file | what it models |
|---|---|
| `Sha1.dfy`, `Hmac.dfy`, `Base32.dfy`, `Totp.dfy` | the cryptographic half of `modules/mod_otp.c` against its standards |
| `OtpPolicy.dfy`, `LoginOutcomes.dfy`, `Otp.dfy` | lockout, replay guard and elevated sessions, as maps, as the code's tables, and over runs of real logins |
| `JitterBuffer.dfy`, `Delivery.dfy`, `LinkKeying.dfy`, `LossCounter.dfy`, `SampleRing.dfy` | the receiving side, what it delivers and when it keys the transmitter over whole runs, the loss estimate and the two-thread sample ring of `modules/mod_link.c` |
| `Repeater.dfy`, `RepeaterExits.dfy`, `RepeaterTimers.dfy`, `CwId.dfy`, `CwIdLaws.dfy`, `Station.dfy` | `modules/mod_repeater.c`, its ways from state to state and when its waits are timed, `modules/mod_cwid.c`, and both running with the link |
| `Utf8.dfy`, `LineSpec.dfy`, `KeyLaws.dfy`, `LineEditor.dfy` | the editing half of `cli/linenoise.c` |
| `EslBreaker.dfy`, `CallBridge.dfy`, `CallCourse.dfy`, `PhoneAudio.dfy` | reconnects, call machine and the course of a call, phone audio ring and voice keying of `modules/mod_freeswitch.c` |
| `PushSpec.dfy`, `PushSender.dfy` | `modules/mod_poc_apns.c`, interleaved and as code |
| `Json.dfy` | the escapers of `modules/mod_ai.c` and `modules/mod_nws.c` and the string scan of the latter |
| `Common.dfy`, `Arith.dfy`, `Bytes.dfy`, `Timers.dfy` | options and ring slots, arithmetic, byte strings, and the timer service of `src/kerchunk_timer.c` |

## Assumptions

- Timers are explicit: `Timers.Create` refuses a delay that is not positive, as `src/kerchunk_timer.c:49-66` does, and
  otherwise finds a free slot; a timer fires only while live. Events are synchronous calls. Clocks do not run back
  where a theorem needs it. Configuration is fixed during a run, within the ranges the modules clamp to;
  besides, theorems about the identifier take its interval to be positive, which its module does not enforce
  (`Station.IdentifierTimedIff`).
- Results of I/O are inputs: clock readings, decoder sample counts, HTTP status codes, whether a socket opens, whether
  an inner HMAC buffer can be had (assumed so for one-time passwords), whether a frame is over the voice threshold.
- Byte strings given to C functions are their bytes before the NUL.

## Findings

Promises that the code or its comments make and that do not hold as stated, each with the exact condition proved.

- The sample ring computes its depth with 32-bit unsigned subtraction and 96000 does not divide 2^32, so the depth is
  right exactly while the write index is not behind the read index (`SampleRing.CodeDepthIsTrueIffOrdered`). The ring is
  a FIFO throughout a run exactly when each read finds the indices in order or a whole frame there, and each tap finds
  them in order or room (`SampleRing.CodeRefinesFifoIff`). One late read delivers 21,120 samples twice
  (`SampleRing.LateReadReplays`).
- The link's playout can run ahead of real time when the configured jitter target is below one frame,
  zero and negative ones included (`JitterSpec.PacingIffDelayIsAFrame`).
- 65535 and 0 share a jitter slot (`Delivery.SlotsCollideOnlyAtTheWrap`), so a packet stored in time can be lost at the
  wrap (`Delivery.WrapPushesOut`); a stream crosses it whole exactly when of the two the one due is the one stored last
  (`Delivery.StreamIsDeliveredIffPrompt`).
- A packet exactly 200 behind is neither late nor a jump; it is stored over the frame due next or, when the cursor is
  below 200, after next (`Delivery.TwoHundredBehindSilences`). Packets from behind leave what waits alone exactly when
  fewer than 200 behind (`Delivery.BehindKeepsPendingIff`).
- The loss counter credits packets of an earlier window to this one
  (`LossSpec.StaleArrivalExactIffNothingMissing`, `LossSpec.StaleArrivalHidesALoss`).
- Lockout and replay protection need a slot in a table of 32 (`OtpPolicy.WithoutSlotNeverLocked`,
  `OtpPolicy.ReplayableIffNoSlot`); runs that fill it are `OtpPolicy.FullTableLetsGuessesThrough` and
  `OtpPolicy.FullTableLetsReplaysThrough`. A success with all 64 sessions taken elevates nobody
  (`Otp.Handler.Settle`, `OtpRuns.OnlySixtyFourAreElevated`).
- CALLER_CLEARED is ignored while the link bridges (`RepeaterSpec.ClearIsHonouredIffIdle`,
  `RepeaterSpec.BridgedClearIsIgnored`), so "no CALLER_CLEARED in between" is proved for clears that arrive in idle.
- With a tail or hang time of zero no timer can be created, and the repeater waits until somebody keys up
  (`RepeaterSpec.TailTimedIffPositive`, `RepeaterTimers.HangTimedIff`, `RepeaterTimers.UntimedWaitNeedsRekey`).
- A rekey out of the tail does not arm the time-out (`RepeaterTimers.RekeyedRunIsUntimed`); when it is live is
  `RepeaterTimers.ReceivingIsTimedIff`. Unloading during a time-out keeps the transmitter requested
  (`RepeaterSpec.UnloadReleasesIff`, `RepeaterSpec.UnloadInTimeoutKeepsPtt`).
- With an identification interval that is not positive the identifier has no timer (`Station.IdentifierTimedIff`).
- One loud frame arms the voice hold, so a later quiet frame can key the transmitter. `PhoneVox.KeysOnlyOnSpeechIff`
  gives the condition on the configured hold, which the module never lets fall to one frame (it clamps it to 100 ms and
  more); `PhoneVox.KeyingTickConfirmsIffLoud` gives it tick by tick.
- With a radio user keyed up the telephone's voice detector is not asked, and a phone that holds the transmitter goes on
  holding it (`CallCourse.HeldIff`, `CallCourse.TalkedOverStaysHeld`).
- A dead token is evicted only when the first attempt says so; the same answer after a retry leaves it in the store
  (`PushSpec.EvictingMeansDead`, `PushSpec.DeadOnRetryStays`).
- An overlong string is not always cut to a prefix (`NwsJson.LongPieceLeavesAHole`); when it is,
  `NwsJson.TruncatesCleanlyIff` says.
- The JSON scan reads `\b` and `\f` as letters and copies `\uXXXX` as it is written (`NwsJson.ScanReadsStandardIff`).
- Left does not always take back Right: a flag whose second half follows a joined character is left over
  (`LineSpec.LeftUndoesRightIff`, `LineSpec.LeftStopsShort`).
- A typed cluster can be larger than the 32 bytes Ctrl-T copies it through (`LineSpec.TypedClustersOutgrow`).

## Model

| member | source | states |
|---|---|---|
| `Sha1Standard.PadShape` | modules/mod_otp.c:168-181 | section 5.1.1 of FIPS 180-4, which the code's two tail cases follow: the message, 0x80, fewer than 64 zero bytes and the bit count in eight big-endian bytes |
| `Sha1.RotlIsRotation` | modules/mod_otp.c:137 | the shift-and-or macro is a 32-bit rotation, for every word and every amount the hash uses |
| `Sha1.ChOrIsCh` | modules/mod_otp.c:151 | the OR form of the choice function equals the standard's XOR form on all words |
| `Sha1.MajOrIsMaj` | modules/mod_otp.c:153 | the OR form of the majority function equals the standard's three-term XOR form on all words |
| `Sha1.Expand` | modules/mod_otp.c:141-146 | fills `w` with the standard's 80-word message schedule of the block |
| `Sha1.Churn` | modules/mod_otp.c:148-157 | the in-place loop over five variables computes the standard's eighty rounds |
| `Sha1.Transform` | modules/mod_otp.c:139-159 | replaces the state by the section 6.1.2 compression of it with the block |
| `Sha1.RestBlocks` | modules/mod_otp.c:168-181 | what is left of a message takes one more block when it leaves room for the length and two when it does not, and those are the blocks the standard's padding gives |
| `Sha1.Finish` | modules/mod_otp.c:168-181 | both tail cases absorb exactly the remaining blocks of the padded message |
| `Sha1.Sha1` | modules/mod_otp.c:161-189 | the digest of every byte string is the FIPS 180-4 SHA-1 of it |
| `Hmac.HmacSha1` | modules/mod_otp.c:193-220 | for every key length the result is the HMAC of section 2 of RFC 2104; twenty zero bytes when the inner buffer cannot be had |
| `Base32Standard.GroupsAreFiveBits` | modules/mod_otp.c:224-235 | the letters of an RFC 4648 section 6 encoding, read as 5-bit values, are the bits of the input followed by fewer than five zero bits |
| `Base32.IndexOfIsStrchr` | modules/mod_otp.c:228-234 | the search finds position v for a character exactly when the alphabet has that character at v |
| `Base32.RoundTrip` | modules/mod_otp.c:224-244 | decoding the standard encoding of any byte string gives the byte string back |
| `Base32.CaseIsIgnored` | modules/mod_otp.c:230-234 | upper-casing a key changes nothing of what it decodes to |
| `Base32.StrayCharactersAreIgnored` | modules/mod_otp.c:230-234 | inserting a character outside the alphabet, other than the end marks, anywhere in a key changes nothing |
| `Base32.SmallLetters` | modules/mod_otp.c:230-234 | a small letter stands for the value of its capital |
| `Base32.NothingAfterTheEnd` | modules/mod_otp.c:227-230 | what follows an equals sign or a NUL is not decoded, and no other character ends a key |
| `Base32.ShiftKeepsAgreement` | modules/mod_otp.c:227-236 | the 32-bit accumulator that overflows and the unbounded one keep agreeing on the low 12 bits |
| `Base32.OnlyLowBitsAreRead` | modules/mod_otp.c:239 | the byte written out is the same for any two accumulators that agree on the low 12 bits, so overflow is harmless |
| `Base32.Decode` | modules/mod_otp.c:224-244 | writes exactly the decoded bytes, or as many as fit, and touches nothing beyond them |
| `Totp.MaskedWordIsTruncated` | modules/mod_otp.c:261-265 | masking the first byte and assembling four big-endian is the dynamic truncation of section 5.3 of RFC 4226 |
| `Totp.CounterBytes` | modules/mod_otp.c:251-256 | the eight counter bytes are the big-endian counter |
| `Totp.Generate` | modules/mod_otp.c:248-270 | the code is the HOTP of the number of whole time steps |
| `Totp.VerifyAt` | modules/mod_otp.c:272-290 | returns the counter of the first time step of the scan whose code is the number the digits stand for, or none, an empty key included |
| `Totp.DecimalReadsDigits` | modules/mod_otp.c:279 | reading a number written out in decimal, leading zeros and all, gives the number |
| `Totp.DigitsOfDecimal` | modules/mod_otp.c:279 | a string of digits is the one writing, at its length, of the number it is read as |
| `Totp.FirstMatchIsLeast` | modules/mod_otp.c:281-288 | the scan reports a counter of the window exactly when one matches, and then the least |
| `Totp.VerdictIsLeastMatch` | modules/mod_otp.c:272-290 | a code verifies exactly when some counter within the skew of now produces it; the counter reported is the smallest such |
| `Totp.VerifiesWhatIsWritten` | modules/mod_otp.c:272-290 | six digits verify exactly when they are the RFC 4226 code, written out, of a counter within the skew of now; the least such counter is reported |
| `UserTables.UserTable.Find` | modules/mod_otp.c:432-445 | finds the slot of a user or reports that the table has none |
| `UserTables.UserTable.FindOrFree` | modules/mod_otp.c:503-507 | fails exactly when the user is unknown and all 32 slots are used; otherwise gives the user's own slot or the first free one |
| `UserTables.UserTable.FindRemembering` | modules/mod_otp.c:453-464 | the same with the remembered free slot, and it never mistakes a free slot for the user's |
| `UserTables.UserTable.Put` | modules/mod_otp.c:478-482 | updates one user's record in the table seen as a map |
| `Otp.Handler.CheckLockout` | modules/mod_otp.c:429-446 | refuses exactly the locked-out caller and otherwise forgets failures whose 300 seconds have passed |
| `Otp.Handler.RecordFailure` | modules/mod_otp.c:501-513 | counts one more failure for the caller if a slot is to be had |
| `Otp.Handler.ClearFailures` | modules/mod_otp.c:484-490 | a success resets the caller's count and no one else's |
| `Otp.Handler.Match` | modules/mod_otp.c:448-490 | rejects a counter not above the last accepted one, and otherwise records it |
| `Otp.Handler.Settle` | modules/mod_otp.c:448-513 | the outcome and both tables after an evaluated code; the caller is elevated after a success exactly when elevated already or fewer than 64 are |
| `Otp.Handler.OnCallerIdentified` | modules/mod_otp.c:525-531 | the next command is that user's, and tables and sessions stay as they are |
| `Otp.Handler.OnOtpCommand` | modules/mod_otp.c:372-523 | each refusal happens exactly under its own condition and leaves all state alone; every other command is one step of the policy, with the clock read at the lockout check, at the verification and when the result is recorded |
| `OtpPolicy.SixWrongCodesSpanLockout` | modules/mod_otp.c:429-513 | over whole runs: six evaluated wrong codes of one user with a slot, with no success between them, span at least 300 seconds, and the count never passes 5 |
| `OtpPolicy.WithoutSlotNeverLocked` | modules/mod_otp.c:500-513 | a user without a slot is always evaluated, and leaves no trace exactly when the table is full |
| `OtpPolicy.FullTableLetsGuessesThrough` | modules/mod_otp.c:500-513 | a run from the empty tables, 32 users with one wrong code each and then six of a 33rd user, all at one instant: all six are evaluated |
| `OtpPolicy.AcceptedCountersIncrease` | modules/mod_otp.c:448-482 | over whole runs with at most 32 users ever accepted, each user's accepted counters strictly increase |
| `OtpPolicy.ReplayableIffNoSlot` | modules/mod_otp.c:448-482 | presenting an accepted counter again succeeds exactly when its first acceptance found no slot |
| `OtpPolicy.FullTableLetsReplaysThrough` | modules/mod_otp.c:448-482 | a run from the empty tables, 32 users accepted and then a 33rd user's code twice: it is accepted twice |
| `OtpRuns.AcceptedLoginsAreFreshAndGenuine` | modules/mod_otp.c:272-482 | over whole runs of logins with their codes, at most 32 users ever accepted: every accepted counter is the least within the skew whose RFC 4226 code is the one given, and each user's accepted counters strictly increase |
| `OtpPolicy.LockSizes` | modules/mod_otp.c:429-513 | lockout entries are never dropped, only a wrong code adds one, and other users' entries are untouched |
| `LoginOutcomes.OutcomeIff` | modules/mod_otp.c:429-513 | what every login meets, over every run with a running clock, for a user with slots or no need of them: turned away exactly when five wrong codes in a row, each within 300 seconds of the one before, end within 300 seconds of now; otherwise accepted exactly when the code verified against a counter above every one accepted before |
| `OtpRuns.GoodLoginIsAccepted` | modules/mod_otp.c:372-523 | a login whose six digits are the code of a counter within the skew, the least such and above every one accepted before, is accepted unless five wrong codes count against the user |
| `OtpSessions.Sessions.Start` | modules/mod_otp.c:333-368 | the user is elevated exactly when elevated already or fewer than 64 users are, and with a time-out set the session's timer is one that was not live before |
| `OtpSessions.FullIffSixtyFour` | modules/mod_otp.c:333-368 | the session table has no slot left exactly when 64 users are elevated |
| `OtpRuns.OnlySixtyFourAreElevated` | modules/mod_otp.c:333-368 | for every n, one good code each from n users, from the empty tables: all are accepted and exactly the first 64 are elevated |
| `OtpSessions.Sessions.Expire` | modules/mod_otp.c:309-331 | a session timer ends exactly the session it belongs to |
| `JitterSpec.DeltaIsTheShortWay` | modules/mod_link.c:374 | the signed 16-bit difference is the one number from -32768 to 32767 that is congruent to the distance modulo 65536 |
| `LinkReceiver.Link.JbReset` | modules/mod_link.c:349-356 | empties all five slots and stops playout |
| `LinkReceiver.Link.JbInsert` | modules/mod_link.c:365-393 | late packets are only counted, far jumps restart at the packet, and the packet lands in its slot |
| `LinkReceiver.Link.PlayoutTick` | modules/mod_link.c:398-432 | plays frames that are due, at most ten, until five misses in a row end the stream |
| `LinkReceiver.Link.OnPacket` | modules/mod_link.c:801-812 | one received packet is one step of the receiver |
| `LinkReceiver.Link.OnPoll` | modules/mod_link.c:815-822 | playout and then the wall-clock backstop are one step of the receiver |
| `LinkReceiver.Link.SessionCleanup` | modules/mod_link.c:461-479 | leaves no session, no held transmitter and an empty buffer |
| `LinkKeying.HeldIffSpokenSince` | modules/mod_link.c:395-480 | after every run the link holds the transmitter exactly when a poll has played a frame that decoded to samples and there have been since then no five frames missed in a row, no lapse of the tail and no end of the session |
| `LinkKeying.PollPlaysWhatIsDue` | modules/mod_link.c:398-432 | a poll in an unmuted session with playout on plays every frame fallen due, ten at most, unless the stream runs dry in it, and counts each decoder failure; no other input plays a frame |
| `LinkKeying.PlayoutOnIff` | modules/mod_link.c:349-432 | playout is on exactly from a packet taken during a session until the stream runs dry or the session ends; muting and session are what was last said about them; while playout is off no packet waits |
| `JitterSpec.EventsAlternate` | modules/mod_link.c:434-457 | over any run asserts and drops alternate strictly, and the requests made of the transmitter, counted apart from the events, exceed its releases by one after an assert and by none after a drop |
| `JitterSpec.PacingIffDelayIsAFrame` | modules/mod_link.c:349-432 | 60(E - 1) <= t - t0 - target for every run of packets, polls, mutes, far jumps and session ends holds exactly when the target, which may be any integer, is at least one 60 ms frame |
| `Delivery.CursorsAreConsecutive` | modules/mod_link.c:365-432 | over any run the frames since playout last started, out of silence or by a far jump, carry the starting number, the next and so on modulo 65536, and the cursor is the number that follows |
| `Delivery.DeliveryIsFaithful` | modules/mod_link.c:365-432 | over any run each decoded frame is the latest payload stored for exactly its number, since the last reset, when it was played |
| `Delivery.StreamIsDeliveredIffPrompt` | modules/mod_link.c:365-432 | over any run, the wrap included: if since playout started every packet was late or at most four ahead of the cursor and is the sender's, then the frames since are the sent stream, every packet in its place and nothing concealed, exactly when each packet was ready when it fell due: stored, and, for 65535 and 0, stored after the other of the two |
| `Delivery.SentStreamIsPlayed` | modules/mod_link.c:365-432 | on runs that do not cross from 65535 to 0, being stored in time is enough for that |
| `Delivery.WrapPushesOut` | modules/mod_link.c:386-387 | a run of the machine, with both packets stored in time, on which 0 takes the slot of 65535 and 65535 is concealed |
| `Delivery.SlotsCollideOnlyAtTheWrap` | modules/mod_link.c:386-387 | two numbers of one five-number window share a slot exactly when they are 65535 and 0 |
| `Delivery.PacketByDistance` | modules/mod_link.c:365-393 | what a packet does by its signed distance from the cursor: 1 to 199 behind it is only counted late, up to 200 away it is stored and playout goes on, further away the buffer is emptied and playout starts anew at it |
| `Delivery.FirstPacket` | modules/mod_link.c:365-393 | out of silence any packet of 1 to 256 bytes starts playout at its number; an empty or larger one is never taken |
| `Delivery.BehindKeepsPendingIff` | modules/mod_link.c:374-393 | a packet from behind the cursor leaves every waiting packet alone, whatever waits, exactly when it is fewer than 200 behind |
| `Delivery.TwoHundredBehindSilences` | modules/mod_link.c:374-393 | a packet exactly 200 behind takes the place of the frame due next, which is then concealed; when the cursor is below 200 the number wraps, and it is the frame after next |
| `LossCounter.Tracker.QualityTrackSeq` | modules/mod_link.c:680-701 | whatever packets of a window the counters stand for, after one more distinct packet within reach they stand for those and it: its loss count is what is missing up to the newest |
| `LossCounter.Tracker.SendQualityReport` | modules/mod_link.c:703-727 | with a session up closes the window and reports only from 30 packets on; without one does nothing |
| `LossSpec.LossIsExact` | modules/mod_link.c:680-701 | for distinct arrivals newer than the window's base and within 199 of the newest, in any order and across the 16-bit wrap, the loss count is the number of packets between base and newest that have not arrived |
| `LossSpec.FirstWindowIsExact` | modules/mod_link.c:680-701 | the same for the first window, whose first packet becomes the base |
| `LossSpec.StaleArrivalExactIffNothingMissing` | modules/mod_link.c:691-696 | a packet older than the base leaves the count exact precisely when nothing was missing |
| `LossSpec.StaleArrivalHidesALoss` | modules/mod_link.c:691-696 | a window that misses two packets and reports one |
| `LossSpec.OutOfReach` | modules/mod_link.c:680-701 | a duplicate of the newest packet counts for nothing, one 200 or more ahead becomes the newest without loss, one 200 or more behind is only counted as received |
| `LossSpec.PermilleIsTheShare` | modules/mod_link.c:715-718 | the figure reported is the share of lost packets in thousandths, rounded down |
| `SampleRing.CodeDepthIsTrueIffOrdered` | modules/mod_link.c:211-220 | the unsigned 32-bit subtraction modulo 96000 is the fill level exactly when the write index is not behind the read index |
| `SampleRing.StepRefinesIff` | modules/mod_link.c:206-239 | with any way of computing the fill level, a single access of either thread keeps the ring a bounded FIFO of what was published and not yet taken exactly when it is no look that takes more than is there or writes more than there is room for |
| `SampleRing.RunRefinesIff` | modules/mod_link.c:206-239 | over any interleaving, the ring is that FIFO at every moment of a run exactly when every look of the run is safe |
| `SampleRing.RunDelivers` | modules/mod_link.c:652-666 | on runs without a drain the reader's output is the published samples in order, each once |
| `SampleRing.DrainDiscardsAll` | modules/mod_link.c:652-660 | a drain discards exactly what had been published when it began: whatever the tap does meanwhile, the queue is then what has been published since |
| `SampleRing.ReadDelivers` | modules/mod_link.c:227-239 | an undisturbed read delivers as many samples as were asked for, or as many as it saw, from the front of the queue |
| `SampleRing.TapIsTakenIff` | modules/mod_link.c:1220-1231 | a tap is published whole exactly when it fits by the fill level it saw, and otherwise changes nothing |
| `SampleRing.TrueDepthRefinesFifo` | modules/mod_link.c:206-239 | with the true fill level the ring is a FIFO of 95,999 samples under every interleaving of the two threads |
| `SampleRing.SafeReadIff` | modules/mod_link.c:211-239 | with the code's fill level a read of up to 72,704 samples is safe exactly when the write index is not behind or that many are there |
| `SampleRing.SafeWriteIff` | modules/mod_link.c:216-229 | with the code's fill level a write of up to 23,296 samples is safe exactly when the write index is not behind or there is room |
| `SampleRing.CodeRefinesFifoIff` | modules/mod_link.c:652-666 | with the code's fill level and sizes, over any interleaving, the ring is a FIFO throughout a run exactly when each read finds the indices in order or a whole frame, and each tap finds them in order or room; then, drains aside, the output is what was published, in order |
| `SampleRing.LateReadReplays` | modules/mod_link.c:652-666 | 101 taps of 960 samples and 33 frames of 2880, and then one call of the reader's loop with 1920 samples there: it sees 25,216 and stops after eight frames, having delivered 22 taps of two seconds ago again, 21,120 samples more than were published |
| `RepeaterModule.Globals.Handle` | modules/mod_repeater.c:88-318 | every event moves the globals by exactly one step of the machine, and keeps the invariant of timers, state and transmitter |
| `RepeaterModule.Globals.Unload` | modules/mod_repeater.c:371-394 | cancels every timer, and releases the transmitter except when a time-out is on |
| `RepeaterSpec.UnloadReleasesIff` | modules/mod_repeater.c:371-394 | after any run, unloading leaves no request of this module on the transmitter exactly when no time-out is on |
| `RepeaterSpec.UnloadInTimeoutKeepsPtt` | modules/mod_repeater.c:371-394 | for every configuration with relay on, a legal run into RX_TIMEOUT after which unloading leaves the transmitter requested |
| `RepeaterSpec.RunKeeps` | modules/mod_repeater.c:88-298 | after every run each timer is held only in its own states and every live timer is held by one variable, and with relay on this module's PTT requests exceed its releases by one in RECEIVING, TAIL_WAIT, HANG_WAIT and RX_TIMEOUT and by none elsewhere |
| `RepeaterSpec.FireLeavesNone` | modules/mod_repeater.c:88-178 | no two of the four timers are ever live together |
| `RepeaterSpec.NoTimeoutInEmergency` | modules/mod_repeater.c:156-178 | RX_TIMEOUT is entered only by the time-out timer, out of RECEIVING and never while an emergency is on |
| `RepeaterExits.ExitsIff` | modules/mod_repeater.c:88-298 | every change of state of the repeater: each of the ten there are happens exactly on its own event, and in IDLE nothing is asked of the transmitter |
| `RepeaterExits.UnkeyedReachesIdle` | modules/mod_repeater.c:88-277 | from every busy moment of every run, with positive tail and hang times, once COR drops whichever timers fire: two firings at most lead to IDLE with the transmitter released, and until then a timer is live |
| `RepeaterExits.DebouncedIff` | modules/mod_repeater.c:182-256 | the debounce runs exactly from an idle COR assert, when debouncing or closed, until COR drops or it is over |
| `RepeaterExits.IdentifiedIff` | modules/mod_repeater.c:300-318 | a caller counts as identified exactly from the identification until an idle COR assert or an idle clear |
| `RepeaterExits.TimersAreSetRight` | modules/mod_repeater.c:88-277 | after every run each live timer has been set for its own configured time, the debounce of a closed repeater for half a second at least |
| `RepeaterSpec.TailTimedIffPositive` | modules/mod_repeater.c:242-277 | "tail timer live if and only if TAIL_WAIT" holds on every run exactly when the tail time is positive |
| `RepeaterTimers.HangTimedIff` | modules/mod_repeater.c:88-105 | "hang timer live if and only if HANG_WAIT" holds on every run exactly when the hang time is positive or the tail time is zero, so that the hang is never reached |
| `RepeaterTimers.HangRunHangs` | modules/mod_repeater.c:88-105 | a legal run into HANG_WAIT for every configuration with a positive tail time, a zero hang time among them |
| `RepeaterTimers.UntimedWaitNeedsRekey` | modules/mod_repeater.c:88-277 | a wait whose time is zero is left by no event but a COR assert |
| `RepeaterTimers.ReceivingIsTimedIff` | modules/mod_repeater.c:109-240 | after every run that ends in RECEIVING the time-out timer is live exactly when the last entry armed it, by no rekey out of the tail and by no admission in an emergency, and it has not fired since |
| `RepeaterTimers.RekeyedRunIsUntimed` | modules/mod_repeater.c:204-212 | a legal run without any emergency, for every configuration, that ends in RECEIVING with no time-out |
| `RepeaterSpec.EverySessionIsAdmitted` | modules/mod_repeater.c:109-154 | whenever a closed repeater is busy, one event took it from IDLE to RECEIVING, it has not been idle since, and before that event came the COR assert opening the cycle and after the assert an identification that no clear in IDLE revoked |
| `RepeaterSpec.ClosedRepeaterAdmitsIdentified` | modules/mod_repeater.c:109-240 | every entry of a closed repeater to RECEIVING is out of IDLE after such an identification, or a rekey out of the tail or hang of a session that began after one and has not been idle since |
| `RepeaterSpec.BusyHasSession` | modules/mod_repeater.c:182-298 | on any repeater, closed or open, whenever it is busy one event has begun it and no idle moment lies between |
| `RepeaterSpec.ClearIsHonouredIffIdle` | modules/mod_repeater.c:312-318 | a clear during debounce keeps the caller out exactly when it arrives in IDLE |
| `RepeaterSpec.BridgedClearIsIgnored` | modules/mod_repeater.c:279-318 | a concrete legal run that admits a caller who was cleared while the link was bridging |
| `CwIdModule.Globals.Handle` | modules/mod_cwid.c:367-517 | every event moves the globals by exactly one step of the identifier, and an identification is pending afterwards exactly when the event called for one that could not go out, or one was pending and none was sent |
| `CwIdSpec.PendingIffUnanswered` | modules/mod_cwid.c:367-517 | in both modes, after every run, an identification is pending exactly when some event called for one that could not go out and none has been sent since |
| `CwIdSpec.EveryTickIsAnswered` | modules/mod_cwid.c:367-381 | a tick outside quiet hours has been answered by an identification no later than when the channel next clears |
| `CwIdLaws.SendsIff` | modules/mod_cwid.c:367-517 | an identification is sent exactly when, outside quiet hours and able to, a tick of either schedule finds the channel free, the tail ends, or a pending one meets the start of the repeater's tail or its going idle |
| `CwIdLaws.ActiveTickIdentifies` | modules/mod_cwid.c:393-403 | the on-call tick identifies at once on a free channel and owes an identification on a busy one |
| `CwIdLaws.StatesIff` | modules/mod_cwid.c:405-517 | each change between IDLE, ACTIVE and TAIL happens exactly on its own event |
| `CwIdLaws.TimerIsSetRight` | modules/mod_cwid.c:427-453 | after every run the timer in ACTIVE has been set for the interval, and in TAIL for the tail time or else the interval |
| `CwIdSpec.HearFits` | modules/mod_cwid.c:482-517 | after any repeater event the one timer is repeating in ACTIVE, one-shot in TAIL and absent in IDLE, and ACTIVE means the repeater is not idle |
| `CwIdSpec.TimerKeepsFit` | modules/mod_cwid.c:393-417 | a timer firing keeps that, and leaves TAIL for IDLE |
| `Station.ThreeMachinesFit` | modules/mod_cwid.c:384-517 | after every run of link, repeater and identifier together: asserts and drops alternate, BRIDGING implies the link holds the transmitter, the identifier is ACTIVE exactly while the repeater is not idle and has the timer that goes with its state |
| `Station.BusyPeriodIsIdentified` | modules/mod_cwid.c:427-517 | outside quiet hours a busy period, opened by a radio or by the link, is never over without an identification |
| `Station.TailEndsInIdOrRekey` | modules/mod_cwid.c:405-417 | the tail always has its timer live and ends only by it, with one more identification outside quiet hours, or by a rekey |
| `Station.ToRepeaterKeeps` | modules/mod_repeater.c:279-298 | a repeater event keeps repeater and identifier fitting; bridging starts only by a link assert and never survives a drop |
| `Station.StepTells` | modules/mod_repeater.c:68-84 | the events a repeater step fires lead from its old state to its new one, each change starting where the one before ended |
| `Station.IdentifierTimedIff` | modules/mod_cwid.c:427-453 | on every run the identifier has the timer that goes with its state exactly when the identification interval is positive |
| `Utf8.DecodeCharInvertsEncode` | cli/linenoise.c:151-190 | the decoder, at the start of any encoded character anywhere in a buffer, returns that character and the length its lead byte announces |
| `Utf8.EncodeInvertsDecodeChar` | cli/linenoise.c:162-190 | every byte sequence of the RFC 3629 section 4 grammar for one character is what section 3 encodes its decoded value to, and that value is a scalar |
| `Utf8.WellFormedIffEncoded` | cli/linenoise.c:162-190 | a byte string satisfies the grammar of section 4 exactly when it is the section 3 encoding of some text |
| `Utf8.EncodeAllInjective` | cli/linenoise.c:162-190 | the bytes determine the text |
| `Utf8.EncodeShape` | cli/linenoise.c:229-242 | scanning back over continuation bytes stops at the lead byte and nowhere earlier |
| `LineEditor.Move` | cli/linenoise.c:1138 | overlapping moves within the buffer behave as if through a copy |
| `LineEditor.DecodePrev` | cli/linenoise.c:229-242 | finds the last character before a boundary, its length and nothing at the start |
| `LineEditor.PrevCharLen` | cli/linenoise.c:250-302 | the byte length of the cluster left of the cursor, ending on a character boundary |
| `LineEditor.NextCharLen` | cli/linenoise.c:306-351 | the byte length of the cluster right of the cursor, ending on a character boundary within the line |
| `LineEditor.LineState.constructor` | cli/linenoise.c:1274-1310 | an empty line, with one byte of the caller's buffer set aside for the NUL |
| `LineEditor.LineState.LineIsWellFormed` | cli/linenoise.c:1115-1248 | the line and both its halves at the cursor are well-formed UTF-8, with a NUL at the end and the lengths in bounds |
| `LineEditor.LineState.EditInsert` | cli/linenoise.c:1115-1147 | any bytes go in at the cursor, at the end or in the middle, or nothing happens when they do not fit |
| `LineEditor.LineState.InsertCharacter` | cli/linenoise.c:1115-1147 | inserting the bytes of one character is the code-point step of typing it |
| `LineEditor.LineState.EditMoveLeft` | cli/linenoise.c:1150-1155 | the cursor moves left over one cluster |
| `LineEditor.LineState.EditMoveRight` | cli/linenoise.c:1158-1163 | the cursor moves right over one cluster |
| `LineEditor.LineState.EditMoveHome` | cli/linenoise.c:1166-1171 | the cursor goes to the start, the text stays |
| `LineEditor.LineState.EditMoveEnd` | cli/linenoise.c:1174-1179 | the cursor goes to the end, the text stays |
| `LineEditor.LineState.EditDelete` | cli/linenoise.c:1210-1218 | takes out the cluster right of the cursor |
| `LineEditor.LineState.EditBackspace` | cli/linenoise.c:1221-1230 | takes out the cluster left of the cursor |
| `LineEditor.LineState.EditDeletePrevWord` | cli/linenoise.c:1234-1248 | takes out spaces and then non-spaces, cluster by cluster |
| `LineEditor.LineState.KillWholeLine` | cli/linenoise.c:1490-1494 | empties the line |
| `LineEditor.LineState.KillRestOfLine` | cli/linenoise.c:1495-1499 | takes out everything right of the cursor |
| `LineEditor.LineState.TransposeClusters` | cli/linenoise.c:1390-1404 | the clusters around the cursor change places and the cursor ends behind them |
| `LineEditor.LineState.Feed` | cli/linenoise.c:1381-1512 | every editing key moves the state by exactly one step of the code-point model and keeps the byte invariant |
| `LineSpec.RunKeepsRoom` | cli/linenoise.c:1115-1248 | over any sequence of keys the text stays encodable, the cursor in it, and the bytes within the buffer |
| `LineSpec.BackspaceUndoesInsertIff` | cli/linenoise.c:1221-1230 | Backspace takes back a typed character exactly when the character starts a cluster of its own there |
| `LineSpec.LeftUndoesRightIff` | cli/linenoise.c:250-351 | Left takes back Right under an exact condition on the characters at the cursor and inside the cluster |
| `LineSpec.LeftStopsShort` | cli/linenoise.c:250-351 | half a flag, an accent and half a flag: Right goes over all three and Left back over one |
| `KeyLaws.DeleteIsRightBackspaceIff` | cli/linenoise.c:1210-1230 | Delete does what Right and Backspace do exactly where Left takes Right back |
| `KeyLaws.DeleteTakesOne` | cli/linenoise.c:1210-1218 | Delete keeps the cursor and everything but the cluster right of it |
| `KeyLaws.DeletesAreKill` | cli/linenoise.c:1210-1218 | Delete pressed to the end of the line is Ctrl-K |
| `KeyLaws.BackspaceTakesOne` | cli/linenoise.c:1221-1230 | Backspace goes where Left goes and takes out what Left goes over |
| `KeyLaws.DeleteWordTakesAWord` | cli/linenoise.c:1234-1248 | Ctrl-W goes to the start of the word and takes out just what lies between, the rest of the line kept |
| `KeyLaws.HomeKillIsKillLine` | cli/linenoise.c:1490-1499 | Home and Ctrl-K are Ctrl-U |
| `KeyLaws.KillKeepsLeft` | cli/linenoise.c:1495-1499 | Ctrl-K keeps what is left of the cursor and takes out the rest |
| `KeyLaws.EndIsRights` | cli/linenoise.c:1174-1179 | End is Right pressed to the end: the cursor behind the last character, the text as it was |
| `KeyLaws.HomeIsLefts` | cli/linenoise.c:1166-1171 | Home is Left pressed to the start |
| `KeyLaws.TypingInserts` | cli/linenoise.c:1115-1147 | typing a text that fits puts it in at the cursor, in order, with the cursor behind it |
| `KeyLaws.TransposeIsRetyping` | cli/linenoise.c:1390-1404 | Ctrl-T gives the text that Delete, Left and typing the deleted cluster again give: the right cluster first; the cursor ends behind both |
| `LineSpec.TypedClustersOutgrow` | cli/linenoise.c:1390-1404 | for every n, typing two letters and n accents, Home and Right leaves a cluster of 2n + 1 bytes right of the cursor, more than the 32 that Ctrl-T sets aside from n = 16 on |
| `LineSpec.DeleteWordErasesOneWord` | cli/linenoise.c:1234-1248 | over plain characters the stretch erased is one maximal word and the spaces after it |
| `LineSpec.TransposeKeepsCharacters` | cli/linenoise.c:1390-1404 | transposing keeps the multiset of characters |
| `BreakerSpec.CircuitOpensAtSixteen` | modules/mod_freeswitch.c:554-576 | after every run the circuit is open exactly when sixteen failures in a row have been recorded |
| `BreakerSpec.FailureSetsWait` | modules/mod_freeswitch.c:554-576 | the k-th failure in a row, refused at once or after pending, sets the countdown to min(30000, 1000 * 2^(k-1)) / 20 polls for k below 16 and opens the circuit for k = 16 |
| `BreakerSpec.NextAttemptWaits` | modules/mod_freeswitch.c:581-595 | after the k-th failure the next attempt is made at the poll after exactly that many polls, whatever they meet |
| `BreakerSpec.AtMostSixteenAttempts` | modules/mod_freeswitch.c:581-634 | between restarts by authentication or configuration no run makes more than sixteen connection attempts |
| `BreakerSpec.AttemptsArePaid` | modules/mod_freeswitch.c:581-634 | over such a run attempts equal recorded failures plus the one still pending |
| `BreakerSpec.OpenCircuitStaysOpen` | modules/mod_freeswitch.c:583-590 | once open, polling never tries again |
| `BreakerSpec.ConnectionIff` | modules/mod_freeswitch.c:581-634 | the connection is open exactly from an attempt that connects until the peer closes it, and authenticated exactly from the reply to the password on |
| `BreakerSpec.FailuresIff` | modules/mod_freeswitch.c:554-634 | a failed attempt adds one to the series, authentication or a new configuration begins a new one, nothing else counts |
| `CallSpec.Lockstep` | modules/mod_freeswitch.c:887-1217 | after every run: CONNECTED, the active flag, both sockets, both taps, the call timer and the inactivity timer come and go together; the dial timer is live exactly while dialing or ringing; PTT is held at most once and only while connected; idle holds nothing |
| `CallSpec.RunKeeps` | modules/mod_freeswitch.c:415-634 | the same for every configuration, each timer being live in its states exactly when its delay is positive, together with the connection's own invariant |
| `CallSpec.TeardownLeavesNothing` | modules/mod_freeswitch.c:1091-1137 | whatever the call had, after teardown no timer, socket, tap or PTT request of it is left |
| `CallSpec.EveryEndIsClean` | modules/mod_freeswitch.c:984-1194 | hang-up, remote hang-up at any block of a read, lost connection, every timer, shutdown and a failed audio set-up all leave nothing of the call |
| `CallSpec.EndingBlocks` | modules/mod_freeswitch.c:499-634 | a read that ends the call at some block leaves nothing of it, whatever blocks follow in the same read |
| `CallSpec.CallAlwaysEnds` | modules/mod_freeswitch.c:1143-1194 | while a call is up some timer is live, and every live timer ends it cleanly |
| `CallCourse.BegunIff` | modules/mod_freeswitch.c:887-979 | IDLE is left exactly by a dial that is allowed and sent, while enabled, authenticated and not for administrators only |
| `CallCourse.ConnectsIff` | modules/mod_freeswitch.c:461-523 | CONNECTED is entered exactly by a read, while dialing or ringing, one of whose blocks answers the call with its sockets opening, with no answer or hang-up before it and no hang-up of that call after it |
| `CallCourse.ReadConnectsIff` | modules/mod_freeswitch.c:461-523 | the same for any sequence of blocks; the call then bears the name in the answer, and it is still being made exactly when no block answers or hangs up |
| `CallCourse.OverIff` | modules/mod_freeswitch.c:503-634 | a call is over exactly by a hang-up here, a timer, the shutdown, the loss of the connection, or a read that hangs up that very call, or, before it is up, decides it without bringing it up |
| `CallCourse.HeldIff` | modules/mod_freeswitch.c:1196-1370 | after a tick with COR down the phone holds the transmitter exactly when the call is up and the detector reports speech; after any other event, and with COR up, exactly when it did and the call is still up |
| `CallCourse.TalkedOverStaysHeld` | modules/mod_freeswitch.c:1355-1370 | a run, for every configuration open to users, on which the caller falls silent while a radio user is keyed up, and the phone keeps the transmitter |
| `CallCourse.TimersAreSetRight` | modules/mod_freeswitch.c:887-1211 | after every run each live timer of the call has been set for its own configured time |
| `CallCourse.CorRestartsInactivity` | modules/mod_freeswitch.c:1200-1211 | a COR assert during a call replaces the inactivity timer by a new one for the whole time |
| `FreeSwitch.Globals.EslPoll` | modules/mod_freeswitch.c:581-634 | one poll is one step of call and connection, all blocks of a read in order |
| `FreeSwitch.Globals.Handle` | modules/mod_freeswitch.c:1143-1381 | every event moves the globals by exactly one step of the model, keeps its invariant, and leaves nothing of the call when it ends one |
| `FreeSwitch.Globals.Unload` | modules/mod_freeswitch.c:1482-1501 | leaves no call and no connection |
| `PhoneJitter.JitterBuf.Write` | modules/mod_freeswitch.c:210-223 | afterwards the ring holds the newest 1600 of what it held and what was written |
| `PhoneJitter.JitterBuf.Read` | modules/mod_freeswitch.c:225-240 | delivers the oldest samples and then silence, and says how many were real |
| `PhoneJitter.QueuedIsNewest` | modules/mod_freeswitch.c:202-240 | over any run of writes and reads the ring holds the newest samples written: only the oldest is ever dropped |
| `PhoneJitter.RoomyIsLossless` | modules/mod_freeswitch.c:202-240 | without overflow what was delivered followed by what is queued is what was written |
| `PhoneJitter.DeliveryKeepsOrder` | modules/mod_freeswitch.c:202-240 | over any run the samples delivered are those written, in order, with some left out |
| `PhoneVox.KeysOnlyOnSpeechIff` | modules/mod_freeswitch.c:255-283 | "keying means as many loud frames in a row as the attack setting" holds for all runs exactly when the hold is at most one frame |
| `PhoneVox.KeyingTickConfirmsIffLoud` | modules/mod_freeswitch.c:255-283 | on every run and with every hold, a tick that keys confirms speech exactly when its own frame is loud; a quiet one keys only within a hold of more than one frame |
| `PhoneVox.Detector.VoxProcess` | modules/mod_freeswitch.c:1310-1332 | the detector's fields stand for all its ticks so far, and a tick that keys the transmitter confirms speech exactly when its own frame is loud |
| `PhoneVox.CountersMeasure` | modules/mod_freeswitch.c:259-283 | the attack counter is the number of loud frames in a row over the whole run |
| `PhoneVox.OnAirIff` | modules/mod_freeswitch.c:259-283 | over every run the phone is on the air after a tick exactly when its frame is loud and enough loud ones have come in a row or it was on the air, or its frame is quiet and fewer quiet ones have come since a loud one than the hold lasts |
| `PushSpec.RegisterUpdates` | modules/mod_poc_apns.c:245-291 | the store as a map: the user gets the new token unless the store is full or the token unusable, nobody else notices, uids stay unique |
| `PushSpec.MarkDormantUpdates` | modules/mod_poc_apns.c:293-314 | only the connection flag of that user changes |
| `PushSpec.EvictUpdates` | modules/mod_poc_apns.c:319-337 | the user goes exactly when holding the very token named; swapping the last entry into the gap loses nobody |
| `PushSpec.StepKeeps` | modules/mod_poc_apns.c:438-562 | every critical section of every thread keeps the system invariant |
| `PushSpec.JobsAreConserved` | modules/mod_poc_apns.c:438-562 | over any interleaving: enqueued = sent + failed + in flight + queued, jobs leave in the order they entered, each finished job took one or two attempts, uids are unique, both tables within bounds |
| `PushSpec.OnlyTheDeadTokenGoes` | modules/mod_poc_apns.c:316-337 | no step takes a user's token away except the worker evicting the very token its job was sent to |
| `PushSpec.NewerTokenSurvives` | modules/mod_poc_apns.c:316-337 | a different token registered while a job is being tried survives that job under every interleaving up to the worker's next job |
| `PushSpec.TokenStaysUntilAnsweredDead` | modules/mod_poc_apns.c:316-484 | under every interleaving, over any number of jobs, a stored token stays until its user registers another or a job carrying that very token is answered dead |
| `PushSpec.EvictingMeansDead` | modules/mod_poc_apns.c:438-484 | the worker goes to evict only after a first attempt of that job answered 400 or 410 |
| `PushSpec.AttemptIff` | modules/mod_poc_apns.c:438-484 | 200 counts the job as sent; on a first try 400 and 410 lead to the eviction, 403, 429 and the 500s to one retry; every other answer, and every other one to a retry, is a failure |
| `PushSpec.EvictionFails` | modules/mod_poc_apns.c:319-337 | the eviction takes out the very token the job went to and counts the job as failed |
| `PushSpec.DeadOnRetryStays` | modules/mod_poc_apns.c:438-484 | a run from the empty store on which a job answered 403 and then 410 fails and its token stays |
| `PushSender.Context.RegisterToken` | modules/mod_poc_apns.c:245-291 | scan, update in place or append |
| `PushSender.Context.SetDormant` | modules/mod_poc_apns.c:293-314 | scan and clear the flag |
| `PushSender.Context.EvictTokenIfMatch` | modules/mod_poc_apns.c:319-337 | swap-with-last removal, counted as dropped |
| `PushSender.Context.Enqueue` | modules/mod_poc_apns.c:546-557 | appends to the ring, or refuses exactly when 64 jobs are queued |
| `PushSender.Context.Dequeue` | modules/mod_poc_apns.c:512-515 | takes the oldest job |
| `PushSender.Context.PushAll` | modules/mod_poc_apns.c:525-562 | queues every other user's job in store order until the ring is full, and returns how many |
| `PushSender.Context.ProcessJob` | modules/mod_poc_apns.c:438-484 | at most one retry; exactly one of sent and failed goes up; the token is evicted exactly when the first answer is 400 or 410 |
| `PushSender.Context.Push` | modules/mod_poc_apns.c:525-562 | the producer's whole push leaves the context standing for the interleaved model after the same push with nobody stepping in |
| `PushSender.Context.WorkerTurn` | modules/mod_poc_apns.c:486-522 | one job leaves the ring and is counted once, and the context stands for the interleaved model after the worker's turn alone |
| `PushSender.TurnAgrees` | modules/mod_poc_apns.c:438-522 | what a turn of the worker alone does in the interleaved model: one or two tries, one count, eviction exactly after a dead first answer |
| `PushSender.PushAgrees` | modules/mod_poc_apns.c:525-562 | what a push alone does in the interleaved model, from any point of it on: the rest of the jobs in store order until the ring is full |
| `PushSender.JobsReachTheOthers` | modules/mod_poc_apns.c:525-562 | a push is for every user in the store but the one excluded, each with their own token, and for nobody else |
| `AiJson.JsonEscape` | modules/mod_ai.c:602-624 | writes the escapes of as many bytes as the room test allows, and a NUL |
| `AiJson.NeverTruncates` | modules/mod_ai.c:634-637 | a buffer of 6n + 4 bytes takes every text of n bytes whole |
| `AiJson.EscapeRoundTrips` | modules/mod_ai.c:602-624 | a reader following section 7 of RFC 8259 gets back exactly the text escaped |
| `NwsJson.Escape` | modules/mod_nws.c:879-892 | writes what is printed of as many bytes as the room test allows, and a NUL |
| `NwsJson.Scan` | modules/mod_nws.c:189-224 | the buffer after the scan: each piece of the string kept whole if it leaves room for the NUL, else skipped |
| `NwsJson.ScanReadsPrinted` | modules/mod_nws.c:189-224 | scanning a printed text stops at the closing quote and yields the text without the control characters that are not printed |
| `NwsJson.PrintThenScan` | modules/mod_nws.c:587-593 | with output buffers of twice the field nothing is cut off, and the text comes back exactly when \n, \r and \t are its only control characters |
| `NwsJson.ScanReadsStandardIff` | modules/mod_nws.c:189-224 | of a string that section 7 of RFC 8259 allows, the scan yields what it stands for exactly when its only escapes are of a quotation mark, a backslash, a slash, a line feed, a return and a tab |
| `NwsJson.TruncatesCleanlyIff` | modules/mod_nws.c:168-224 | the pieces of an overlong string that are kept are a prefix of its pieces exactly when, from the first that does not fit on, every one is too long for the room that is left |
| `NwsJson.PlainTextIsCutOff` | modules/mod_nws.c:168-224 | a text without \uXXXX is always cut off after as many characters as leave room for the NUL |
| `NwsJson.LongPieceLeavesAHole` | modules/mod_nws.c:202-212 | a \uXXXX that does not fit is skipped while what follows it is kept, so the result is not a prefix |

## Left out

- `LinkReceiver.Link.SessionCleanup`: the sample ring, which cleaning up also drains, is a machine of its own here (`SampleRing`), with the drain among its steps.
- `LineEditor.LineState.TransposeClusters`: asks that the cluster to be moved take at most 32 bytes, the size of the code's temporary; what the copy does beyond it is not modelled, and `LineSpec.TypedClustersOutgrow` shows that it can be asked for.
- `LineEditor.LineState.InsertCharacter`: bytes that are no well-formed character are covered only as bytes, by `LineEditor.LineState.EditInsert`; the text model and the other keys speak of well-formed lines.
- `LineEditor.LineState.Feed`: Ctrl-T asks that the cluster right of the cursor take at most 32 bytes, as above.
- `FreeSwitch.Globals.AutopatchDial`: the number checks, the admin test's wording and the originate command are reduced to whether the number is allowed and the command goes out.
- `PushSpec.JobsAreConserved`: the context is running; creation, shutdown and the jobs dropped at shutdown are not modelled.
- Sockets, TLS, SRTP, Opus, WebSocket and curl; parsing of event-socket blocks, of RTP headers and of JSON beyond one string; files, prompts, sounds, logging, snapshots and the command line.
- The link's login, talk groups, floor control, encoder side and reconnect backoff (whose jitter is 10 percent where its comment says 20).
- In the line editor: history, completion, hints, masking, display width and redrawing.
- In the telephone bridge: resampling, gain, the pre-roll ring and the dialed digits.
- In the push sender: the signed web token and its cache, time stamps, truncation of long names, and the payload.
- The alert table of `modules/mod_nws.c`, the conversation table, request ring and tool rounds of `modules/mod_ai.c`: easier than what is here.
- The audio of the identification and the solar computation of quiet hours in `modules/mod_cwid.c`.
- Other modules (DTMF, CDR, scrambler, SDR, FLEX, GPIO, logging, paging) and the engine sources.
