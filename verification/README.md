# GSM receive path, AT/PPP bring-up and friends: a verified model

This project models the serial receive path, the AT command engine and the PPP bring-up of the
GSM firmware, its MQTT connection machine, and four self-contained algorithms of the CMSIS
headers and the reply parsers, and proves what they promise. `dafny verify dfyconfig.toml`
checks all of it.

How it is built:

- **Values first.** `AtEngine`, `BringUp`, `ModemRing`, `DmaRx` and `MqttClient` describe each
  operation as a function from state to state, branch by branch as in the C code. A byte is a
  `char`, so that C strings are Dafny strings; ticks are 32-bit words next to an unbounded true
  clock; every clock reading, reply, PPP status code and broker answer is an arbitrary input.
- **The code's own form.** `GsmDevice`, `UsartDevice`, `ModemRing.ModemBuffer`,
  `MqttClient.MqttTask`, `MpuLoad.Mpu`, `NvicPriority.Nvic`, `BitLoops` and `Utilities` hold the
  static variables, arrays and loops. Each method is proved to do what the function says.
- **Runs.** `Runs`, `Chain`, `Outcomes`, `Progress`, `Reachability`, `Clocks` and `ReceivePath`
  prove the statements about every run: any order of main-loop calls, polls, interrupts, bytes and
  PPP events. PPP calls back only while its control block is in use, from `pppos_create` to
  `ppp_free`. A history (log of commands, power polls, callback counts) is part of the state.

What the proofs found out about the firmware:

- PPP mode is never left. Once the first dial callback has set it, no AT command ever completes
  again: the link can still come up exactly in AT mode, it comes up at most once, and a link that
  went down stays down, through every reopening and every power cycle: each attempt is back in
  RESET after at most 12 overdue engine runs, each power-on after at most 30.
- At most one dial ever fails. It calls `ppp_close` before any control block was made, and the
  limit of four dial retries is dead code.
- OK is left only by "closed by user" and "connection lost". After any other status code the
  state stays OK and PPP goes on counting as connected.
- Every power cycle is complete: outside RESET the module is always powered, out of reset and its
  key released. No command is ever superseded, and no buffer reset hits a waiting one.
- A module IMEI of 14 digits resets the module once and is accepted from then on.
- From 256 bytes on the AT buffer restarts at index 0 with its old tail: for every such length
  some replies are lost, and from 257 on some are completed that were never received.
- The ring loses data exactly when 1024 or more bytes are unread, and the periodic MQTT
  subscribe goes out at every poll when its period ends beyond the wrap of the tick.
- With 16 or more digits in the reply `gsm_utilities_get_imei` writes a NUL behind the 16-byte
  arrays that both of its callers pass.
- The comment above `mqtt_client_polling_task` says it is called every second; callbacks make it
  run at once through `m_mqtt_process_now`. The model follows the code.

## Model

| member | source | states |
|---|---|---|
| Words.ElapsedModulo | gsm/gsm_hardware_layer.c:167-169 | a 32-bit tick difference is the true elapsed time modulo 2^32, and never more than it |
| Words.GateExact | gsm/gsm_data_layer.c:43-47 | a tick gate never fires early, and below a true gap of 2^32 ms fires exactly when the threshold is reached |
| Clocks.GatesAreExact | gsm/gsm_hardware_layer.c:84-90 | in every run the hardware poll gate, the waiting command's timeout and the one-second gate open exactly when the true time since the last run, transmission and poll has reached the interval, across tick wraps |
| ReplyMatch.StoreShort | gsm/gsm_hardware_layer.c:265-279 | a chunk that fits lands behind the bytes already there and changes nothing else |
| ReplyMatch.ReceiveKeepsClean | gsm/gsm_hardware_layer.c:265-279 | while armed and below 256 received bytes the buffer is exactly those bytes followed by zeros |
| ReplyMatch.MatchIsReply | gsm/gsm_hardware_layer.c:105-135 | below 256 bytes the matcher accepts if and only if the bytes received since arming contain the wanted text before any NUL and, if an ending is set, are longer and end with it |
| ReplyMatch.EmptyNeverMatches | gsm/gsm_hardware_layer.c:105-135 | an empty buffer completes no command that waits for any text |
| ReplyMatch.LongReplyIsLost | gsm/gsm_hardware_layer.c:271-277 | the bound of 256 is exact for completeness: for every length from 256 on there are bytes that hold the reply and are not recognised, however they are cut into chunks |
| ReplyMatch.OverflowFakesReply | gsm/gsm_hardware_layer.c:271-277 | ... and for soundness: for every length from 257 on there are chunks, none above 768 bytes, that complete an "OK" never received |
| Lifecycle.AtMostOneCallback | gsm/gsm_hardware_layer.c:137-150 | in a lawful log there is a new arming between any two callbacks |
| Lifecycle.CommandLife | gsm/gsm_hardware_layer.c:167-194 | a called-back command was sent between 1 and its retry count times, all of them before a TIMEOUT, always its own text, and its buffer was not reset |
| Lifecycle.ExpiryIsReal | gsm/gsm_hardware_layer.c:167-194 | a retransmission or TIMEOUT comes at least the timeout after the transmission before it, in true milliseconds |
| Lifecycle.CommandSent | gsm/gsm_hardware_layer.c:167-194 | every armed command, called back or waiting, was sent between 1 and its retry count times, always its own text |
| Lifecycle.ArmTracks | gsm/gsm_hardware_layer.c:227-237 | arming an idle engine keeps the log lawful and the countdown in step with it |
| Lifecycle.GivenUpTracks | gsm/gsm_hardware_layer.c:172-184 | the TIMEOUT callback of an expired command at its last retry keeps the log lawful and ends the countdown |
| Lifecycle.ResentTracks | gsm/gsm_hardware_layer.c:188-193 | resending an expired command that has retries left keeps the log lawful, with one transmission more and one retry less |
| EngineSafety.OkIsSound | gsm/gsm_hardware_layer.c:137-145 | a satisfied matcher means AT mode and, below 256 bytes, a complete reply that is already NUL-terminated in the buffer |
| EngineSafety.NextRests | gsm/gsm_hardware_layer.c:81-238 | every step keeps the log lawful (no command superseded or robbed of its buffer), the armed buffer clean, PPP mode silent and PPP mode set |
| Deliveries.RunDelivers | gsm/gsm_hardware_layer.c:81-165 | a run of the engine delivers OK if and only if the poll gate is open, a command is armed, bytes came in and the matcher is satisfied |
| Deliveries.OkMeansReply | gsm/gsm_hardware_layer.c:94-151 | OK is delivered in AT mode only, and below 256 bytes exactly for complete replies |
| Coherence.DecideValid | gsm/gsm_data_layer.c:171-453 | every command of the configuration chain has a timeout, a retry count, a callback and a text to wait for |
| Coherence.DecideFits | gsm/gsm_data_layer.c:171-453 | from steps 1 to 24 the default branch is not taken and the next step is one that the next callback expects |
| BringUp.PppEventsExact | gsm/gsm_data_layer.c:887-902 | whatever PPP reports, it comes down to nothing or to one reopening that frees the block |
| Coherence.NextCoherent | gsm/gsm_data_layer.c:41-129 | every step keeps state, step, pending callback, mode and control block in agreement, under arbitrary PPP events |
| Coherence.PollAdvances | gsm/gsm_data_layer.c:41-72 | every due poll runs the next power step in RESET and sends the first command at step 0 of POWER_ON |
| Runs.NeverStalls | gsm/gsm_data_layer.c:41-129 | in every reachable state POWER_ON and REOPEN_PPP past step 0 have one armed command with timeout and retries left, every due poll acts in RESET and at step 0, OK has PPP mode and a block in use; a pending callback fits the state |
| Runs.DefaultBranchUnreachable | gsm/gsm_data_layer.c:447-449 | no half of any engine run calls gsm_config_module at a step its switch does not handle |
| Runs.EveryCommandLife | gsm/gsm_hardware_layer.c:81-238 | over any run a command gets one callback at most, its own, after 1 to retry-count transmissions of its text, all of them before a TIMEOUT, with no buffer reset before it |
| Runs.EveryCommandSent | gsm/gsm_hardware_layer.c:81-238 | over any run every armed command is sent between 1 and retry-count times, and the next is armed only after its callback |
| Runs.EveryExpiryIsReal | gsm/gsm_hardware_layer.c:167-194 | over any run every expiry is at least the timeout after the previous transmission |
| Runs.EveryOkIsReply | gsm/gsm_hardware_layer.c:94-151 | over any run OK callbacks and complete replies that the engine looks at are the same, below 256 bytes |
| Runs.PppNeverCompletesACommand | gsm/gsm_data_layer.c:756-759 | no OK callback follows the callback that set PPP mode |
| Runs.LinkComesUpOnce | gsm/gsm_data_layer.c:1062-1065 | a run that leaves OK never reaches it again |
| Runs.FirstDialDecides | gsm/gsm_data_layer.c:756-799 | a run in which PPP mode is set while the state is not OK never reaches OK |
| Runs.OneDialEverFails | gsm/gsm_data_layer.c:761-777 | at most one dial ever fails, and it closes a block that was never made; the dial retry counter never exceeds 1 |
| Runs.BlockInUseIsOk | gsm/gsm_data_layer.c:780-797 | the control block is in use exactly in OK, and PPP counts as connected only there |
| Runs.OkLeftIff | gsm/gsm_data_layer.c:831-902 | OK is left exactly by "closed by user" or "connection lost" |
| Runs.NeverReopened | gsm/gsm_data_layer.c:887-902 | after either of them, in any run, OK is never reached again |
| Chain.WaitsForTheTable | gsm/gsm_data_layer.c:171-805 | at every moment of every run the waiting command is the one a literal table names for the pending step: text, expected text, ending, timeout and retries |
| Chain.KnowsItsIdentity | gsm/gsm_data_layer.c:233-291 | in every run nothing past step 10 happens without 14 or 15 digits of module IMEI, nothing past step 11 without 15 digits of IMSI, nothing past step 12 without 10 digits of CCID or two vain queries |
| Chain.IntervalAndReady | gsm/gsm_data_layer.c:171-453 | the poll interval and gsm_ready at every moment of every run: 5 ms but for the waits at steps 19, 20 and 22 to 24 and what a reset keeps; 0 before the dial, 1 while dialling, 2 with a link |
| Outcomes.ConfigOutcome | gsm/gsm_data_layer.c:171-453 | where every callback of the configuration chain leads: RESET exactly for no answer at steps 1 and 23 and an unreadable IMEI at step 10, the same question again exactly for the unusable replies, else the next step |
| Outcomes.FourteenDigits | gsm/gsm_data_layer.c:236-246 | a reply of 14 digits at step 10 resets the module, and step 10 then goes on with them whatever is answered |
| Outcomes.ConfigReads | gsm/gsm_data_layer.c:233-378 | what each callback reads into the four identity texts, and that it touches no other |
| Outcomes.DialOutcome | gsm/gsm_data_layer.c:707-805 | where every callback of the dial chain leads; the SIM check must be answered and must not miss the SIM |
| Outcomes.LinkComesUpIff | gsm/gsm_data_layer.c:737-797 | in every run, below 256 bytes, the link comes up exactly when the dial is pending, the engine looks, has new data, and the bytes contain "CONNECT" |
| Outcomes.ConnectedIff | gsm/gsm_data_layer.c:1009-1014 | in every run PPP counts as connected from the first running phase of a link until the link goes down |
| Outcomes.DataIsTakenOnce | gsm/gsm_hardware_layer.c:94-104 | an engine run takes the data flag back exactly when it polls for a waiting command |
| Outcomes.ResetLeavesTimeout | gsm/gsm_hardware_layer.c:204-209 | a buffer reset under a waiting command would leave one TIMEOUT to come, without a transmission |
| Outcomes.PowerUp | gsm/gsm_hardware_layer.c:32-48 | the state after gsm_init_hw |
| ReplyReaders.RegisteredIff | gsm/gsm_utilities.c:103-134 | a reply reports a registration if and only if some "+CGREG:" in it has four commas or more behind it |
| ReplyReaders.SignalIs | gsm/gsm_utilities.c:7-18 | the signal strength is the number one character behind the first "+CSQ:", in 8 bits |
| ReplyReaders.NoSignal | gsm/gsm_utilities.c:7-18 | without "+CSQ:" it is 99, not known |
| ReplyReaders.OperatorIs | gsm/gsm_utilities.c:146-179 | the operator text reads the first 31 characters of the quoted name and then the rest of what stood there |
| ReplyReaders.NoOperator | gsm/gsm_utilities.c:146-179 | it reads empty without "+COPS:" or two quotes behind it |
| ReplyReaders.CcidIs | gsm/gsm_utilities.c:42-74 | the CCID is at most 19 digits of the number behind the first "+QCCID: " |
| ReplyReaders.NoCcidRead | gsm/gsm_utilities.c:42-74 | and empty without the tag or without a digit right behind it |
| ReplyReaders.ImeiIs | gsm/gsm_utilities.c:20-40 | the IMEI is the first 15 digits of the reply in order, over any text between them |
| Runs.BringUpCostsExactly | gsm/gsm_data_layer.c:171-453 | going from POWER_ON to OK takes 28 + b11 + b12 + b19 + b20 + 2*b23 callbacks; step 12 misses at most twice in the program's life |
| Runs.PowerCycleInFull | gsm/gsm_data_layer.c:652-705 | between entries to POWER_ON exactly eight RESET polls run power steps 0 to 7 in order, over at least 7000 ms |
| Runs.PoweredOutsideReset | gsm/gsm_data_layer.c:652-705 | at every moment outside RESET, so on every entry to POWER_ON, enable is high and reset and key are low; in RESET the pins are those of the power step reached |
| PowerCycle.NextPower | gsm/gsm_data_layer.c:62-65 | only polls touch the power history, one next step at a time, and POWER_ON is entered exactly by a poll of step 7 |
| BringUpCost.DecideCosts | gsm/gsm_data_layer.c:171-453 | every decision moves position and detours together by one callback |
| BringUpCost.NextCosts | gsm/gsm_data_layer.c:707-781 | every step keeps the callback count equal to position plus detours |
| LostLink.NextLost | gsm/gsm_data_layer.c:887-902 | in PPP mode and outside OK, no step leads to OK |
| Progress.LateRunProgress | gsm/gsm_hardware_layer.c:167-194 | an engine run that finds poll and command overdue calls somebody back or uses up one retry |
| Progress.CallbackInAnyRun | gsm/gsm_hardware_layer.c:81-197 | in any run whatever, as many late engine runs as retries are left deliver the callback; polls, early runs, bytes and PPP events may come in between |
| Progress.BackToReset | gsm/gsm_data_layer.c:707-743 | in any run a lost link that is being reopened or powered on again is back in RESET after as many late engine runs as its commands have retries |
| Progress.LostLinkResets | gsm/gsm_data_layer.c:707-743 | in numbers: 12 late runs end the dial chain, 30 end a power-on |
| Progress.ResetEnds | gsm/gsm_data_layer.c:652-705 | in any run as many due polls as power steps are left lead from RESET to POWER_ON |
| Reachability.OkReachableIff | gsm/gsm_data_layer.c:171-805 | at every moment of every run some future reaches OK if and only if the state is OK or PPP mode was never entered |
| Reachability.AnswerRuns | gsm/gsm_hardware_layer.c:105-150 | in AT mode a complete reply at the front of a restarted buffer is delivered, exactly, whatever older text stands behind it |
| Reachability.DecideForward | gsm/gsm_data_layer.c:171-453 | every step of the chain has a reply on which it moves on, but for at most two more CCID queries |
| ModemRing.PushAllRepresents | gsm/gsm_hardware_layer.c:253-264 | after any writes the indices are the counts modulo 1024 and the last 1023 bytes are in place, despite the extra zero |
| ModemRing.CopyIsExact | gsm/gsm_hardware_layer.c:283-300 | a reader gets the first min(len, n) of the last n bytes written, n = (written - read) mod 1024, overrun included |
| ModemRing.LosslessIff | gsm/gsm_hardware_layer.c:288-291 | nothing is lost if and only if fewer than 1024 bytes are unread |
| ModemRing.ZeroBehind | gsm/gsm_hardware_layer.c:253-264 | behind the last byte written stands a zero |
| ModemRing.ModemBuffer.FillRx | gsm/gsm_hardware_layer.c:253-264 | the in-place loop appends the chunk to the bytes written |
| ModemRing.ModemBuffer.CopyPppBuffer | gsm/gsm_hardware_layer.c:283-300 | the in-place loop copies exactly those bytes, advances the read count by as many and leaves the rest of the caller's buffer alone |
| DmaRx.DrainIsExact | Core/Src/usart.c:343-374 | with fewer than 768 new bytes the chunks are those bytes, in order, wrapped or not, on both sides of the counter reload |
| DmaRx.DrainLosslessIff | Core/Src/usart.c:343-374 | the exact condition for a lossless drain |
| DmaRx.ServedInTime | Core/Src/stm32l0xx_it.c:168-179 | if each half-transfer and transfer-complete interrupt is served before the next half fills, fewer than 768 bytes ever wait |
| ReceivePath.ReaderKeeps | gsm/gsm_hardware_layer.c:286-298 | each of the reader's small steps keeps the stream invariant |
| ReceivePath.PushKeepsReader | gsm/gsm_hardware_layer.c:253-264 | an interrupt between any two of those steps does not disturb the read |
| ReceivePath.EndToEnd | gsm/gsm_data_layer.c:1042-1060 | in every interleaving one split index k exists: bytes before k, and no others, went to the AT buffer, and pppos_input was given a prefix of the bytes from k on |
| ReceivePath.CaughtUp | gsm/gsm_hardware_layer.c:288-291 | a poller that finds the ring empty has taken every byte drained since the split |
| ReceivePath.PollerDelivers | gsm/gsm_data_layer.c:1048-1060 | in every run a call of the poller hands pppos_input exactly the next min(512, n) of the n bytes drained and not yet handed over |
| ReceivePath.PollerCatchesUp | gsm/gsm_hardware_layer.c:283-300 | in every run a poller left alone reaches the end of the ring |
| ReceivePath.InterruptDrains | Core/Src/usart.c:343-380 | a transfer interrupt with a flag up and every idle interrupt drain all there is, to the AT buffer or to the ring |
| ReceivePath.EverythingArrives | gsm/gsm_data_layer.c:1048-1060 | in every run one idle interrupt and a poller left alone bring every byte since the split to pppos_input |
| ReceivePath.DrainIsHeard | gsm/gsm_hardware_layer.c:247-281 | a drain in AT mode hands exactly the new bytes to the engine and raises its flag; in PPP mode only the flag |
| ReceivePath.EngineHearsTheStream | gsm/gsm_hardware_layer.c:247-281 | in every run the engine matches against the last bytes of the AT stream and no others |
| ReceivePath.SplitIsFixed | gsm/gsm_hardware_layer.c:253-279 | once PPP mode is set the AT buffer receives nothing more |
| ReceivePath.PunctualIsPossible | Core/Src/stm32l0xx_it.c:168-179 | in every run, interrupts served in time make every arrival meet the load assumption |
| ReceivePath.EndToEndInTime | Core/Src/stm32l0xx_it.c:149-204 | the end-to-end statement from interrupt latency alone, without the assumption on 768 bytes |
| UsartDevice.Usart.UartFillRx | gsm/gsm_hardware_layer.c:247-281 | one chunk goes to the ring in PPP mode and to the AT buffer otherwise |
| UsartDevice.Usart.RxCompleteCallback | Core/Src/usart.c:343-380 | routes exactly the chunks between the saved and the sampled position |
| UsartDevice.Usart.DmaInterrupt | Core/Src/stm32l0xx_it.c:168-186 | both flags at once drain the same bytes once; an error drains nothing |
| UsartDevice.Usart.PppPolling | gsm/gsm_data_layer.c:1048-1060 | passes on the next at most 512 readable bytes |
| GsmDevice.AtChannel.SendAtCmd | gsm/gsm_hardware_layer.c:211-238 | arms the command and clears the buffer; without timeout or callback changes nothing |
| GsmDevice.AtChannel.ResetRxBuffer | gsm/gsm_hardware_layer.c:204-209 | clears buffer, index and retry count and keeps the timeout |
| GsmDevice.AtChannel.FillRx | gsm/gsm_hardware_layer.c:265-279 | the in-place byte loop stores the chunk, overflow included |
| GsmDevice.AtChannel.HasReply | gsm/gsm_hardware_layer.c:105-135 | decides the matcher |
| GsmDevice.DataLayer.ChangeTo | gsm/gsm_data_layer.c:90-129 | the new state with its step, pins, buffer reset or first command |
| GsmDevice.DataLayer.PppLinkStatus | gsm/gsm_data_layer.c:831-967 | "closed by user" frees the block and reopens; "connection lost" closes the block, which reports that at once; the other codes change nothing |
| GsmDevice.DataLayer.CloseLink | lwip-2.1.2/src/netif/ppp/ppp.c:329-378 | ppp_close with a block in use, and the call without one |
| GsmDevice.DataLayer.PowerOnSequence | gsm/gsm_data_layer.c:652-705 | one power step |
| GsmDevice.DataLayer.StateMachinePolling | gsm/gsm_data_layer.c:41-72 | one poll of the state machine |
| GsmDevice.DataLayer.GsmConfigModule | gsm/gsm_data_layer.c:171-453 | the 24-step switch does what Decide decides |
| GsmDevice.DataLayer.GsmOpenPppStack | gsm/gsm_data_layer.c:707-805 | the four-step dial switch, with the block made and closed |
| GsmDevice.DataLayer.HwLayerRun | gsm/gsm_hardware_layer.c:81-197 | one engine run, callbacks re-arming the engine included |
| GsmDevice.DataLayer.UartFillRx | gsm/gsm_hardware_layer.c:247-281 | the engine's share of an arriving chunk |
| MqttClient.ConnectionSafety | mqtt_client/mqtt_client.c:295-436 | in every run RESOLVE has tick <= 4, CONNECTING tick <= 9, and each connect call comes at least 3 executed polls after the one before and after a DNS success later than the last exit from DISCONNECTED |
| MqttClient.ResolvedMeans | mqtt_client/mqtt_client.c:269-290 | that success is a DNS answer with no exit from DISCONNECTED after it |
| MqttClient.OnlyAcceptedConnects | mqtt_client/mqtt_client.c:131-162 | CONNECTED is entered only by an accepted broker callback |
| MqttClient.ConnectedLeftIff | mqtt_client/mqtt_client.c:34-71 | CONNECTED is left exactly by an executed poll that finds the client not connected, a refusal, the fifth failed subscribe, or the link coming back under a connected client |
| MqttClient.ConnectedIsAnswered | mqtt_client/mqtt_client.c:398-426 | after an executed poll CONNECTED means that the client said "connected" at that poll |
| MqttClient.ConnectedPoll | mqtt_client/mqtt_client.c:398-426 | what a poll of a connected client sends, and which periods it restarts |
| MqttClient.HeartBeatIff | mqtt_client/mqtt_client.c:415-420 | in every run the heartbeat goes out exactly when 30 s of true time have passed since the last |
| MqttClient.WaitingPoll | mqtt_client/mqtt_client.c:336-395 | what an executed poll does in DISCONNECTED, RESOLVE and CONNECTING |
| MqttClient.ConnectAfter | mqtt_client/mqtt_client.c:376-395 | CONNECTING calls connect at the poll that makes the tenth tick and not before: 1, 5 or 10 polls after it was entered, or after a call taken or refused |
| MqttClient.QueriesOften | mqtt_client/mqtt_client.c:341-374 | in every run RESOLVE queries the name server at the latest at every fifth executed poll |
| MqttClient.RestartPoll | mqtt_client/mqtt_client.c:313-325 | the link coming back under a connected client restarts with the name query |
| MqttClient.LinkDownPoll | mqtt_client/mqtt_client.c:326-333 | with the link down a poll does nothing but set the tick to 4 |
| MqttClient.PollTakesNews | mqtt_client/mqtt_client.c:302-310 | a due poll uses up the call to process at once; one that is not due does nothing |
| MqttClient.GoodNewsIsPrompt | mqtt_client/mqtt_client.c:131-141 | good news makes the very next poll due |
| MqttClient.FifthFailureDisconnects | mqtt_client/mqtt_client.c:34-71 | in every run failed subscribes are counted in fives since the last acknowledged one, and each fifth disconnects |
| MqttClient.ThreePollsIsTight | mqtt_client/mqtt_client.c:341-395 | a run from power-up whose second connect call comes exactly 3 executed polls after the first |
| MqttClient.MqttGatesAreExact | mqtt_client/mqtt_client.c:302-310 | the 1 s poll gate and the 30 s heartbeat gate follow true time across tick wraps |
| MqttClient.SubscribeGateIff | mqtt_client/mqtt_client.c:401-413 | for every period the periodic subscribe gate is right if and only if the end of the 32-bit period lies in the same turn of the tick and, if the period does not fit 32 bits, its remainder has not passed |
| MqttClient.FreshBaseIff | mqtt_client/mqtt_client.c:401-413 | with a base just replaced a request is due at once exactly for a period of 0 modulo 2^32 ms and for one that ends beyond the turn |
| MqttClient.SubscribeGateFailsAtWrap | mqtt_client/mqtt_client.c:409 | a concrete tick at which the 120 s gate opens after 1 s |
| MqttClient.MqttTask.PollingTask | mqtt_client/mqtt_client.c:295-436 | one call of the poll function |
| MqttClient.MqttTask.ConnectionResult | mqtt_client/mqtt_client.c:131-162 | the broker callback |
| MqttClient.MqttTask.DnsFound | mqtt_client/mqtt_client.c:269-290 | the DNS callback |
| MqttClient.MqttTask.SubscribeResult | mqtt_client/mqtt_client.c:34-71 | the fifth failed subscribe in a row disconnects |
| MpuLoad.LoadedAt | Drivers/CMSIS/Include/mpu_armv8.h:236-241 | loading region by region puts table[i] into region rnr+i and leaves every other region |
| MpuLoad.Mpu.OrderedCpy | Drivers/CMSIS/Include/mpu_armv8.h:270-277 | the word copy through the register windows fills exactly the addressed regions |
| MpuLoad.Mpu.LoadEx | Drivers/CMSIS/Include/mpu_armv8.h:285-308 | the banked load is the region-by-region load, for 1 and for 4 aliases |
| MpuLoad.SetMemAttr | Drivers/CMSIS/Include/mpu_armv8.h:169-180 | sets one of eight attributes and no other; an invalid index changes nothing |
| MpuLoad.AttributeLayout | Drivers/CMSIS/Include/mpu_armv8.h:169-180 | attributes 0 to 3 are the bytes of MAIR0 from the lowest on, 4 to 7 those of MAIR1 |
| MpuLoad.FourWindows | Drivers/CMSIS/Include/mpu_armv8.h:285-308 | which region each of the eight words from RBAR on addresses with four aliases |
| ByteLanes.OtherLanesStay | Drivers/CMSIS/Include/core_cm0plus.h:728-730 | storing one byte lane leaves the other three alone |
| ByteLanes.LaneLayout | Drivers/CMSIS/Include/core_cm0plus.h:728 | byte n of a word is bits 8(n mod 4) to 8(n mod 4) + 7, in literals |
| ByteLanes.StoreLayout | Drivers/CMSIS/Include/core_cm0plus.h:852-853 | a store puts the value into that byte and leaves the other three |
| NvicPriority.BitsSum | Drivers/CMSIS/Include/core_cm0plus.h:903-904 | in every group the two bit counts sum to the implemented bits |
| NvicPriority.DecodeEncode | Drivers/CMSIS/Include/core_cm0plus.h:897-935 | decoding an encoded priority returns both parts masked to their widths |
| NvicPriority.Groups | Drivers/CMSIS/Include/core_cm0plus.h:903-904 | the two widths in every group, in literals |
| NvicPriority.EncodeLayout | Drivers/CMSIS/Include/core_cm0plus.h:906-909 | the preemption priority stands above the subpriority |
| NvicPriority.SetThenGet | Drivers/CMSIS/Include/core_cm0plus.h:848-883 | a set priority is read back and no other interrupt or handler sees it |
| NvicPriority.PriorityLayout | Drivers/CMSIS/Include/core_cm0plus.h:848-860 | a priority goes, times 64, into byte irq mod 4 of its word; no other byte of either register block changes |
| NvicPriority.IpWords | Drivers/CMSIS/Include/core_cm0plus.h:730 | four interrupts to a word, from IP[0] on |
| NvicPriority.ShpWords | Drivers/CMSIS/Include/core_cm0plus.h:729 | the handlers from -8 to -5 in SHP[0], from -4 to -1 in SHP[1] |
| NvicPriority.PriorityRoundTrip | Drivers/CMSIS/Include/core_cm0plus.h:848-935 | Encode, Set, Get, Decode returns both parts and leaves every other priority |
| NvicPriority.Nvic.Set | Drivers/CMSIS/Include/core_cm0plus.h:848-860 | the register update |
| NvicPriority.Nvic.DecodePriority | Drivers/CMSIS/Include/core_cm0plus.h:924-935 | both out-pointers receive the decoded parts |
| BitLoops.ReversedTwice | Drivers/CMSIS/Include/cmsis_iccarm.h:511-522 | the reversal is its own inverse |
| BitLoops.LeadingOfReversed | Drivers/CMSIS/Include/cmsis_iccarm.h:496-522 | leading zeros of the reversed word are the trailing zeros of the word |
| BitLoops.Rbit | Drivers/CMSIS/Include/cmsis_iccarm.h:511-522 | the loop terminates with bit i of the input at bit 31-i |
| BitLoops.Clz | Drivers/CMSIS/Include/cmsis_iccarm.h:496-509 | the loop terminates with the number of leading zeros, 32 only for 0 |
| BitLoops.TrailingZeroCount | Drivers/CMSIS/Include/cmsis_iccarm.h:496-522 | CLZ after RBIT counts the zero bits below the lowest set bit |
| Utilities.GetNumberFromString | gsm/gsm_utilities.c:285-307 | the maximal digit run's value modulo 2^32, the wrap of the 16-bit index included, for every text on which the loop ends |
| Utilities.NumberRoundTrip | gsm/gsm_utilities.c:285-307 | parsing inverts decimal printing for every 32-bit number, anywhere in a reply |
| Utilities.GetImei | gsm/gsm_utilities.c:20-40 | the first maxLength - 1 digits, in a long text read round and round by the 8-bit counter, for every text on which the loop ends; the last NUL stands behind the digits met, so at index maxLength exactly with maxLength of them |
| Utilities.ImeiReadRight | gsm/gsm_utilities.c:20-40 | those are exactly the first min(#digits, maxLength - 1) digits of the text if it is below 256 characters or has enough digits among its first 256 |
| Utilities.ReplyFitsCounter | gsm/gsm_hardware_layer.c:141 | a reply handed to a callback has at most 255 characters, so that the 8-bit counter suffices |
| Utilities.GetSimCcid | gsm/gsm_utilities.c:42-74 | the leading digits after the tag, at most maxLength - 1 of them |
| Utilities.FindIndexOfChar | gsm/gsm_utilities.c:309-325 | the first index, or -1 |
| Utilities.Parameter | gsm/gsm_utilities.c:327-353 | which delimited text is copied, and that none is missed; equal delimiters need the text to start with one |
| Utilities.CopyParameters | gsm/gsm_utilities.c:327-363 | copies exactly the text between the two 16-bit indices, or fails and writes nothing |
| Utilities.WindowIsParameter | gsm/gsm_utilities.c:327-353 | those indices are the true ones while the closing delimiter stands below 32768, and always in a text shorter than that |

## Left out

- lwIP (PPP, TCP, DNS, MQTT, HTTP client): its callbacks and answers are arbitrary inputs, PPP's as long as there is a control block to call through; the status events that `ppp_close` and `ppp_connect` fire inside themselves are an arbitrary list handed to the call. Of lwIP itself only this is modelled: `ppp_close` of a block in the dead phase reports PPPERR_USER at once.
- GsmDevice.DataLayer.CloseLink: what a block in use reports while it is closed by a failed dial is an arbitrary list of codes (no run gets there); without a block `ppp_close` writes through a null pointer, which C leaves undefined: the model counts the call and lets it return, so that the statements about runs also cover a program that survives it.
- `gsm_hw_pppos_polling` hands bytes to `pppos_input` in PPP mode also when no block was made and after it was freed; the model lets these calls fire nothing.
- Interrupts inside the AT engine: `gsm_hw_layer_run` and the state machine are atomic calls; only the ring reader is cut into small steps. A byte that arrives while a command is being sent inside a callback, and is wiped by the clear behind it, is not modelled.
- DMA arrivals inside an interrupt handler: a drain samples the position and copies at once.
- The NULL reply of a TIMEOUT callback: several configuration steps read it; the text found there is an arbitrary input.
- Reads beyond the AT buffer: after an overflow the buffer may hold no NUL; the model's text then ends with the buffer.
- `gsm_utilities_get_network_operator` and `gsm_utilities_get_network_access_tech` with more quotes or commas than their index arrays hold: further ones are ignored.
- A failed `pppos_create` reboots the program; the model takes creation to succeed.
- The transmitted bytes: each transmission is in the log with its command text and its time. The early return of `gsm_hw_send_at_cmd` transmits with the wrong length; no caller uses it.
- The other values of `gsm_state_t`, which are never assigned; the MC60 configuration chain, the unlock-band and CUSD branches, `usart1_control(false)` and the DMA transmit branch, which are not compiled in.
- `rnr & ~(MPU_TYPE_RALIASES-1)` is written as rounding down to a multiple of the alias count, which is the same for 1 and 4; stores beyond the last region are excluded, as the architecture leaves them undefined.
- The client calls that the MQTT callbacks make themselves (`mqtt_subscribe` on acceptance and after a failed subscribe, `mqtt_disconnect`): they change no state of the machine.
- UsartDevice.Usart.RxCompleteCallback: the flag that a false status clears restarts nothing and is not modelled.
- Utilities.GetNumberFromString: a text with 65536 digits in front is excluded, because the loop never ends on it.
- Utilities.GetImei: a text of 256 characters or more without a digit among its first 256 is excluded, because the loop never ends on it; so is an array without room for the digits met and a NUL.
- The NUL that the IMEI reader writes behind a 16-byte array: which static it hits is up to the linker, and the state of the machine ignores it.
- Utilities.CopyParameters: a text in which the 16-bit index of the opening delimiter wraps to a negative value other than -1 and something would be copied is excluded, because the copy starts before the text.
- `app_http`, SNTP stubs, debug output, register setup, getters and setters: nothing that spans operations.
- The parsers that only locate a tag and hand on a pointer (CUSD, httpread, qfile).
