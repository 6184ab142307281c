# A verified model of the secure OTA system

Dafny 4.11. `dafny verify dfyconfig.toml` checks everything.

The system updates ESP32-C6 Zigbee devices over the air. A server (Python) and a device (ESP-IDF, C)
first agree on a provisioning context, a pair of a counter and eight random bytes, through a
Zigbee2MQTT bridge (JavaScript). From that context both derive the keys that authorize a download.

## What is modelled

* **Provisioning.** `DeviceSession` (the secure session), `Device` (the tasks of the ESP, cut into stages,
  and restarts), `OtaControl` (the ESP's variables as a class), `Listener` (the server's session table, its
  callback and timeout threads), `ListenerCallbacks` (its callbacks as methods), `ProvisioningRun` (both
  machines and lossy channels), `LastingAgreement` (what comes after a concluded attempt), `LastKnownGood`,
  `CounterCell` (the unlocked counter), `CounterFreshness`, `EnableGeneration`, `Interference`, and with
  `Continuation` the runs that break agreement: `Preemption` (disturbed callbacks) and `RepeatedNumbers`
  (late counter commits). `HelloAttempt` (the HELLO task and single frames on the ESP alone), `ServedSessions`
  and `Recovery` (no session waits in vain, no run is a dead end).
* **Downloads.** `CheckWire` (the CHECK frame from the server's context to the token on the ESP),
  `Grants` (tables, HTTPS threads, listener, observer and maintenance as one transition system),
  `GrantedDownload` (one grant from its insertion to its confirmation), `Install` (the streaming loop on the ESP).
* **Codecs.** `Base64Url`, `ProvisionPlain`, `Frames` (frame budget and bridge), `Canonical` and
  `Enrollment` (signed and MACed byte strings), `DeviceIds`.
* **Catalogue.** `Version`, `ImageCodes`, `Revisions`, `Dedup`.

State machines are functions from a state and an event to a state; a run is a sequence of events, and
the results are about all runs. Code that updates variables in place is also given as methods of a
class with those variables, each proved equal to the function the results are about.

Cryptography is symbolic in the machines: a signature is the pair it signs, a sealed plaintext carries
the pair whose key sealed it, and only what the server signed or sealed verifies on the ESP.
`Canonical` shows that the real byte strings determine these pairs. In `CheckWire` HMAC is an arbitrary
function with 32-byte results, and the rejection of foreign frames is stated up to a collision at a
named place.

The uplink is a queue that loses frames and may deliver the last one again but keeps the order; the
downlink delivers anything the server signed or sealed, in any order, any number of times.

## Findings

* The agreement of the two contexts needs the ESP's workers to be calm while a P callback is under way:
  no reset of the session between its two NVS writes, no status report of the HELLO task right before its
  own. `Device.Calm` lists these steps. Between the writes exactly these do harm to the commit
  (`Interference.StoredAttemptSurvivesExactlyCalmSteps`), and from every calmly reached state in which the
  server, with no callback under way, waits for the end of this very attempt, each of them can be continued to
  a run that breaks agreement (`Preemption.ExcludedStepBreaksAgreement`). So can the report behind the commit,
  from every calmly reached state in which it is due and the cell was not moved back
  (`Preemption.DisturbedReportBreaksAgreement`).
* A disturbance does not last: from any state in which no attempt is under way on the ESP and its status is not
  0x42, as after each restart, the agreement holds again for all attempts that follow undisturbed
  (`ProvisioningRun.AgreementInWindow`). Of a concluded attempt the agreement of the keys asks nothing of the
  scheduler or the cell (`ProvisioningRun.KeyAgreement`), and once concluded undisturbed it lasts through every
  disturbance until the next commit (`LastingAgreement.KeyAgreementLasts`). And every run in which the cell was
  not moved back can be continued calmly to a new concluded attempt (`Recovery.EveryRunCanConclude`).
* Last known good fails with such resets: switching provisioning off and on while the P frame is under way can
  replace a good durable context by a pair (counter, 0) that was never authenticated, because the commit
  stores whatever counter and random RAM holds at that moment (`Interference.TogglingCanDestroyKeys`).
* The counter cell is read and written back without a lock by two tasks, HELLO and boot status. The numbers
  rise exactly if each commit finds the cell as its task read it (`CounterCell.NumbersRiseExactlyInTurn`).
  Else an H and an S frame can share a number (`CounterCell.TwoFramesShareNumber`), which does no harm as
  each kind has its own mark, or the cell can fall back by any amount (`CounterCell.LateCommitSetsBack`).
  Then a new H frame or S frame can be stale (`RepeatedNumbers.RepeatIsStale`,
  `RepeatedNumbers.StatusIsStale`), the durable context can be turned back
  (`CounterCell.LowerNumberTurnsContextBack`), and agreement breaks in otherwise calm runs
  (`RepeatedNumbers.RepeatBreaksAgreement`, `RepeatedNumbers.RepeatedNumberBreaksAgreement`). So freshness,
  order of commits and agreement ask that the numbers of a kind renew (`Device.Renews`), which runs in turn
  do (`CounterCell.InTurnRunsRenew`). `CounterFreshness.AcceptedOnce`, `LastKnownGood.RecordsTell`, the
  authenticity of commits and the keys after a callback ask for nothing of the cell.
* A reset behind the commit costs the new keys exactly if it comes before the context is copied
  (`ProvisioningRun.KeyAgreement`, `LastKnownGood.KeysAfterCallback`).
* A download grant stays usable for the rest of its lifetime after a complete transfer exactly if a transaction
  behind the transfer raises or comes too late: an exception while DOWNLOAD_COMPLETED is written skips the
  consumption (`Grants.CompleteTransferSpendsExactly`).
* A restart between the T frame and the snapshot of the context leaves the ESP on its older keys exactly
  if it had a durable context before (`LastKnownGood.CutCallback`).
* `context_v1` is also written when a CHECK finds it missing, not only by accepted P frames
  (`LastKnownGood.ContextChanges`, `LastKnownGood.RecoveryWritesContext`).
* The server sends P frames of up to 73 encrypted bytes, the ESP's buffer holds 72; frames whose first
  radio byte is 'C' or 'D' are taken for text (`Frames.ProvisioningTransparent`).
* A NUL byte ends an SSID, password, host or version early on the ESP
  (`ProvisionPlain.PlaintextRoundTrip`, `CheckWire.CheckReachesDevice`).
* `version_is_newer` is not an order off canonical dotted decimals, and it clamps components at
  2^32 - 1 (`Version.NewerHasCycles`, `Version.LargeComponentsClamp`).
* README.md:282 of the repository says that a newer H replaces an unfinished attempt; the listener
  ignores H while a session is active (mqtt_listener.py:321-325). The model follows the code.

## Model

| member | source | states |
|---|---|---|
| ProvisioningRun.AgreementInWindow | mqtt_listener.py:186-216 | Whatever happened before: from any state in which no attempt is under way on the ESP and its status is not 0x42, through calm steps with renewed H numbers, a context the server saves for an H frame accepted since is the attempt of a P frame that the ESP authenticated, stored and committed since, and the ESP has committed nothing older since |
| ProvisioningRun.Agreement | mqtt_listener.py:186-216 | In every calm run whose H numbers renew, a context the server made durable is the attempt of a P frame that the ESP authenticated, stored and committed, and the ESP has committed nothing older since |
| ProvisioningRun.ConfigurationsAreSealed | esp_component/jarzem_secure_ota/src/ota_secure_session.c:200-214 | In every run, each authenticated P frame is one the server sealed for that attempt, and the stored configuration is the one parsed from the last of them |
| ProvisioningRun.KeyAgreement | ota_check_security.py:72-104 | In every run, calm or not: once the server saved the attempt the ESP committed last and the callback ended, both sides derive their CHECK keys from it iff no reset came before the attempt was copied to the durable context |
| Recovery.EveryRunCanConclude | mqtt_listener.py:241-366 | From every state of every run, calm or not, in which the counter cell was not moved back, and for every plaintext that parses, a calm continuation provisions the ESP: both sides then have the context of a new attempt and the ESP stores exactly this configuration |
| ServedSessions.SessionsAreServed | mqtt_listener.py:297-366 | In every run, whenever the callback thread is at rest, a session in WAIT_RESPONSE is one whose challenge was sent and a session in PROVISIONING_SENT one for which a plaintext was sealed and sent, so no attempt whose own frame could not be built or published blocks the next H frames |
| LastingAgreement.KeyAgreementLasts | esp_component/jarzem_secure_ota/src/ota_check_auth.c:201-231 | After an attempt of such a window that is concluded and copied, the agreement survives every continuation, calm or not: lost frames, replays, toggles, resets inside a later P callback, late counter commits, timeouts, restarts of either side, until the ESP commits a later attempt |
| LastingAgreement.NothingFinishes | mqtt_listener.py:197-205 | In such a continuation a T frame with status 0x42 never meets a session that it could finish |
| ProvisioningRun.StepKeeps | mqtt_listener.py:241-366 | Every calm step of ESP, channel, callback thread, timeout thread and listener restart that renews H numbers keeps the joint invariant of the attempts of a window |
| ProvisioningRun.RunIsBased | mqtt_listener.py:241-366 | In every run, calm or not, the server keeps its session discipline, and every response on the ESP, under way or held by the server goes back to a challenge that the server signed |
| ProvisioningRun.WindowOpens | esp_component/jarzem_secure_ota/src/zigbee_ota_cluster.c:408-409 | Any such state of any run starts a window in which the joint invariant holds |
| ProvisioningRun.FinishIsTrue | mqtt_listener.py:197-205 | A T frame with status 0x42 that meets a session of the window in PROVISIONING_SENT reports exactly this session's attempt, although the frame carries no counter |
| ProvisioningRun.DeviceReports | esp_component/jarzem_secure_ota/src/zigbee_ota_control.c:77-98 | A T frame with status 0x42 leaves the ESP, in a calm step that renews H numbers, only when every response of the window under way or held by the server belongs to a committed or overtaken attempt |
| Preemption.ExcludedStepBreaksAgreement | esp_component/jarzem_secure_ota/src/zigbee_ota_control.c:170-191 | From every calmly reached state in which the ESP stands between the two NVS writes and the server waits for the end of that attempt, every step that `Device.Calm` excludes has a calm continuation in which the server stores the context and the ESP never commits it |
| Preemption.DisturbedReportBreaksAgreement | esp_component/jarzem_secure_ota/src/zigbee_ota_cluster.c:408-420 | From every calmly reached state in which the callback stands before its report and the cell was not moved back, the excluded report of the HELLO task has a calm continuation in which the server stores the context of an attempt that the ESP never authenticated nor committed |
| Preemption.ReportIsDue | esp_component/jarzem_secure_ota/src/zigbee_ota_cluster.c:408-420 | Such a state is calmly reached, for every plaintext that parses |
| RepeatedNumbers.RepeatBreaksAgreement | esp_component/jarzem_secure_ota/src/zigbee_ota_cluster.c:365-379 | From every calmly reached state in which the HELLO task is about to commit the number of an attempt sealed before, while the server waits for a later one, a calm continuation makes the server store that later context, which the ESP never commits |
| RepeatedNumbers.RepeatedNumberBreaksAgreement | esp_component/jarzem_secure_ota/src/device_identity.c:85-101 | For every plaintext that parses there is a whole calm run, from the first boot, that ends so |
| RepeatedNumbers.RepeatIsStale | device_registry.py:220-235 | The repeated H frame is the newest one under way, and its number is already below the server's mark |
| RepeatedNumbers.StatusIsStale | device_registry.py:238-253 | From every state in which the HELLO task read the cell so long ago that a later S number was accepted since, its late commit makes the next S frame one that the server must refuse |
| RepeatedNumbers.NewStatusCanBeStale | device_registry.py:238-253 | A calm run from the first boot ends so |
| Preemption.DisturbedCallbackBreaksAgreement | esp_component/jarzem_secure_ota/src/zigbee_ota_control.c:170-191 | For every plaintext there is a whole run from the first boot in which the server stores a context that the ESP never commits nor derives keys from |
| Interference.StoredAttemptSurvivesExactlyCalmSteps | esp_component/jarzem_secure_ota/src/ota_secure_session.c:200-225 | Whatever steps of other tasks, in any number, fall between the two NVS writes, the commit adds exactly the authenticated attempt iff `Device.Calm` allows every one of them; only for the random 0 must H numbers renew |
| Interference.LateResetLosesContext | esp_component/jarzem_secure_ota/src/zigbee_ota_control.c:94-116 | A reset between the commit and the copy keeps the new context from being stored by any further effect of the callback, and its keys are lost |
| Interference.ResetBehindCopyIsHarmless | esp_component/jarzem_secure_ota/src/zigbee_ota_control.c:94-116 | Once the new context is copied, the same reset leaves context and keys alone |
| Interference.TogglingCanDestroyKeys | esp_component/jarzem_secure_ota/src/ota_secure_session.c:205-214 | From every state that waits for its P frame with no number above the cell, and for every frame it accepts, there is a run (off, on, P frame, HELLO task and apply task inside the callback) that replaces the durable context by a pair that was never authenticated |
| Interference.ResetInsideCallbackDestroysKeys | esp_component/jarzem_secure_ota/src/ota_secure_session.c:211-212 | The same from every state that stands between the two NVS writes after such toggles, whatever durable context it had |
| EnableGeneration.OnlyLatestCommandActs | esp_component/jarzem_secure_ota/src/zigbee_ota_control.c:170-179 | In any run without restart, a delayed apply task acts iff the generation advanced a multiple of 2^32 times since it was started |
| EnableGeneration.CommandAdvances | esp_component/jarzem_secure_ota/src/zigbee_ota_control.c:236-243 | Every command advances the generation once and starts a task of the new one |
| CounterFreshness.NewFramesAreNeverStale | device_registry.py:220-253 | In every run in which the numbers of its kind renew, a frame H or S that is delivered for the first time carries a counter above the server's mark of that kind, whatever the other kind does with the shared cell |
| CounterFreshness.InTurnRunsRenew | esp_component/jarzem_secure_ota/src/device_identity.c:85-101 | In every run of the system in which each commit finds the cell as it was read, the numbers of both kinds renew |
| CounterFreshness.AcceptedOnce | device_registry.py:220-253 | Whatever arrives, the accepted H counters rise strictly and so do the accepted S counters: none is accepted twice |
| CounterCell.NumbersRiseExactlyInTurn | esp_component/jarzem_secure_ota/src/device_identity.c:85-101 | Over every run with restarts, the numbers taken from the NVS cell rise strictly iff each commit finds the cell as its task read it |
| CounterCell.TwoFramesShareNumber | esp_component/jarzem_secure_ota/src/ota_boot_status.c:81-108 | From every state in which the HELLO task is about to send and the status task about to read, an interleaving sends an S frame and an H frame with the same number |
| CounterCell.LateCommitSetsBack | esp_component/jarzem_secure_ota/src/device_identity.c:91-97 | However many numbers the HELLO task takes in between, a late commit of the status task sets the cell to one above what that task had read |
| CounterCell.InTurnRunsRenew | esp_component/jarzem_secure_ota/src/device_identity.c:85-101 | In a run in turn H numbers renew, S numbers renew, none falls behind the durable context, and no number on the ESP is above the cell |
| CounterCell.LowerNumberTurnsContextBack | esp_component/jarzem_secure_ota/src/ota_check_auth.c:183-214 | From every idle state in which the HELLO task is about to commit a number below that of the durable context, an attempt with it can turn the context back |
| CounterCell.FramesCarryTaken | esp_component/jarzem_secure_ota/src/zigbee_ota_cluster.c:358-386 | Every H or S frame carries the number that its task commits in this step, one above what it read, and nothing but such a commit changes the cell |
| LastKnownGood.ProvisioningChanges | esp_component/jarzem_secure_ota/src/ota_secure_session.c:200-214 | In any state, an event changes the stored configuration exactly if it is an authentic, accepted P frame, and then to the parsed plaintext |
| LastKnownGood.ContextChanges | esp_component/jarzem_secure_ota/src/ota_check_auth.c:201-231 | In any state, an event changes the durable context exactly in the P callback or when a CHECK recovers a missing one, and then to the state record |
| LastKnownGood.FailedAttemptsChangeNothing | esp_component/jarzem_secure_ota/src/ota_secure_session.c:216-225 | Any mixture of toggles, stale or forged frames, timeouts and restarts without an accepted P frame leaves configuration and context as they were |
| LastKnownGood.RecordsTell | esp_component/jarzem_secure_ota/src/ota_secure_session.c:102-115 | In every run a state record marked PROVISIONED is the last committed attempt, the durable context is a committed one, and the stored configuration came with the last authenticated P frame |
| LastKnownGood.CommitsAreAuthentic | esp_component/jarzem_secure_ota/src/ota_secure_session.c:200-214 | From any state of any run with no P callback before its commit, through calm steps, attempts are committed only after their P frame was authenticated, and a record of them marked PROVISIONED belongs to the stored configuration; they are committed in counter order if a window is open and H numbers renew |
| LastKnownGood.KeysAfterCallback | esp_component/jarzem_secure_ota/src/ota_check_auth.c:201-231 | In every run, calm or not, after a callback that ran to its end the ESP's keys are those of the attempt it committed last iff no reset came before the copy and none left the commit without a number |
| LastKnownGood.ContextMonotone | esp_component/jarzem_secure_ota/src/ota_check_auth.c:183-214 | In every run, calm or not, in which no HELLO task commits a number below it, the durable context once there stays there and its counter never decreases |
| LastKnownGood.CutCallback | esp_component/jarzem_secure_ota/src/zigbee_ota_cluster.c:167-181 | A restart after k effects of the P callback leaves the new keys exactly if k >= 3, or k >= 1 and there was no older durable context |
| LastKnownGood.RecoveryWritesContext | esp_component/jarzem_secure_ota/src/ota_check_auth.c:216-231 | After a first provisioning cut at its commit, the next CHECK writes the durable context |
| Device.StepKeeps | esp_component/jarzem_secure_ota/src/zigbee_ota_control.c:77-191 | Every calm event of the ESP that renews H numbers keeps, for the commits of a window: counter order, records that name committed attempts, and a status 0x42 that belongs to the attempt of the last H frame |
| Device.SentTellsStatus | esp_component/jarzem_secure_ota/src/zigbee_ota_control.c:70-75 | A frame tells the state after its step: T the flag and the status, H and S the number just taken, R an attempt that was challenged |
| Device.HistoryGrows | esp_component/jarzem_secure_ota/src/ota_secure_session.c:211-212 | Only the commit of the P callback adds a completed attempt, namely the session's counter and random |
| Device.StepSourced | esp_component/jarzem_secure_ota/src/ota_secure_session.c:177-198 | A session that waits for its P frame, or a response that waits to be sent, goes back to a verified A frame |
| Device.HelloIsBackground | esp_component/jarzem_secure_ota/src/zigbee_ota_cluster.c:388-441 | The HELLO task never changes configuration, durable context, completed attempts or a session that waits for P |
| Device.ApplyIsBackground | esp_component/jarzem_secure_ota/src/zigbee_ota_control.c:170-191 | The apply task never changes configuration, durable context, completed attempts, and only resets a session that waits for P |
| HelloAttempt.EndingStatusesDisable | esp_component/jarzem_secure_ota/src/zigbee_ota_control.c:45-98 | A new status switches Enable OTA off exactly if it is 0x42, 0xC2 or 0xC6, the command number advances exactly if the flag changed, and the T frame tells both; a known status does nothing |
| HelloAttempt.UnansweredAttemptEnds | esp_component/jarzem_secure_ota/src/zigbee_ota_cluster.c:388-441 | A whole HELLO task alone, from any state: the T and H frames it sends, in order, and the state it leaves, with 0xC6 when its time is over and 0xC2 when no H frame could leave, in both cases with Enable OTA off and the session idle |
| HelloAttempt.ExpiredAttemptEnds | esp_component/jarzem_secure_ota/src/zigbee_ota_cluster.c:429-441 | An attempt whose time is over ends with a T frame of status 0xC6 with the flag off, and the session is forgotten |
| HelloAttempt.WaitEndsExactly | esp_component/jarzem_secure_ota/src/zigbee_ota_cluster.c:424-431 | The task waits exactly while the flag is on, the session is not provisioned and there is time; switched off or provisioned it ends without a frame |
| HelloAttempt.HelloStartsExactly | esp_component/jarzem_secure_ota/src/zigbee_ota_control.c:180-187 | A HELLO task starts exactly when the apply task finds the flag on and no such task running |
| HelloAttempt.ChallengesTakenExactly | esp_component/jarzem_secure_ota/src/ota_secure_session.c:177-198 | An A frame changes the ESP exactly while the flag is on, no P callback runs and the session waits for this signed pair |
| HelloAttempt.FramesTakenExactly | esp_component/jarzem_secure_ota/src/ota_secure_session.c:200-211 | A P frame is taken exactly while the session waits for this sealed pair, if its plaintext parses |
| HelloAttempt.RestartIsBoot | esp_component/jarzem_secure_ota/src/ota_secure_session.c:164-168 | A restart is a first boot with the cell, records and configuration of NVS |
| DeviceSession.AcceptChallenge | esp_component/jarzem_secure_ota/src/ota_secure_session.c:177-198 | A challenge is accepted only for the session's own counter, and the session key is that of the signed pair |
| DeviceSession.OpenProvisioning | esp_component/jarzem_secure_ota/src/ota_secure_session.c:200-211 | A P frame opens only in WAIT_PROVISIONING and under the session's own counter and random |
| DeviceSession.OtaSecureSession.Init | esp_component/jarzem_secure_ota/src/ota_secure_session.c:164-168 | After a restart RAM is clear, the records stay, and the state is PROVISIONED iff a configuration is stored |
| DeviceSession.OtaSecureSession.BeginHelloAttempt | esp_component/jarzem_secure_ota/src/ota_secure_session.c:170-175 | New static variables and record, or the error with nothing changed |
| DeviceSession.OtaSecureSession.Challenge | esp_component/jarzem_secure_ota/src/ota_secure_session.c:177-198 | New static variables, record and response, or the error with nothing changed |
| DeviceSession.OtaSecureSession.Provision | esp_component/jarzem_secure_ota/src/ota_secure_session.c:200-214 | Both NVS writes and the cleared key, or the error with nothing changed |
| DeviceSession.OtaSecureSession.Reset | esp_component/jarzem_secure_ota/src/ota_secure_session.c:216-219 | Back to IDLE unless PROVISIONED, configuration kept |
| DeviceSession.OtaSecureSession.Reprovision | esp_component/jarzem_secure_ota/src/ota_secure_session.c:221-225 | Back to IDLE from any state, configuration kept |
| OtaControl.ZigbeeOtaControl.ReportStatus | esp_component/jarzem_secure_ota/src/zigbee_ota_control.c:77-92 | Status, enable flag, generation and T frame as in the machine: a terminal status switches provisioning off |
| OtaControl.ZigbeeOtaControl.SetEnabled | esp_component/jarzem_secure_ota/src/zigbee_ota_control.c:100-116 | Enable flag, generation, T frame and snapshot as in the machine |
| OtaControl.ZigbeeOtaControl.HandleSetAttr | esp_component/jarzem_secure_ota/src/zigbee_ota_control.c:224-243 | A write from Home Assistant sets the flag and starts an apply task of the newest generation |
| OtaControl.ZigbeeOtaControl.SnapshotContext | esp_component/jarzem_secure_ota/src/ota_check_auth.c:201-214 | The durable context becomes the state record if that is a completed one, else it stays |
| OtaControl.ZigbeeOtaControl.CommitCounter | esp_component/jarzem_secure_ota/src/device_identity.c:93-97 | The cell becomes one above a value read earlier, up to date or not, and that is the answer |
| OtaControl.ZigbeeOtaControl.SendHello | esp_component/jarzem_secure_ota/src/zigbee_ota_cluster.c:358-386 | Counter, session and H frame as after the machine's two stages, read and commit, with nothing in between; a counter taken for a refused frame is not given back |
| OtaControl.ZigbeeOtaControl.ProcessChallenge | esp_component/jarzem_secure_ota/src/zigbee_ota_cluster.c:155-166 | The A branch changes the session as in the machine and schedules exactly its response |
| OtaControl.ZigbeeOtaControl.ProcessProvisioning | esp_component/jarzem_secure_ota/src/zigbee_ota_cluster.c:167-181 | The P branch is the machine's acceptance followed by its four effects, and it sends exactly their frames |
| OtaControl.AcceptedFrameReports | esp_component/jarzem_secure_ota/src/zigbee_ota_control.c:77-116 | An accepted P frame whose callback nothing preempts, from every state: exactly one T frame leaves, with status 0x42 and the flag off, and configuration, state record and durable context are those of the attempt |
| Listener.SessionDiscipline | mqtt_listener.py:158-169 | Over every interleaving: sessions of a device have increasing counters, leave the table at most once, only removed ones are saved, in increasing order, and the durable context is the last one saved |
| Listener.OnlyFinishSaves | mqtt_listener.py:200-216 | A context is saved only by the callback that took a PROVISIONING_SENT session out of the table, and only a T frame with status 0x42 takes it out |
| Listener.SessionsDiffer | mqtt_listener.py:350-354 | Two sessions of one device never share a counter, so comparing attempts is comparing session objects |
| Listener.SessionsTimeOutExactly | mqtt_listener.py:158-170 | In every run a round of the timeout thread takes a session out exactly if it is at least 120 seconds old |
| Listener.ContinueSends | mqtt_listener.py:335-372 | The server publishes challenges and provisioning only for sessions that it started |
| Listener.RunKeeps | mqtt_listener.py:241-372 | The session discipline holds after every sequence of frames, callback sections and timeouts |
| Listener.SessionTable.Store | mqtt_listener.py:350-354 | A session is stored iff none is there; other devices' entries stay |
| Listener.SessionTable.Advance | mqtt_listener.py:297-302 | The session advances to PROVISIONING_SENT iff it is still the one in the table and waits for a response |
| Listener.SessionTable.Discard | mqtt_listener.py:290-292 | Only the very session is removed |
| Listener.SessionTable.TakeFinished | mqtt_listener.py:200-205 | A PROVISIONING_SENT session is taken out, any other stays |
| Listener.SessionTable.TakeExpired | mqtt_listener.py:158-166 | One round of the timeout loop takes out exactly the sessions that are 120 seconds old |
| ListenerCallbacks.ProvisioningServer.HandleControlState | mqtt_listener.py:186-216 | Session table and durable contexts after an undisturbed T frame are those of the machine; other devices' entries stay |
| ListenerCallbacks.ProvisioningServer.HandleResponse | mqtt_listener.py:280-319 | Session table and published P frame after an undisturbed response are those of the machine |
| ListenerCallbacks.ProvisioningServer.HandleHello | mqtt_listener.py:321-366 | High-water mark, session table and published challenge after an undisturbed hello are those of the machine |
| ListenerCallbacks.ProvisioningServer.AcceptHelloCounter | device_registry.py:220-235 | A counter is accepted iff it is above the mark, which then rises to it; other devices' marks stay |
| ListenerCallbacks.ResponseComesTo | mqtt_listener.py:280-319 | What an undisturbed R frame comes to, for every session and every failure: verification, P frame, and whether the session stays, advances or is removed |
| ListenerCallbacks.HelloComesTo | mqtt_listener.py:321-366 | What an undisturbed H frame comes to: ignored, stale, or accepted, and then whether the A frame leaves and the session stays |
| ListenerCallbacks.ControlComesTo | mqtt_listener.py:186-216 | What an undisturbed T frame comes to: exactly 0x42 with the flag off ends a session whose P frame was sent, and saves its context exactly if the transaction commits |
| Grants.OneTimeGrants | ota_check_security.py:150-215 | Over every interleaving a download starts and a grant is consumed by a clock reading at most 300 seconds after the grant's creation, and nothing is served or consumed with a token after its consumption |
| Grants.ConsumedTokensNeverValidate | ota_check_security.py:176-195 | A consumed token never validates again, whatever clock a delayed transaction goes by |
| Grants.TokensValidateExactly | ota_check_security.py:176-195 | In every run a token validates by a clock iff its row is still there, fits device, code and image, the clock is within 300 seconds of the creation, and no consumption of it was committed |
| Grants.CompleteTransferSpendsExactly | server_mysql.py:488-501 | Whatever other threads, maintenance and time do between the two transactions behind a complete transfer, the grant's row is there and unconsumed in the end iff it was before the second one and the write of DOWNLOAD_COMPLETED raised, the consumption raised, or it came after the 300 seconds |
| Grants.SpentTokensNeverValidate | server_mysql.py:494-501 | Once the handler of a complete transfer ran its consumption without an exception, the token never validates again by any clock read from then on, for any device, code or image |
| Grants.ClearedTokensNeverValidate | server_mysql.py:238-280 | Maintenance that deletes a grant withdraws its token for good |
| Grants.MaintenanceDeletesExactly | server_mysql.py:238-280 | Which grants and status rows each maintenance target deletes, and that it changes nothing else |
| GrantedDownload.InsertedTokenValidatesExactly | ota_check_security.py:156-195 | A grant inserted with a new token: in every continuation and by every clock the token validates exactly for the device, code and image it was inserted for, up to 300 seconds after its creation, while its row is there and not consumed; right behind the insertion it does |
| GrantedDownload.InsertedRowJoinsExactly | ota_check_security.py:226-257 | The inserted row joins for exactly this device and random once device and image have a status row |
| GrantedDownload.DownloadsStartExactly | server_mysql.py:453-468 | In every run a file is served exactly if the transaction goes through, the file is there, and the row was issued for this device, code and image, is unconsumed and not older than 300 seconds |
| GrantedDownload.UndisturbedHandler | server_mysql.py:458-501 | An undisturbed handler of a request that fits serves the file and leaves DOWNLOAD_COMPLETED and a consumed grant, DOWNLOAD_FAILED and a usable grant, or DOWNLOAD_STARTED, as the transfer went |
| GrantedDownload.CompleteDownloadIsConfirmed | ota_check_security.py:226-257 | Behind it the F branch finds the grant by the random of the ESP and confirms it exactly if the transfer was complete |
| GrantedDownload.NewCheckWithdrawsCompletion | mqtt_observer.py:118-140 | A CHECK sent anew for the same device and image withdraws a completion that is not yet confirmed |
| Grants.ConfirmationsAreBacked | mqtt_listener.py:252-278 | For each device and image, confirmations never outnumber completed downloads, and each names a grant of that device and image that was consumed before |
| Grants.StepKeeps | server_mysql.py:453-501 | Every transaction of threads, listener, observer and maintenance keeps the grant invariant |
| Grants.BalanceKeeps | activity.py:90-109 | Every transaction keeps the count of confirmations below the count of completions, with the F lookup and its status write apart |
| Grants.LookUpIsBacked | ota_check_security.py:226-257 | The F lookup succeeds only for a grant consumed earlier |
| Grants.Database.ValidateDownloadToken | ota_check_security.py:176-195 | True iff an unconsumed, unexpired row matches token, code, device and image |
| Grants.Database.ConsumeDispatchToken | ota_check_runtime.py:79-96 | The matching usable row, and no other, is marked consumed; the answer says whether there was one |
| Grants.SecureOtaHandler.CopyFile | server_mysql.py:474-501 | The blocks before a failed write are sent in order; a complete transfer records DOWNLOAD_COMPLETED and, unless that raised, consumes the grant; a lost peer records DOWNLOAD_FAILED |
| Grants.WiresAreHandedOutOnce | ota_check_runtime.py:47-64 | A CHECK wire is handed out at most as often as it was created |
| Grants.PendingWires.MakeCheckPayload | ota_check_runtime.py:59-64 | The stored wire, or nothing, and the entry is gone |
| CheckWire.CheckReachesDevice | ota_check_security.py:118-148 | With equal contexts the ESP derives exactly the grant's token for a newer version and skips any other, for a frame exactly if its version has no NUL |
| CheckWire.OtherContextIsRejected | esp_component/jarzem_secure_ota/src/ota_check_auth.c:395-430 | With another context the ESP answers MAC mismatch, unless HMAC collides on two named inputs |
| CheckWire.ForeignMacIsRejected | esp_component/jarzem_secure_ota/src/ota_check_auth.c:395-430 | Any frame with the MAC of another authorization, of this device or of another, is answered by MAC mismatch, unless device, context, version, code and random all agree or HMAC collides at one of three named places |
| CheckWire.TokensTellGrants | esp_component/jarzem_secure_ota/src/ota_check_auth.c:436-456 | Two authorizations yield one token only if they agree in device, context, version, code and random, or HMAC collides: on two session keys, on two token keys, or in the 12 bytes of the token |
| CheckWire.TokensAreSeparate | ota_check_security.py:14-17 | The token key is no CHECK key, and no token is the front of a CHECK MAC, up to a named collision |
| CheckWire.AcceptedFramesAreAuthorized | esp_component/jarzem_secure_ota/src/ota_check_auth.c:349-456 | Whatever frame the ESP accepts holds a newer version of 1 to 32 bytes and a code of the catalogue, and the authorization of the server for them, if no blank stands at an end of the version, has exactly the token that the ESP derived |
| CheckWire.EveryReleaseIsAuthorized | ota_check_security.py:118-148 | The server authorizes every code of the catalogue with every version of 1 to 32 bytes without bars and blanks at its ends, exactly for devices with a context |
| CheckWire.CheckAfterProvisioning | esp_component/jarzem_secure_ota/src/ota_check_auth.c:349-497 | After a concluded attempt whose context was copied, in any run, calm or not, every frame from the server's context crosses the bridge unchanged and yields the grant's token on the ESP |
| CheckWire.PrepareReads | esp_component/jarzem_secure_ota/src/ota_check_auth.c:349-383 | strtok_r finds exactly the five fields that the server joined, or rejects the frame when a NUL cut it |
| CheckWire.Authorize | ota_check_security.py:118-148 | A frame is made only for a version of 1 to 32 bytes without a bar, an alphanumeric code and a device with a durable context |
| CheckWire.DecodeExact | esp_component/jarzem_secure_ota/src/ota_check_auth.c:74-111 | A success has exactly the wanted length |
| Install.DownloadAndInstall | esp_component/jarzem_secure_ota/src/ota_service.c:145-198 | For every split into blocks: the boot partition is switched exactly when the download is complete, its hash matches and the driver agrees; then flash holds the received bytes in order; each handle is ended or aborted once; a dry run touches nothing |
| Install.PassesExactly | esp_component/jarzem_secure_ota/src/ota_service.c:161-187 | When a download passes, said of the answer and the bytes alone: the header starts with the body hash as hexadecimal text in either case, and status, lengths, reads, writes and first block are right |
| Install.HeaderReadsExactly | esp_component/jarzem_secure_ota/src/ota_service.c:136-143 | The header reads as 32 bytes exactly if its first 64 characters spell them in hexadecimal digits of either case |
| Install.StreamBody | esp_component/jarzem_secure_ota/src/ota_service.c:171-180 | The loop succeeds iff every read, check and write does, and then has hashed, counted and written exactly the received bytes |
| Install.InstallImage | esp_component/jarzem_secure_ota/src/ota_service.c:169-193 | Length and hash are checked before the handle is ended and the boot partition switched |
| Install.BodyIsConcatenation | esp_component/jarzem_secure_ota/src/ota_service.c:171-180 | Hashed and written bytes do not depend on how the body is split |
| Install.FirstBlockIsChecked | esp_component/jarzem_secure_ota/src/ota_service.c:175-175 | The image header check sees the first bytes of the body; only an empty body escapes it |
| Frames.ChallengeBudget | secure_transport.py:97-104 | An A frame has exactly 100 bytes |
| Frames.HelloBudget | esp_component/jarzem_secure_ota/src/zigbee_ota_cluster.c:379-381 | An H frame fits iff its counter has at most 11 digits |
| Frames.StatusBudget | esp_component/jarzem_secure_ota/src/ota_boot_status.c:104-106 | An S frame fits iff counter digits and version share ten bytes |
| Frames.CheckBudget | ota_check_security.py:148-150 | A C frame has 41 bytes plus its version, at most 73, so its 100-byte check never fires |
| Frames.ProvisioningBudget | secure_transport.py:158-170 | A P frame fits iff ssid, password and encoded host share 48 bytes |
| Frames.ChallengeTransparent | zigbee2mqtt/jarzem_secure_ota.mjs:63-72 | Every A frame becomes random and signature on the radio and is restored character for character iff its first byte is neither 'C' nor 'D' |
| Frames.ProvisioningTransparent | esp_component/jarzem_secure_ota/src/zigbee_ota_cluster.c:318-356 | A P frame is restored iff it has at most 72 encrypted bytes and does not start with 'C' or 'D' |
| Frames.CheckTransparent | zigbee2mqtt/jarzem_secure_ota.mjs:52-72 | C frames pass the converter's check and cross unchanged in every state of the ESP |
| Frames.NodeDecodeAgrees | zigbee2mqtt/jarzem_secure_ota.mjs:48-48 | Whatever the ESP's strict decoder accepts, the converter decodes to the same bytes |
| Base64Url.RoundTrip | secure_transport.py:27-32 | Decoding undoes encoding for byte strings of every length |
| Base64Url.DecodesExactly | esp_component/jarzem_secure_ota/src/ota_check_auth.c:74-111 | The strict decoder takes exactly the texts of the alphabet that leave no single character over, and gives three bytes for four characters |
| Base64Url.EncodeInjective | secure_transport.py:27-28 | Different byte strings have different texts |
| Base64Url.EncodeLetters | secure_transport.py:27-28 | The text holds letters of the alphabet only: no padding, separator or NUL |
| Base64Url.LengthsInClosedForm | esp_component/jarzem_secure_ota/src/zigbee_ota_cluster.c:51-64 | Lengths of the text with and without padding |
| Base64Url.EncodeToBuffer | esp_component/jarzem_secure_ota/src/ota_secure_session.c:51-61 | Rewriting library text in place gives exactly the url text and a terminator, iff the padded text fits the buffer |
| Base64Url.StdEncodeIsPadded | esp_component/jarzem_secure_ota/src/ota_secure_session.c:57-59 | The library text is the url text in another alphabet followed by padding |
| ProvisionPlain.PlaintextRoundTrip | secure_transport.py:134-155 | Whatever the server packs the ESP parses to the same values, exactly if no text holds a NUL |
| ProvisionPlain.Parse | esp_component/jarzem_secure_ota/src/ota_secure_session.c:150-162 | The parser succeeds only when the declared lengths account for every byte |
| ProvisionPlain.ParseWithCursor | esp_component/jarzem_secure_ota/src/ota_secure_session.c:150-162 | The cursor over the buffer computes the specified parse, errors included |
| ProvisionPlain.ParsePacked | esp_component/jarzem_secure_ota/src/ota_secure_session.c:150-162 | A packed plaintext is cut where it was put together |
| ProvisionPlain.Ipv4TextOfPacked | secure_transport.py:144-148 | The ESP prints a packed address as exactly the text it was packed from |
| ProvisionPlain.PackedOfIpv4Text | secure_transport.py:144-148 | Every canonical dotted address is packed |
| ProvisionPlain.EncodePlain | secure_transport.py:134-155 | An accepted plaintext has nine bytes more than its texts |
| ProvisionPlain.EncodesExactly | secure_transport.py:134-155 | What the server packs: the bounds of SSID, password, host, port and channel, and the four security names |
| ProvisionPlain.CaseDoesNotMatter | secure_transport.py:142-144 | Security names are compared in any case |
| Canonical.CanonicalInjective | secure_transport.py:67-82 | H, R, S, A, P, KDF, nonce, subkey, CHECK and token byte strings are injective in their fields and distinct across kinds, whatever bytes randoms and versions hold |
| Canonical.ProbeIsKind | ota_check_security.py:14-17 | Single bytes of a message tell its kind, so no domain text is the beginning of another message |
| Canonical.VersionField | ota_check_security.py:37-51 | A version between the domain and the fixed-length tail is determined even if it holds bars |
| Enrollment.EnrollmentInjective | device_enrollment.py:59-86 | Enrollment messages with equal bytes agree in every field after id normalization |
| Enrollment.JoinInjective | device_enrollment.py:30-39 | Length-prefixed parts of one shape are determined by their concatenation |
| DeviceIds.NormalizedIdIsNormal | device_registry.py:19-23 | Normalizing is idempotent and gives 23 characters without separators |
| DeviceIds.DeviceTextIsNormal | esp_component/jarzem_secure_ota/src/device_identity.c:39-47 | The ESP's own id text is a normalized id, different for different addresses |
| DeviceIds.SpellingsNormalize | device_registry.py:19-23 | Every usual spelling of an address, in either case, with colons, with 0x, within blanks, normalizes to the id that the ESP prints |
| Version.NewerIsAsymmetric | esp_component/jarzem_secure_ota/src/ota_check_auth.c:266-299 | On all strings, no version is newer than itself and no two are newer than each other |
| Version.NewerOnDottedDecimals | esp_component/jarzem_secure_ota/src/ota_check_auth.c:266-299 | On canonical dotted decimals up to 2^32 - 1 newer means lexicographically greater, proper prefixes being smaller |
| Version.LexIsStrictTotalOrder | esp_component/jarzem_secure_ota/src/ota_check_auth.c:266-299 | That order is a strict total order |
| Version.CompareTexts | esp_component/jarzem_secure_ota/src/ota_check_auth.c:272-293 | On dotted decimals of any size the loop compares the clamped components and falls back to text when one list ends first |
| Version.ServerAndDeviceAgree | server.py:1036-1054 | On canonical dotted decimals up to 2^32 - 1 the ESP takes a version for newer iff the server's comparison is positive |
| Version.NewerHasCycles | esp_component/jarzem_secure_ota/src/ota_check_auth.c:280-299 | Off the canonical form the relation has cycles of three |
| Version.LargeComponentsClamp | esp_component/jarzem_secure_ota/src/ota_check_auth.c:275-284 | Beyond 2^32 - 1 the ESP takes different components for equal while the server does not |
| Version.VersionIsNewer | esp_component/jarzem_secure_ota/src/ota_check_auth.c:266-299 | The pointer loop decides the specified relation |
| ImageCodes.Base62Bijective | server.py:1205-1211 | Numbers below 62^3 and three-character codes correspond one to one |
| ImageCodes.AlwaysFindsFreeCode | server.py:1214-1248 | While fewer than 62^3 aliases exist, probing finds a free code |
| ImageCodes.NewCodeIsNextFree | server.py:1214-1248 | A new file gets the code of the first number from its seed on whose code is free |
| ImageCodes.CodesAreStable | server.py:1214-1248 | Over any run of allocations and maintenance codes stay distinct and a file keeps its code until its row is removed |
| ImageCodes.AllocatedCodeResolves | server.py:1251-1264 | After any run an allocated code resolves to its own file iff the file's image row exists |
| ImageCodes.AliasTable.EnsureImageCode | server.py:1214-1248 | The probing loop leaves the specified table and answers the specified code |
| Revisions.RevisionsAreConsistent | server.py:838-970 | After any run of scans and maintenance each file's history has revisions 1..n with different neighbours, and its image row holds revision n and the last hash |
| Revisions.ScansRecordExactly | server.py:838-970 | After any run, a scan adds exactly one history row for a listed file that is new or whose hash changed, none else, and its image row then holds this hash |
| Revisions.ScansSpareOthers | server.py:838-970 | Files that a scan does not list keep their rows |
| Revisions.StepKeeps | server_mysql.py:238-280 | Scans and the 'images' and 'tests' maintenance each keep that |
| Revisions.CatalogueTables.ScanFirmwareImages | server.py:812-970 | The scan over the directory leaves the specified tables |
| Dedup.EvictionIsInvisible | mqtt_observer.py:70-79 | With a monotonic clock the evicting cache answers true iff the latest earlier observation of the same frame is at most three seconds old |
| Dedup.CacheIsRecentLog | mqtt_observer.py:74-78 | The dictionary is the unbounded log restricted to the last 30 seconds |
| Dedup.ClockMustNotGoBack | mqtt_observer.py:74-79 | With a clock that goes back the eviction can change an answer |
| Dedup.DuplicateFilter.IsDuplicate | mqtt_observer.py:70-79 | Answer and dictionary are the specified ones |

## Left out

- ProvisioningRun.Agreement: asks for calm runs whose H numbers renew. From the states named in `Preemption` and `RepeatedNumbers` each excluded step can be continued to a run that breaks agreement; a run with an excluded step can still end well, and `AgreementInWindow` covers its later attempts, but it is not an equivalence over whole runs.
- ProvisioningRun.DeviceReports: here and in `Agreement` a T frame leaves in the step that reads the status. The code writes the status, may wait for the Zigbee lock, reads flag and status (zigbee_ota_control.c:69-92) and waits for the lock again, so a T frame can be older than frames in front of it; `Agreement` rests on this.
- Device.SentTellsStatus: the boot report is sent once; its repeats (zigbee_ota_control.c:127-130) say T|0|00 whatever the state then is, and the server ignores them.
- CounterCell.NumbersRiseExactlyInTurn: the cell of the machine is unbounded, so the statement is about fewer than 2^64 commits.
- Grants.OneTimeGrants: the 300 seconds are those of the clock that a transaction read before it began; a transaction that had to wait may commit later.
- Grants.SpentTokensNeverValidate: tokens of different grants are taken to differ, as they come from fresh random bytes; the unique index only compares rows that are still there.
- CheckWire.AcceptedFramesAreAuthorized: a version with blanks at its ends would be stripped by the server, which therefore never authorizes it.
- Recovery.EveryRunCanConclude: says that such a continuation exists, with the random 7; that it happens is liveness, which the channels do not give.
- Frames.ProvisioningTransparent: stated for the state in which the ESP waits for the frame; in other states the ESP drops it.
- NVS write failures, task-creation failures and allocation failures on the ESP; restarts are explicit steps.
- Data races inside one C function, except for the P callback and for the counter cell between its read and its commit: other function calls, and what a task does from one visible effect to the next, are one step.
- Other devices' work in the server's callback thread: the machine follows one device, whose entry the others do not touch.
- Session objects and their aliasing on the server: an attempt stands for its object.
- A new certificate for a registered device, which starts a new counter epoch (device_registry.py:164-174), and certificate checks, which are one predicate.
- T frames that the ESP did not send: T carries no signature.
- HTTP, MQTT, TLS, Wi-Fi and Zigbee beyond the frames and events they deliver; liveness, as the channels may lose everything.
- Diagnostic D frames, activity log, provisioning_attempts rows, user interface, installer and publication of artifacts.
- The request queue and progress of ota_service.c, and the observer's filter of repeated S frames.
- Text outside ASCII in ids and versions, and database collation: texts are compared byte by byte.
- Legacy plaintext provisioning and bucket tokens, which the secure runtime replaces.
