# Call control of the cellular call service, verified in Dafny

This project models the call control of the OpenHarmony cellular call service and proves what its two controls, the
circuit-switched one (`CSControl`) and the IMS one (`IMSControl`), keep over whole runs.

A control keeps an ordered table of calls and reconciles it with complete call lists that the modem reports (state codes
of section 7.18 of 3GPP TS 27.007). It reports to the call manager what changed. Several protocols run on the same
table: asking the network why a call ended, suppressing a call nobody is registered for, holding a call before dialling
another, answering while another call is active, and playing the post-dial part of a dialled number. Around the table
stand the parser of the reason mapping, the parcels between the IMS proxy and stub, the wait of an emergency call for
the radio, and the text of a service-class mask.

## How it is laid out

| files | what they hold |
|---|---|
| `OrderedKeys`, `CallTypes`, `Encapsulation` | key order of the table; the values exchanged; reports built from listed calls |
| `CallTable`, `CsSpec`, `ImsSpec` | what every operation does to a control, as functions on `Control` values; `Step` and `After` run them |
| `ControlBase`, `PostDial`, `CsControl`, `ImsControl` | the imperative code: searches, the connection's post-dial side, and the two control classes |
| `TableTheorems`, `Observer`, `ListReports`, `PendingNumber`, `PostDialRuns`, `Attribution` | results on the shared table operations, and on who wrote a call's reason |
| `CsTheorems`, `CsSessions`, `CsReasons`, `CsQueries`, `CsPostDial` | results over runs of a CS control |
| `CsLists`, `CsAnswerTrace`, `CsCommands` | what a CS list leaves behind, and what each CS user operation sends |
| `ImsTheorems`, `ImsHoldDial`, `ImsAnswer`, `ImsReasons`, `ImsQueries`, `ImsPostDial` | results over runs of an IMS control |
| `ImsLists`, `ImsAnswerTrace`, `ImsCommands` | the same for IMS |
| `ReasonMapping`, `ParcelCodec`, `EmergencyWait`, `ServiceClass` | the four separate pieces |

The classes hold the table as a `map` field that the methods reassign; its entries are values, as they are in the
source's `std::map` of connection objects, and a walk over the table takes the keys in ascending order. Every method is
proved equal to a function of the old state, and the theorems are about those functions. `log` records everything a
control sends: requests with their result, post-dial effects, and reports. The environment is a parameter (`Env`): the
result of a request issued when the log has length n is `results(n)`, an arbitrary function, so all results hold for
every sequence of successes and failures; `registered` and `handler` say whether the call manager and the slot's event
handler are there. The modem's lists are arbitrary unless a theorem asks for a well-formed one: `callSize` is the length,
each index once, states 0..5, numbers that fit a report. The capacity of a report's number field is defined outside the
repository and is left open (`MAX_NUMBER_LEN`). Strings are taken to hold no NUL character.

Four things the proofs bring out. Extracting a number appends to the post-dial string a connection already has (it does
not replace it), so the post-dial results are stated for a string that may grow. An entry restored after a restart of
the service has an empty report, with index 0: when a list drops it, its disconnect report names call 0, so a reported
update shows the observer the whole table only if the list names no such index (`ImsTheorems.ReportedUpdateHealsIff`).
The service reports the known calls as gone, restores them, hangs them up and releases them in a row of separately
locked steps (services/manager/src/cellular_call_service.cpp:1613-1631), so this takes a list that arrives between them.
A user who declines a call after the network has answered why it ended leaves the network's message standing under his
own reason. And the ready-to-call flags are shared by all controls while each control has its own condition variable: with one control for each slot no wake-up is lost in
any run, but `EmergencyWait.TwoControlsLoseWakeUp` gives a run in which a sleeper of one control misses its wake-up
because the flag is set through another first, as `SetReadyToCall` of the service does with the CS and then the IMS
control (services/manager/src/cellular_call_service.cpp:883-888), and `EmergencyWait.SetReadyStrandsNobodyIff` gives the
exact condition.

## Model

| member | source | states |
|---|---|---|
| CsControl.CSControl.ReportCsCallsData | services/control/src/cs_control.cpp:454-473 | a call list is queried about, ends all calls, opens a session or updates the table, by size, emptiness and missing reasons |
| CsControl.CSControl.HasEndCallWithoutReason | services/control/src/cs_control.cpp:764-783 | true iff some entry has no reason and is not listed |
| CsControl.CSControl.ReportIncomingInfo | services/control/src/cs_control.cpp:586-614 | the table is filled from the list; the report goes out unless nobody is registered and the first call is incoming |
| CsControl.CSControl.ReportUpdateInfo | services/control/src/cs_control.cpp:475-519 | the table is marked, swept and reported unless the session is suppressed |
| CsControl.CSControl.MarkListedCall | services/control/src/cs_control.cpp:485-506 | one listed call: new entry, or update that may arm and start post-dial |
| CsControl.CSControl.DeleteConnection | services/control/src/cs_control.cpp:521-537 | unmarked entries leave the table and are reported in key order; marked ones lose the mark |
| CsControl.CSControl.ReportHangUpInfo | services/control/src/cs_control.cpp:616-646 | every entry is reported disconnected unless suppressed, and the table is empty |
| CsControl.CSControl.ReportHangUp | services/control/src/cs_control.cpp:712-742 | the calls of the slot that the call manager knows are reported as gone, and the table is empty |
| CsControl.CSControl.UpdateDisconnectedReason | services/control/src/cs_control.cpp:744-762 | exactly the unlisted entries without a reason get the given one |
| CsControl.CSControl.UpdateCallDisconnectReason | services/control/src/cs_control.cpp:785-794 | the first entry with that id gets the reason, no other changes |
| CsControl.CSControl.HangUp | services/control/src/cs_control.cpp:163-221 | the new state and return code of each kind of hang-up |
| CsControl.CSControl.Answer | services/control/src/cs_control.cpp:223-282 | the commands sent and the return code |
| CsControl.CSControl.CheckAndHangupHoldingCall | services/control/src/cs_control.cpp:284-297 | held calls are hung up in key order up to the first failure |
| CsControl.CSControl.Reject | services/control/src/cs_control.cpp:299-329 | a ringing call is marked declined and rejected; other states are refused |
| CsControl.CSControl.Dial | services/control/src/cs_control.cpp:75-161 | dialling after the service-code test: room in the table, swap of an active call, pending number |
| CsControl.CSControl.ExecutePostDial | services/control/src/cs_control.cpp:648-674 | one post-dial step on the call found, and what the call manager is told |
| CsControl.CSControl.PostDialProceed | services/control/src/cs_control.cpp:676-696 | proceeding takes a step, refusing cancels |
| ImsControl.IMSControl.ReportImsCallsData | services/control/src/ims_control.cpp:416-435 | the IMS dispatch of a call list |
| ImsControl.IMSControl.ReportIncomingInfo | services/control/src/ims_control.cpp:481-509 | the table is filled and reported, or the report is withheld |
| ImsControl.IMSControl.ReportUpdateInfo | services/control/src/ims_control.cpp:511-557 | mark, sweep, and report, or end the suppression |
| ImsControl.IMSControl.DeleteConnection | services/control/src/ims_control.cpp:614-631 | as for CS, with the disconnect message in the report |
| ImsControl.IMSControl.ReportHangUpInfo | services/control/src/ims_control.cpp:447-479 | all calls reported ended unless ignored or a silent redial; both flags are cleared |
| ImsControl.IMSControl.UpdateDisconnectedReason | services/control/src/ims_control.cpp:757-777 | exactly the unlisted entries without a reason get reason and message |
| ImsControl.IMSControl.UpdateCallDisconnectReason | services/control/src/ims_control.cpp:800-810 | the first entry with that id gets reason and message |
| ImsControl.IMSControl.HangUp | services/control/src/ims_control.cpp:169-218 | the new state and return code of each kind of hang-up |
| ImsControl.IMSControl.Answer | services/control/src/ims_control.cpp:220-254 | room is made, then a swap of the active call or the answer |
| ImsControl.IMSControl.CheckAndHangupHoldingCall | services/control/src/ims_control.cpp:256-270 | held calls are hung up in key order up to the first failure |
| ImsControl.IMSControl.Reject | services/control/src/ims_control.cpp:272-292 | a ringing call is marked declined and rejected |
| ImsControl.IMSControl.SwitchCallRequest | services/connection/src/cellular_call_connection_ims.cpp:188-205 | a successful swap marks the call as about to be held |
| ImsControl.IMSControl.DialJudgment | services/control/src/ims_control.cpp:71-135 | a dial is refused, parked on the first active call not being hung up, or made |
| ImsControl.IMSControl.SetHoldToDialInfo | services/connection/src/cellular_call_connection_ims.cpp:374-391 | the four parked fields and the flag change, nothing else |
| ImsControl.IMSControl.DialAfterHold | services/control/src/ims_control.cpp:730-743 | the first parked dial is made and unparked |
| ImsControl.IMSControl.RecoverPendingHold | services/control/src/ims_control.cpp:745-755 | the first pending hold is cleared |
| ImsControl.IMSControl.ReportHangUp | services/control/src/ims_control.cpp:698-728 | the calls of the slot that the call manager knows are reported as gone, the table stays |
| ImsControl.IMSControl.RestoreConnection | services/control/src/ims_control.cpp:683-696 | entries for the known IMS calls of the slot, keeping those already there |
| ImsControl.IMSControl.SetSilentCsRedialFlag | services/control/src/ims_control.cpp:442-445 | the redial flag is set, nothing else |
| ImsControl.IMSControl.ExecutePostDial | services/control/src/ims_control.cpp:633-659 | one post-dial step on the call found |
| ImsControl.IMSControl.PostDialProceed | services/control/src/ims_control.cpp:661-681 | proceeding takes a step, refusing cancels |
| ControlBase.FindConnectionByIndex | services/control/include/control_base.h:238-248 | the first entry in key order with that index, or none |
| ControlBase.FindConnectionByState | services/control/include/control_base.h:219-229 | the first entry in key order in that state, or none |
| ControlBase.IsAnyInState | services/control/include/control_base.h:275-285 | whether some entry is in that state |
| ControlBase.StateSearchAgrees | services/control/include/control_base.h:219-285 | a call is found by state iff some call is in that state |
| ControlBase.EndCallWithoutReason | services/control/src/ims_control.cpp:779-798 | true iff some entry has no reason and is not listed |
| PostDial.BaseConnection.ProcessNextChar | services/connection/src/base_connection.cpp:87-101 | the next character is taken once, unless cancelled or at the end |
| PostDial.BaseConnection.ProcessPostDialCallChar | services/connection/src/cellular_call_connection_ims.cpp:353-372 | a key is sent, a pause starts a timer, a wait delays |
| PostDial.BaseConnection.UpdateCallNumber | services/utils/src/standardize_utils.cpp:57-80 | address keys and post-dial part are appended; an empty number changes nothing |
| PostDial.BaseConnection.GetLeftPostDialCallString | services/connection/src/base_connection.cpp:114-120 | what is left to play |
| PostDial.PostDialStart | services/utils/src/standardize_utils.cpp:65-74 | the post-dial part starts at the first pause or wait key |
| TableTheorems.FindIsLookup | services/control/include/control_base.h:238-248 | on a coherent table the linear search is the map lookup |
| TableTheorems.MarkOneEffect | services/control/src/cs_control.cpp:485-506 | a listed call touches its own entry only, keeps its reason and dial data, and sends post-dial events only |
| TableTheorems.MarkAllReports | services/control/src/cs_control.cpp:479-508 | every listed call becomes the report of its entry |
| TableTheorems.MarkAndSweepExact | services/control/src/cs_control.cpp:475-537 | keys become the listed indices, marks are restored, and one vector goes out: live calls in list order, then the vanished in key order |
| TableTheorems.UpdateStoresReports | services/control/src/cs_control.cpp:494-500 | surviving entries hold the reports of their calls |
| ListReports.CodesOfStates | services/control/src/cs_control.cpp:565-575 | the states of the codes 0..5; a call rings iff its code is 3, 4 or 5, and connects iff it goes from 2 or 3 to another |
| ListReports.ClosingSends | services/control/src/cs_control.cpp:616-646 | a closing list sends, unless suppressed, one report: every call in key order as disconnected with its reason, or one disconnection of none |
| CsLists.UpdateShowsList | services/control/src/cs_control.cpp:475-519 | every listed call is stored and reported field by field as listed, in the state of its code, but a waiting call that is alone is incoming; what follows in the report are disconnections |
| CsLists.FillShowsList | services/control/src/cs_control.cpp:586-614 | an opening list stores and reports every call as listed, a lone waiting one too; it is withheld iff nobody is registered and the first call is incoming |
| ImsLists.UpdateShowsList | services/control/src/ims_control.cpp:511-557 | as for CS, with the IMS fields |
| ImsLists.FillShowsList | services/control/src/ims_control.cpp:481-509 | as for CS, with the IMS fields |
| PendingNumber.UpdateArmsFirst | services/control/src/cs_control.cpp:494-506 | the pending number goes to the first listed call that connects and is used up; later ones get nothing |
| Observer.UpdateVectorObserved | services/control/src/cs_control.cpp:507-518 | a reported update shows an observer the table, whatever it missed, but for the calls that the report of a dropped entry names |
| Observer.FillObserved | services/control/src/cs_control.cpp:586-614 | an opening report shows the observer the whole table |
| Observer.HangUpObserved | services/control/src/cs_control.cpp:616-646 | a closing report leaves the observer with nothing |
| Observer.LostObserved | services/control/src/cs_control.cpp:712-742 | the report after a restart takes exactly the calls it names from the observer |
| Observer.LostAreReported | services/control/src/cs_control.cpp:712-742 | each known call of this type and slot is reported with its number, and every report is a disconnection of this type and slot |
| Observer.UpdateShowsIff | services/control/src/cs_control.cpp:507-518 | for any observer at all, exactly when a reported update shows it the whole table |
| CsTheorems.StepKeepsInvIff | services/control/src/cs_control.cpp:698-742 | an operation puts the observer out of step iff it releases calls, or a restart finds the session suppressed or does not name all calls |
| CsTheorems.ObserverRebuildsTableIff | services/control/src/cs_control.cpp:441-742 | over all runs, with releases and restarts, the observer of the reports knows exactly the table, or nothing while the session is suppressed, throughout iff no operation strands it |
| CsTheorems.ObserverRebuildsTable | services/control/src/cs_control.cpp:441-646 | over all runs without releases and restarts the observer knows exactly the table, or nothing while the session is suppressed |
| CsTheorems.StepSameCalls | services/control/src/cs_control.cpp:163-329 | no user, network or post-dial operation changes a call's state or sends a call report |
| CsTheorems.IndexCoherence | services/control/src/cs_control.cpp:485-493 | in every reachable table, whatever was listed, search is lookup, a call not found can be inserted, and a reason touches one entry |
| CsSessions.SessionAllOrNothing | services/control/src/cs_control.cpp:602-644 | from the opening to the closing list of a session without a restart every list is reported, or none |
| CsReasons.ReasonAttribution | services/control/src/cs_control.cpp:744-762 | over all operations and any lists, a call's reason is the last user reason, else the first network reason; lists never change it |
| CsReasons.EndReportCarriesReason | services/control/src/cs_control.cpp:521-537 | the report that ends a call carries its reason |
| CsReasons.AnswerSettlesReasons | services/control/src/cs_control.cpp:744-783 | after the network's answer no ended call lacks a reason, iff the answer is a reason or none lacked one |
| CsQueries.StepQueries | services/control/src/cs_control.cpp:454-473 | a list that may query sends one query and does nothing else iff a call it does not name has no reason; no other operation sends one |
| CsQueries.QueriesCount | services/control/src/cs_control.cpp:454-473 | over all runs the queries sent are the lists that asked, one each |
| ImsQueries.StepQueries | services/control/src/ims_control.cpp:416-435 | a list that is to query sends one query and does nothing else iff it does not open a session; no other operation sends one |
| ImsQueries.QueriesCount | services/control/src/ims_control.cpp:416-435 | over all runs the queries sent are the lists that asked, one each |
| CsReasons.ReasonQueryConverges | services/control/src/cs_control.cpp:454-473 | a query sends one request and changes nothing else; after its answer the same list is handled as without a query, and every disconnect report has a reason |
| CsReasons.SettledReportsAreExplained | services/control/src/cs_control.cpp:521-537 | with reasons settled no disconnect report lacks one |
| CsAnswerTrace.AnswerCommands | services/control/src/cs_control.cpp:223-297 | answering sends: hang-ups of held calls iff a call is also active, a swap iff a call is active, an answer iff the call is ringing |
| CsCommands.HangUpCommands | services/control/src/cs_control.cpp:163-221 | per kind of hang-up what is reported, requested and returned; nothing but reasons changes |
| CsCommands.RejectCommands | services/control/src/cs_control.cpp:299-329 | a ringing call is reported as disconnecting and its rejection requested; others are refused |
| CsCommands.DialCommands | services/control/src/cs_control.cpp:75-161 | a dial is refused, asks nothing, asks an active call to swap out and dials, or dials; the number becomes pending |
| CsPostDial.PostDialExactlyOnce | services/connection/src/base_connection.cpp:87-120 | over runs with any lists, keys sent are those of the characters passed, once and in order; a cancelled call never plays again |
| PostDialRuns.PlayPlays | services/connection/src/cellular_call_connection_cs.cpp:300-319 | one step plays exactly the character at the cursor |
| PostDialRuns.TimerSteps | services/control/src/cs_control.cpp:648-674 | one step moves a ready call on by one character: a key is requested and told, a pause starts its timer, a wait tells what is left; a cancelled call stays |
| PostDialRuns.ProceedSteps | services/control/src/cs_control.cpp:676-696 | proceeding is one such step |
| PostDialRuns.RefusalCancels | services/control/src/cs_control.cpp:676-696 | refusing cancels the call; string, cursor, log and all else stay |
| CsPostDial.DrivenStep | services/control/src/cs_control.cpp:648-696 | timers and users who let it proceed step the call they are for |
| CsPostDial.RefusedNeverPlays | services/control/src/cs_control.cpp:648-696 | after a refusal, over any run the call survives: same cursor, no further key, no further timer |
| ImsPostDial.DrivenStep | services/control/src/ims_control.cpp:633-681 | as for CS |
| ImsPostDial.RefusedNeverPlays | services/control/src/ims_control.cpp:633-681 | as for CS |
| PostDialRuns.ArmAppends | services/utils/src/standardize_utils.cpp:57-80 | a number is split at its first pause or wait key; both parts are appended |
| PostDialRuns.AddressKeyKept | services/utils/src/standardize_utils.cpp:57-80 | of the address exactly the digits, '*', '#', '+' and 'N' are kept |
| PostDialRuns.DriveReachesEnd | services/connection/src/base_connection.cpp:87-120 | each step advances one character; after the last the state is complete |
| ImsTheorems.StepStrandsIff | services/control/src/ims_control.cpp:402-557 | an operation puts the observer ahead of the table iff it drops entries unreported that the observer knows |
| ImsTheorems.NeverAheadIff | services/control/src/ims_control.cpp:402-557 | over all runs, with restarts, restores, releases and silent redials, the observer never knows a call that is gone iff no operation strands it |
| ImsTheorems.ObserverNeverAhead | services/control/src/ims_control.cpp:447-557 | over all runs without releases and silent redials, restores included, the observer never knows a call that is gone |
| ImsTheorems.ReportedUpdateHealsIff | services/control/src/ims_control.cpp:511-557 | after any run at all, a reported update leaves the observer with the table iff the list names no index under which a dropped entry is reported, and every call the observer knew is listed or reported dropped; the second holds unless the run stranded the observer, and then both do for a list numbered from 1 |
| ImsTheorems.RestoredEntryHidesCall | services/control/src/ims_control.cpp:683-696 | a case where it does: a restored entry, reported under index 0, is dropped by a list that names call 0 |
| ImsTheorems.SecondUpdateHeals | services/control/src/ims_control.cpp:537-556 | after any run that strands nothing, the second of two updates in a row always leaves the observer with the table |
| ImsTheorems.SilentRedialStrandsObserver | services/control/src/ims_control.cpp:471-477 | a silent or ignored closing list leaves the observer behind iff it knew a call |
| ImsTheorems.ReleaseStrandsObserver | services/control/src/ims_control.cpp:402-407 | a release leaves the observer behind iff it knew a call |
| ImsHoldDial.DialCommands | services/control/src/ims_control.cpp:71-135 | with more than six calls a dial is refused; else it is parked, field by field, on the first active call not being hung up, with one swap asked, or without such a call requested at once; the result is returned |
| ImsHoldDial.DialsConserved | services/control/src/ims_control.cpp:71-99 | over all runs dials made, plus dials parked, plus parked dials given up with their entry or to a new dial, are the dials accepted plus those parked at the start |
| ImsHoldDial.ParkedDialIsLast | services/connection/src/cellular_call_connection_ims.cpp:374-396 | a call holds the dial last parked on it, never as an RTT call |
| ImsHoldDial.ParkedInRun | services/connection/src/cellular_call_connection_ims.cpp:374-396 | over any run, a set dial flag means that the run parked a dial under that key, and the last one is held, or that it was parked from the start |
| ImsHoldDial.DeferredDialIsLastParked | services/control/src/ims_control.cpp:730-743 | from a control with nothing parked, every dial made after a hold is the one last parked under its key |
| ImsHoldDial.HeldDialsParked | services/control/src/ims_control.cpp:730-743 | a completed hold makes exactly the first parked dial |
| ImsAnswer.NeverSwapsTwice | services/control/src/ims_control.cpp:220-254 | answers, hang-ups and rejections in any order swap the active call at most once |
| ImsAnswerTrace.AnswerCommands | services/control/src/ims_control.cpp:220-270 | answering sends: hang-ups of held calls iff a call is also active, up to the first failure; then one swap iff the call waits behind an active call not about to be held, else one answer iff it rings, else nothing; the result is returned |
| ImsAnswerTrace.AnswerNone | services/control/src/ims_control.cpp:220-229 | a call that is not there cannot be answered |
| ImsAnswer.LaterAnswersAnswer | services/control/src/ims_control.cpp:239-251 | after a run in which a swap succeeded, a ringing call is answered itself, or a failing hang-up ends the attempt |
| ImsAnswer.UpdateClearsPendingHold | services/control/src/ims_control.cpp:511-546 | a reconciled list clears every pending hold |
| ImsCommands.RecoverEndsOne | services/control/src/ims_control.cpp:745-755 | the first pending hold ends, no other, and nothing else changes |
| ImsCommands.RecoverUndoesSwap | services/control/src/ims_control.cpp:745-755 | with no other hold pending, recovering undoes a swap |
| ImsCommands.HangUpCommands | services/control/src/ims_control.cpp:169-218 | per kind of hang-up what is reported, requested and returned, and which entry is marked as being hung up |
| ImsCommands.RejectCommands | services/control/src/ims_control.cpp:272-292 | a ringing call is reported as disconnecting and its rejection requested; others are refused |
| ImsCommands.SilentRedialHidesOne | services/control/src/ims_control.cpp:442-479 | the redial flag hides exactly the next closing report |
| ImsCommands.RestoresExactly | services/control/src/ims_control.cpp:683-696 | restoring adds a new entry for each IMS call of the slot that is not there, with its number, and no other |
| Attribution.WritesAttributed | services/control/src/ims_control.cpp:757-777 | writing reasons and messages one after the other comes to: the user's last, else what was there with a reason, else the network's first answer with a reason |
| ImsReasons.ReasonAttribution | services/control/src/ims_control.cpp:757-777 | over all IMS operations and lists, reason and message of a call are the attributed ones |
| ImsReasons.DeclineKeepsNetworkMessage | services/control/src/ims_control.cpp:272-292 | a decline after the network's answer leaves the network's message under the user's reason; a hang-up clears it |
| ImsReasons.DeclineAfterRun | services/control/src/ims_control.cpp:272-292 | over runs, a declined call holds the user's reason with the message of the network, if it gave one and no hang-up was asked for, else with none |
| ImsReasons.EndReportCarriesReasonAndMessage | services/control/src/ims_control.cpp:447-479 | a call that a list drops or that a closing list ends is reported with its reason and message, unless suppressed |
| ImsPostDial.PostDialExactlyOnce | services/connection/src/cellular_call_connection_ims.cpp:353-372 | as for CS, over all IMS operations |
| ReasonMapping.NextToken | services/ims_service_interaction/src/ims_call_callback_stub.cpp:1019-1027 | successive searches yield the tokens of the text in order |
| ReasonMapping.TokensAreTokens | services/ims_service_interaction/src/ims_call_callback_stub.cpp:1019-1027 | splitting any text yields tokens: none is empty, none holds a delimiter |
| ReasonMapping.SplitJoin | services/ims_service_interaction/src/ims_call_callback_stub.cpp:1019-1027 | splitting undoes joining for any list of tokens |
| ReasonMapping.AtoiReadsBack | services/ims_service_interaction/src/ims_call_callback_stub.cpp:1019-1036 | numbers are read as they are written, after blanks, with any sign, whatever follows |
| ReasonMapping.ApplyEntry | services/ims_service_interaction/src/ims_call_callback_stub.cpp:1017-1037 | an entry applies iff its first number is the reason and it has a message; it then sets message and reason |
| ReasonMapping.WrittenApplies | services/ims_service_interaction/src/ims_call_callback_stub.cpp:1017-1037 | an entry written as number, message and further numbers applies iff it starts with the reason; it gives its message and the first further number that differs |
| ReasonMapping.NoMessageNoEntry | services/ims_service_interaction/src/ims_call_callback_stub.cpp:1017-1037 | an entry without a message never applies |
| ReasonMapping.MapReason | services/ims_service_interaction/src/ims_call_callback_stub.cpp:1011-1041 | only the first entry that applies counts; without one the details are unchanged |
| ReasonMapping.FirstOtherIsFirst | services/ims_service_interaction/src/ims_call_callback_stub.cpp:1026-1036 | the new reason is the first later number that differs from the old one |
| ParcelCodec.SendCallList | services/ims_service_interaction/src/ims_call_callback_proxy.cpp:171-202 | the parcel sent is the encoding of the list, and it is sent iff it fits |
| ParcelCodec.OnGetImsCallsDataResponse | services/ims_service_interaction/src/ims_call_callback_stub.cpp:342-384 | what is delivered, and how far the parcel is read, for every parcel |
| ParcelCodec.CallListRoundTrip | services/ims_service_interaction/src/ims_call_callback_stub.cpp:342-384 | lists of at most 10 calls arrive unchanged and fully read; longer ones are rejected |
| ParcelCodec.SendForwardList | services/ims_service_interaction/src/ims_call_callback_proxy.cpp:342-365 | the parcel sent is the encoding of the forwarding list, and it is sent iff it fits |
| ParcelCodec.OnGetCallTransferResponse | services/ims_service_interaction/src/ims_call_callback_stub.cpp:488-525 | what is delivered, withheld or rejected, for every parcel |
| ParcelCodec.ForwardListRoundTrip | services/ims_service_interaction/src/ims_call_callback_stub.cpp:488-525 | as for call lists; an answer to an invalid request is read and withheld |
| ParcelCodec.BuildCallForwardInfo | services/ims_service_interaction/src/ims_call_callback_stub.cpp:1514-1538 | every field but the flag is handed on |
| EmergencyWait.Prepare | services/control/src/control_base.cpp:164-193 | success iff the call is an emergency and every activation it needs succeeded |
| EmergencyWait.OutcomeIsFirstFailure | services/control/src/control_base.cpp:164-193 | what is returned is the first of the needed activations that fails, in the order radio, SIM, other SIM |
| EmergencyWait.SuccessMeansReady | services/control/src/control_base.cpp:194-203 | the wait succeeds only at a test that finds the flag set, after all preparations |
| EmergencyWait.ReturnMeans | services/control/src/control_base.cpp:164-203 | a thread returns the failure of its preparations, a dial failure when its wait times out, or success when its slot is ready |
| EmergencyWait.RadioOnClears | services/utils/src/module_service_utils.cpp:49-59 | turning the radio on takes the readiness of that slot back, and of no other |
| EmergencyWait.SuccessWasReady | services/control/src/control_base.cpp:164-203 | over runs, a call that came back with success did so at a test that found its slot ready, with its preparations done |
| EmergencyWait.NoLostWakeUp | services/control/src/control_base.cpp:194-215 | with one control for each slot, in every run an unnotified sleeper's slot is not ready |
| EmergencyWait.SetReadyStrandsNobodyIff | services/control/src/control_base.cpp:206-215 | setting the flag strands nobody iff no thread of another control waits for that slot |
| EmergencyWait.TwoControlsLoseWakeUp | services/control/src/control_base.cpp:164-215 | two controls sharing a slot lose a wake-up, in a run that starts with the preparations of a thread |
| ServiceClass.CreateServiceClassMessage | services/common/src/mmi_code_message.cpp:133-141 | one line for each set class bit, in ascending order |
| ServiceClass.SetMasksSum | services/common/src/mmi_code_message.cpp:133-141 | the bits listed add up to the value modulo 256 |
| ServiceClass.ClassTextFaithful | services/common/src/mmi_code_message.cpp:133-163 | two positive values give one text iff they agree modulo 256; others give none |

## Left out

- Connection objects are values in the table, as in the source's map; `BaseConnection` is a class for the post-dial side, loaded from and stored back to an entry, so aliasing of connection pointers is not modelled.
- Locks of the controls, singletons that are null and memory functions that fail: each operation runs alone, with its services there.
- IPC transport, descriptor tokens, dispatch tables, permission checks, reconnection, and the client side of the IMS service: plumbing.
- A parcel is a sequence of typed values, so a read of the wrong type yields a default instead of reinterpreted bytes; a read of raw data where there is none leaves the position alone.
- The reports after a restart leave fields unset that come from a default-initialised record defined elsewhere; they are taken as zero.
- Pre-dial tests, service codes, emergency-number tests, registration state and mute: their outcome is a parameter or assumed past. `DialPreJudgment` ignores the result of the emergency wait; that caller is not modelled.
- `HoldCall`, `UnHoldCall`, `SwitchCall`, conferences, DTMF on request, RTT, video, the satellite control and the pending emergency dial of power-improvement builds: single requests, or repetitions that add no harder property.
- Request arguments that the IMS client checks (number length, service present) appear only as the result of the request.
- The empty-table hang-up report is built from a default-initialised record defined elsewhere; the fields not set are taken as zero.
- State codes outside 0..5 are kept apart from all call states, since their cast depends on an enumeration defined elsewhere.
- `CreateGetCallTransferResultMessage` repeats the class loop with formatted text; the CLIR and call-waiting messages are fixed choices.
- Overflow in `atoi` is undefined in the source and unbounded here.
- The sending parcel has a capacity in values instead of bytes.
