# EVCC supportedAppProtocol handshake — a Dafny model

This project models the EVCC (vehicle-side) state `SupportedAppProtocol` of the
iso15118 Python stack: the state that processes the charging station's
SupportedAppProtocolRes, the handshake ISO 15118-2 defines and ISO 15118-20
and DIN SPEC 70121 reuse. The state scans the vehicle's own offered
(namespace, schema id) list in declaration order. At the first entry whose
schema id is the response's, it does one of three things:

- It hands off to ISO 15118-2 `SessionSetup` with a SessionSetupReq.
- It hands off to ISO 15118-20 `SessionSetup` with a SessionSetupReq whose header carries the session id.
- It raises `MessageProcessingError`.

When no entry matches, or the response carries no schema id at all (the
SchemaID is optional and is absent when negotiation failed), it stops the
state machine gracefully.
The session id comes from a one-shot, process-wide resume slot, or is the
upper-case hex of one zero byte, `"00"`.

Files and modules:

- `wrappers.dfy` (`Wrappers`): `Option`.
- `hex.dfy` (`Hex`): `bytes.hex().upper()` and its inverse.
- `app_protocol.dfy` (`AppProtocol`): offers, the response, the incoming message kinds, the message-kind check and the first-match scan.
- `session_ids.dfy` (`SessionIds`): the session fields and `get_session_id`.
- `sap_states.dfy` (`SapStates`): `process_message`. It has two forms. `Negotiate` is a pure function. `ProcessMessage` is a method with the source's `for`/`break` loop, proved equal to `Negotiate`.

Collaborators whose definitions are not part of this model are fields of an
`Env` parameter:

- the ISO 15118-2 namespace string (`Protocol.ISO_15118_2.ns.value`);
- the ISO 15118-20 prefix (`Namespace.ISO_V20_BASE`);
- `Protocol.get_by_ns`;
- `ev_controller.get_evcc_id`.

The wall-clock timestamp `time.time()` is an input, `now`. The resume slot
`evcc_settings.RESUME_SESSION_ID` is passed in, and the updated slot is
returned. One call returns a `Step`. It holds the outcome, the session and
resume slot left behind, and the protocols the EVCC id was requested for.
The outcome is one of four:

- `Ignored`: not a SupportedAppProtocolRes.
- `Sent`: `create_next_message` called once, with its four arguments.
- `Raised`: the exception.
- `Stopped`: `stop_state_machine` called with the response code and the schema id, which may be absent.

Details of the code worth noting:

- The code never checks that the response code is positive. The response code is only quoted in the stop reason.
- The code asks the vehicle controller for the ISO 15118-2 EVCC id eagerly, on every path past the message-kind check. That includes the stop and raise paths. The ISO 15118-20 path asks a second time, with the resolved protocol.
- The resume slot is tested by Python truthiness. A slot holding the empty string counts as unset, so a new session starts with `"00"` and the slot is left as it was (not cleared).
- On the ISO 15118-2 path the session id is written twice, with the same value.
- The module docstring names DIN SPEC 70121, but the state has no DIN branch. An offer with a DIN namespace that matches takes the `MessageProcessingError` path, like any namespace outside the two ISO families.
- Both hand-offs use the same timeout, `Timeouts.SESSION_SETUP_REQ`. The model's `Timeout` type therefore has this one value.

## Model

| member | source | states |
|---|---|---|
| AppProtocol.CheckMsg | iso15118/evcc/states/sap_states.py:60-64 | only a SupportedAppProtocolRes passes the kind check, and it passes unchanged; every other kind yields nothing |
| AppProtocol.FirstMatch | iso15118/evcc/states/sap_states.py:76-78 | the scan returns the lowest index whose offer carries the response's schema id, and returns none exactly when no offer carries it |
| AppProtocol.FirstMatchUnique | iso15118/evcc/states/sap_states.py:76-78 | the first match is unique, and it is the index the scan returns |
| AppProtocol.FirstMatchIgnoresSuffix | iso15118/evcc/states/sap_states.py:76-105 | once an offer matches, offers appended after it do not change the scan's result (break at the first match) |
| AppProtocol.FirstMatchSkipsMisses | iso15118/evcc/states/sap_states.py:76-78 | leading offers with other schema ids only shift the match index by their number; they never cause or prevent a match |
| Hex.HexUpper | iso15118/evcc/states/sap_states.py:130 | hex rendering gives two characters per byte, all from the upper-case hex digits |
| Hex.HexRoundTrip | iso15118/evcc/states/sap_states.py:130 | the rendering is injective: a separately defined decoder (an inverse used only for this proof; the source never decodes) gives back the bytes of any rendering |
| Hex.ZeroByteHex | iso15118/evcc/states/sap_states.py:130 | one zero byte renders as "00" |
| Hex.OnlyZeroByteRendersZero | iso15118/evcc/states/sap_states.py:130 | no byte string other than one zero byte renders as "00" |
| SessionIds.GetSessionId | iso15118/evcc/states/sap_states.py:119-132 | with a non-empty saved id, the id is the saved one and the slot is cleared; otherwise the id is "00" and the slot is kept; the session records the returned id, its protocol is untouched, and the slot is never left resumable |
| SessionIds.ResumeIsOneShot | iso15118/evcc/states/sap_states.py:126-132 | two calls in a row after a resume give the saved id and then "00" |
| SapStates.Negotiate | iso15118/evcc/states/sap_states.py:56-117 | a wrong message kind is ignored with no state change and no EVCC-id request. Otherwise: the ISO 15118-2 EVCC id is always requested first; the state stops exactly when no offer matches (always so when the response has no schema id), quoting code and schema id, with session and slot untouched and no further EVCC-id request. At the first match the outcome depends on the namespace. An ISO 15118-2 namespace (tested first) gives protocol ISO 15118-2, SessionSetupV2, the ISO_V2_MSG_DEF namespace and SessionSetupReq. A namespace with the ISO 15118-20 prefix gives protocol get_by_ns(ns), SessionSetupV20, ISO_V20_COMMON_MSG, and a header whose session id is the one recorded in the session. Any other namespace raises MessageProcessingError('SupportedAppProtocolReq'), with session and slot untouched. No hand-off ever schedules the Terminate default |
| SapStates.ProcessMessage | iso15118/evcc/states/sap_states.py:56-117 | the source's loop (defaults set before the loop, break at the first schema-id match, raise from inside the loop) computes exactly what the first-match specification describes |
| SapStates.OnlyFirstMatchMatters | iso15118/evcc/states/sap_states.py:76-105 | two offer lists whose first matches carry the same namespace negotiate identically |
| SapStates.LaterOffersNeverExamined | iso15118/evcc/states/sap_states.py:76-105 | appending offers after a matching one leaves the whole step unchanged |
| SapStates.EarlierMissesChangeNothing | iso15118/evcc/states/sap_states.py:76-78 | prepending offers with other schema ids leaves the whole step unchanged |
| SapStates.ResumeConsumedOnlyByHandOff | iso15118/evcc/states/sap_states.py:79-132 | with a saved id, the slot ends up cleared exactly when the state hands off, and the hand-off uses the saved id; stopping, raising or ignoring keeps the saved id |
| SapStates.SecondAttemptStartsFresh | iso15118/evcc/states/sap_states.py:126-132 | after a hand-off that resumed a saved id, a second negotiation in the same process that hands off uses "00" |

## Left out

- `iso15118/shared/exificient_wrapper.py`: the EXI codec is a Java process reached over py4j. Its schema table is a lookup onto opaque Java values, so there is no logic of its own to model.
- `iso15118/evcc/start_evcc.py`: the asyncio entry point only starts the session handler.
- `tests/secc/states/test_iso15118_2_states.py`: it tests charging-station ISO 15118-2 states that are not part of this model.
- `check_msg`, `create_next_message` and `stop_state_machine` are not part of this model. Each is reduced to its effect at this state's boundary: the kind test, and the `Sent` and `Stopped` outcomes. Whatever else they do (timers, EXI encoding, termination reasons) is left out.
- `Protocol.get_by_ns` and `ev_controller.get_evcc_id` are not part of this model. They are arbitrary total functions in `Env`, so the model assumes `get_by_ns` returns a protocol and does not raise. The Protocol and Namespace enumeration values are not part of this model either. Only ISO 15118-2 is named; every other protocol is opaque.
- `time.time()` is a floating-point wall clock. It is the opaque input `now` and is only copied into the header.
- Logging (`sap_states.py:39-41, 99-103, 108`) is left out because it has no effect on state.
- The text of the stop reason is left out. It is modelled as its two values, the response code and the schema id, not as the formatted string.
- The constructor's `SUPPORTED_APP_PROTOCOL_REQ` timeout (`sap_states.py:50-54`) is left out: it belongs to the generic state scaffolding.
- Concurrency on the process-wide resume slot is left out: the slot is passed in and returned explicitly, one call at a time.
