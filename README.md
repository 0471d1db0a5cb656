# btkbdd session core in Dafny

This project models the core of btkbdd, a daemon that emulates a Bluetooth
HID keyboard. It types a text string into a remote host as if it came from a
physical keyboard, and the model proves properties of that core. It has
three parts, one Dafny module each:

- `Ascii2Linux` (`ascii2linux.dfy`) covers the translator. It has the table
  from 7-bit characters to a Linux key plus an optional shift key. The table
  is written the way its C initializer reads: a default entry
  (`KEY_RESERVED`, no shift) and the list of designated rows, looked up by
  character. It also
  has the bounded-buffer encoder that turns one character into press events
  in key order, then release events in reverse order. The encoder's helpers
  `fill_event`, `gen_keys`, `fill_key_presses`, `fill_key_releases` and
  `ascii_char` become methods over arrays. Each is proved against the
  sequence functions `KeysOf`, `PressEvents`, `ReleaseEvents` and
  `CharEvents`.
- `Keyboard` (`keyboard.dfy`) covers the keyboard state machine.
  - `struct key_report` is the class `KeyReport`, whose six key slots are an
    array.
  - `input_event` is `KeyReport.ApplyEvent`, with the source's single
    left-to-right pass over the slots in `KeyReport.ReconcileKeys`.
  - The pass is specified by the function `Pass`. It is proved equal to
    `Reconciled`, an independent statement of the intended update (insert at
    the first free slot; remove and shift left), on every valid slot state.
  - The lemmas about `Reconciled` give slot validity, idempotent presses and
    six-key rollover.
- `Session` (`session.dfy`) covers `hello` and `session`.
  - The outside world is a `Transport`. It gives the result of every connect
    and write as a function of the actions performed so far, and the session
    is described by the trace of `Action`s it performs.
  - `RunSession`, `TypeToken`, `TypeChar`, `HandleEvents`, `HandleEvent`
    and `Hello` are the source's loops and blocks. They are proved equal to
    the functions `SessionTrace`, `CharsFrom`, `EventsFrom`, `EventStep` and
    `Greet`.
  - The properties are proved about those functions: socket discipline,
    pacing, silence without a target, no re-handshake while linked, the
    typed stream, and the happy path on a reliable transport.

`LinuxInput` (`linux_input.dfy`) holds the key codes and the event record of
the Linux input-event interface, with the kernel's values.

Behaviour of the source that the model keeps:

- The report is ten bytes: `struct key_report` is packed 1+1+1+1+6 (keyb.c:19-25).
- ASCII 27 types Backspace, not Escape, although "escape" is the activation
  character's name (`Ascii2Linux.EscapeTypesBackspace`).
- A missing target, a failed connect, a failed handshake or a failed write
  only `break`s out of the current character's events (keyb.c:181-205), and
  the run goes on.
  - A handshake fails unless each of its writes returns 3
    (`Session.GreetOkIff`).
  - A report write breaks off the character only when it returns 0 or less
    (`Session.SendResult`, `Session.LinkedWriteResult`).
  - Each later event that finds no channel open tries to link again
    (`Session.UnlinkedRetries`, `Session.SessionRefused`).
- A failed handshake leaves both channels open
  (`Session.HandshakeFailureKeepsChannels`). Later events therefore write
  reports on the interrupt channel without another handshake, and both
  channels are closed at the end.
- After a character whose events were cut short, its pressed keys and shift
  stay held in the report.

## Model

| member | source | states |
|---|---|---|
| Ascii2Linux.RowChars | btkbdd/ascii2linux.c:27-123 | The designated rows list newline, 27, then 32..126 in increasing order, and each gives a real key. |
| Ascii2Linux.TableEntry | btkbdd/ascii2linux.c:25-124 | Each listed character gets the combination of its own row. Every other 7-bit character gets the default `KEY_RESERVED` without shift. |
| Ascii2Linux.TranslatableIff | btkbdd/ascii2linux.c:195-202 | A character is translatable exactly when it is newline, 27, or in 32..126. |
| Ascii2Linux.LetterCase | btkbdd/ascii2linux.c:25-124 | An upper-case letter uses its lower-case letter's key plus a shift. The lower-case letter uses no shift. |
| Ascii2Linux.EscapeTypesBackspace | btkbdd/ascii2linux.c:28 | Character 27 types Backspace without shift, not Escape. |
| Ascii2Linux.KeysOfShape | btkbdd/ascii2linux.c:182-192 | The key list holds one key without shift, otherwise the matching shift key first. The base key is always last, and there are at most two keys. |
| Ascii2Linux.FillEvent | btkbdd/ascii2linux.c:126-136 | Slot `idx` becomes a key event with the given code and value, and no other slot changes. |
| Ascii2Linux.GenKeys | btkbdd/ascii2linux.c:174-193 | The front of `keys` holds the combination's keys (shift first), the count is returned, and the rest of `keys` is untouched. |
| Ascii2Linux.FillKeyPresses | btkbdd/ascii2linux.c:138-154 | The presses that fit below `maxEvents` are stored in key order from `evIdx` on, and the index advances by that many. The result is true iff all presses fitted. No other slot changes. |
| Ascii2Linux.FillKeyReleases | btkbdd/ascii2linux.c:156-172 | The releases that fit are stored last key first, and the index advances by that many. The result is true iff all releases fitted. No other slot changes. |
| Ascii2Linux.AsciiChar | btkbdd/ascii2linux.c:204-226 | The result is the event count, or -1 for an untranslatable character (nothing written) or on overflow (the prefix that fitted is written). The written events are the character's press-then-release sequence. |
| Ascii2Linux.CharEventsLayout | btkbdd/ascii2linux.c:218-225 | Unshifted characters give 2 events and shifted ones 4. All are key events, presses come first in key order, and each release mirrors a press in reverse order. |
| Ascii2Linux.AsciiCharCountFits | btkbdd/ascii2linux.c:215-225 | With room for MAX_EVENTS_PER_ASCII_CHAR events, the result is -1 iff the character is untranslatable, and otherwise exactly 2 or 4. |
| Ascii2Linux.AsciiCharCountTooSmall | btkbdd/ascii2linux.c:220-225 | With too little room for all events, a translatable character still yields -1. |
| Keyboard.KeyReport.constructor | btkbdd/keyb.c:144-151 | The new report holds the given type byte, report id 1, zero modifiers, a zero reserved byte and six empty slots. |
| Keyboard.KeyReport.ReconcileKeys | btkbdd/keyb.c:78-94 | The slots become the single pass applied to the old slots. On valid slots that is the intended update, and the slots stay valid. |
| Keyboard.KeyReport.ApplyEvent | btkbdd/keyb.c:33-106 | The return value, modifier byte and slots are those of `InputEventEffect` on the old state. Slot validity is preserved, and type, id and reserved bytes are never written. |
| Keyboard.IgnoredEvents | btkbdd/keyb.c:42-49 | Non-key events and codes of 256 or more return 0 and change nothing. |
| Keyboard.ModifierKeyEffect | btkbdd/keyb.c:51-69 | A modifier key returns 1 and sets its bit on a press or clears it on a release. It keeps every other bit and the slots. |
| Keyboard.OtherKeyEffect | btkbdd/keyb.c:70-95 | Any other key in range returns 1, keeps the modifiers, applies the intended slot update and keeps the slots valid. |
| Keyboard.PassMatchesReconciled | btkbdd/keyb.c:78-94 | On valid slots the source's pass equals the abstract update: a held or overflowing press changes nothing, another press takes the first free slot, and a release removes the key and shifts the rest left. |
| Keyboard.ReconciledValid | btkbdd/keyb.c:78-94 | The update keeps occupied slots contiguous from slot 0 and free of duplicates. |
| Keyboard.PressIdempotent | btkbdd/keyb.c:78-94 | Pressing a key twice equals pressing it once. The key is held afterwards when there was room, and never held twice. |
| Keyboard.RolloverKeepsFirstSix | btkbdd/keyb.c:78-94 | Pressing distinct keys one after another keeps the keys already held and adds new ones in press order up to six. Later presses are dropped without overwriting a slot. |
| Session.Hello | btkbdd/keyb.c:108-128 | Writes both handshake packets, stopping at the first that is not written in full, then pauses one second; the result is `Greet`. The handshake succeeds exactly when both writes return 3 (`Session.GreetOkIff`). |
| Session.GreetOkIff | btkbdd/keyb.c:115-127 | `hello` succeeds exactly when the first handshake write returns 3 and then the second returns 3. Any other result, 0 or a short count, fails it. |
| Session.SendResult | btkbdd/keyb.c:197-205 | A send adds the 200 ms pause exactly when paced, then one report write of the current report on the interrupt channel. The character goes on exactly when that write returns more than 0. |
| Session.LinkedWriteResult | btkbdd/keyb.c:179-205 | While linked, a key event in range ends with a write on the interrupt channel and breaks off the character exactly when that write returns 0 or less. |
| Session.GreetKeeps | btkbdd/keyb.c:108-128 | `hello` only appends at most three actions, each a non-report write on the control channel `c` or the one-second pause. It opens or closes nothing. It writes no report and ends with the one-second pause when it succeeds. |
| Session.ReachKeeps | btkbdd/keyb.c:177-195 | Linking leaves both channels open or none. A failed interrupt connect closes the control channel. Linking only appends to the trace, and none of the appended actions is a report write. |
| Session.ReachQuiet | btkbdd/keyb.c:177-195 | Connecting and `hello` only append to the trace. None of the appended actions is a report write, on every environment, whether linking succeeds or not. |
| Session.FinishCloses | btkbdd/keyb.c:212-215 | Closing at the end releases every channel still held. |
| Session.HandleEvent | btkbdd/keyb.c:170-206 | One event applies to the report, links if needed, pauses when paced and writes the report. `go` is false exactly where the source breaks; the result is `EventStep`. A report write stops the character exactly when it returns 0 or less (`Session.SendResult`, `Session.LinkedWriteResult`). |
| Session.HandleEvents | btkbdd/keyb.c:169-207 | The events of one character are handled in order, stopping right after the first one that breaks. Only the session's very first event is unpaced. The result is `EventsFrom`. |
| Session.TypeChar | btkbdd/keyb.c:164-207 | One character is encoded into a four-event buffer. An untranslatable character does nothing, otherwise its events are handled as by `HandleEvents`. The result is `EventsFrom` over the character's press-then-release events. |
| Session.TypeToken | btkbdd/keyb.c:162-208 | The characters of one token are typed in order up to its first NUL. Only the first character of the first token starts the session unpaced. The result is `CharsFrom`. |
| Session.RunSession | btkbdd/keyb.c:131-216 | The trace of the three tokens (each up to its NUL), followed by closing control and then interrupt, is `SessionTrace`. |
| Session.SessionReleasesSockets | btkbdd/keyb.c:177-215 | Every write and close is on a socket open at that point, and the session ends with every socket it opened closed. |
| Session.SessionIsPaced | btkbdd/keyb.c:197-202 | Every report follows the 200 ms pause, or follows the handshake's one-second pause when no report came before it. Every report's slots are valid. |
| Session.NoTargetIsSilent | btkbdd/keyb.c:179-182 | Without a target the session makes no connect, write, pause or close at all. |
| Session.StepPacing | btkbdd/keyb.c:197-205 | On any transport, an unpaced event adds no 200 ms pause, and a paced event that writes a report writes it right after the 200 ms pause. The session's first event is the only unpaced one (`EventAt`, `HandleEvents`). |
| Session.HandshakeFailureKeepsChannels | btkbdd/keyb.c:184-194 | When both connects succeed but `hello` fails, the character stops and both channels stay open. |
| Session.UnlinkedRetries | btkbdd/keyb.c:177-187 | With a target and no channel open, every key event in range, also one after an earlier break, starts by connecting the control channel again. |
| Session.RefusedChar | btkbdd/keyb.c:169-207 | When the target refuses every connect, a translatable character breaks off at its first event after one failed control connect and skips its other events. An untranslatable one does nothing. |
| Session.RefusedStream | btkbdd/keyb.c:159-208 | Under that refusal, a stream of characters adds one failed control connect per translatable character and nothing else. |
| Session.SessionRefused | btkbdd/keyb.c:159-215 | Under that refusal, a failure abandons only the current character. The whole session is exactly one failed control connect per translatable typed character, 11 plus those of the input. There is no write, pause or close. |
| Session.LinkedStep | btkbdd/keyb.c:179-205 | While linked, an event keeps both channels and never reconnects or handshakes again. It adds at most the pause and one write of the updated report to the interrupt channel. |
| Session.SessionTypes | btkbdd/keyb.c:137-162 | The session types ten characters 27, then the input up to its first NUL, then a newline. |
| Session.LinkedReliable | btkbdd/keyb.c:179-206 | On a transport that connects and writes in full, a key event in range while linked keeps both channels, writes one report on the interrupt channel, and the character goes on. A paced event adds exactly the 200 ms pause and the report, an unpaced one only the report. |
| Session.UnlinkedReliable | btkbdd/keyb.c:179-206 | On that transport, with a target, a key event that finds no channel open first opens control and then interrupt, handshakes and pauses right after the trace so far. It then writes one report on the new interrupt channel, after the 200 ms pause only when paced, and the character goes on. |
| Session.ReliableStep | btkbdd/keyb.c:169-206 | On a transport that connects and writes in full, every key event in range is reported exactly once and the character goes on. An event that links first adds the connects, the handshake and the pause. |
| Session.EventsLinked | btkbdd/keyb.c:169-207 | While linked on that transport, every event of a character writes one report and none is dropped. The channels are kept. Past the session's first event, the character adds exactly one 200 ms pause and one report on the interrupt channel per event. |
| Session.StreamLinked | btkbdd/keyb.c:159-208 | While linked on that transport, a stream of characters writes one report per event and keeps the channels. Past the first character, the stream adds only pause-then-report pairs. |
| Session.FirstEscapeLinks | btkbdd/keyb.c:179-205 | The session's first escape links: its press opens both channels, handshakes and writes the first report right after the handshake pause, with no 200 ms pause. Its release writes the second report after the 200 ms pause. |
| Session.TypedCount | btkbdd/keyb.c:137-162 | The typed stream has 22 events (two for each escape and for the newline) plus those of the input up to its NUL. |
| Session.StreamReliable | btkbdd/keyb.c:159-210 | On that transport the session's whole stream begins with the connects, the handshake and its pause, then the unpaced first report. After that come only pause-then-report pairs on the interrupt channel opened first, one report per event. |
| Session.SessionReliable | btkbdd/keyb.c:159-215 | Happy path: control and interrupt connect, both handshakes and the one-second pause come first. The first report follows at once, with no 200 ms pause. Then come only 200 ms pauses, each followed by a report on the interrupt channel, so the handshake happens exactly once. Closing control then interrupt comes last. There is one report per typed event, 22 plus those of the input. |

## Left out

- `loop`, `sdp_open`/`sdp_add_keyboard`/`sdp_remove`, HCI device lookup and the rest of the daemon are not part of this model. They are set-up around the core.
- `l2cap_connect`, `write`, `close`, `sleep` and `usleep` are actions of an abstract transport, and the real sockets and clocks are left out. The source address `src` is only passed on to `l2cap_connect`, so it is part of the transport.
- `DBG`, `perror` and the `DEBUG` report dump are left out: output only.
- The `linux2hid` table, the HIDP_* modifier bits and report-type byte, and the L2CAP PSMs come from headers that are not part of this model. They are parameters: a 256-entry table, eight distinct single bits, and any two PSM values.
- The `ctrl`/`intr` parameters of `input_event` and `max_keys` of `gen_keys` are never read in the source and are dropped.
- `struct input_event`'s time stamp is never set or read and is left out.
- Characters are modelled as `int`, so the model does not choose whether C `char` is signed. Both readings agree, because `translatable` rejects values outside 0..127.
- Session.SessionIsPaced: on an arbitrary transport it states only that every report follows an allowed pause. The positional rule that the session's first event alone is unpaced (keyb.c:198) is stated per event by `Session.StepPacing`, and for the whole trace on a reliable transport by `Session.SessionReliable`.
- Keyboard.KeyReport.ReconcileKeys: on slot states that are not valid (gaps or duplicates), only the exact single pass is stated, not the abstract update. Such states never arise from the initial report: every state the session reaches has valid slots (`Good`, kept by `Session.EventsKeep` and `Session.TokensKeep`).
