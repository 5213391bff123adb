# Key-holder bot: a Dafny model

The "Bot da Chave" is a Telegram bot that tracks who holds an office's one
physical key. The roster is fixed (`EMPREGADOS`), and "Secretaria" means the
key is back at the office. Three handlers change the shared `state` record:
- `on_definir` transfers the key when a transfer button is pressed.
- `cmd_reset` returns the key to the office.
- `cmd_setup` creates or repairs the pinned status message.

The record is saved to `state.json` and reloaded at start-up. Every reset, and
every transfer whose handler gets past editing the pressed message (bot.py:224),
appends a row to the audit log `log.csv`; a transfer whose edit fails is saved
but not logged. Pure helpers decide what users
see: the status text, the transfer keyboard, and the callback payload
`"definir::" + nome`.

Modules, following the parts of `bot.py`:
- `Roster`: the roster and the default holder.
- `KeyState`: the `State` record, `State.load` with its fallback to defaults, and `State.save`.
- `AuditLog`: log rows, `ensure_log_header`, `log_event`, and the log's well-formedness.
- `Callback`: encoding of button payloads, and decoding by `split("::", 1)[1]`.
- `Keyboards`: `build_transfer_keyboard` as a loop method proved against a spec function, plus the exclusion rule of `on_transferir`.
- `Status`: `status_text`.
- `Handlers`: a pure, step-by-step specification of the handlers over the world (state, state file, log). It also holds invariants over any sequence of handler runs.
- `Tracker`: class `KeyTracker`, whose methods change the fields in place as the handlers do. Each handler method (`Setup`, `Reset`, `Transfer`) is proved to match `Handlers.Step`.

Transport outcomes are parameters:
- `editOk`: whether the pinned-message edit in `cmd_setup` succeeded.
- `newMsgId`: the id of the message sent when the display is recreated.
- `replyEdited`: whether `on_definir`'s edit of the pressed message succeeded.

Clock readings are opaque strings supplied by the caller. The state's reading
(`now`) and the log's reading (`logStamp`) are separate parameters, because the
code reads the clock twice.

Where the code departs from the intended design of the bot, the model follows the code:
- `on_definir` does no roster check: the new holder is whatever follows the first `"::"` (bot.py:206-209). There is no `InvalidHolder` error. Roster membership is proved only for payloads taken from a transfer keyboard (`Handlers.RunKeepsHolderInRoster`).
- `on_definir` edits the pressed message outside any `try` (bot.py:224), after saving and before logging. If that edit fails, the state stays saved and no log row is written. So a transfer logs a row only when `replyEdited` holds. A reset always logs.
- Timestamps are not claimed to be monotonic.
- `State.load` does not check that the pinned message id and the chat id are both present or both absent. The handlers only preserve that pairing (`Handlers.RunKeepsPaired`).
- A transfer to the current holder (reaffirmation) updates the time and still logs a row.
- Python truthiness is kept as written:
  - An empty exclude name excludes nothing (bot.py:92).
  - A pinned message id of `0` counts as absent in `cmd_setup` (bot.py:136).

## Model

| member | source | states |
|---|---|---|
| `Roster.RosterShape` | bot.py:27-38 | The roster has 15 distinct, non-empty names, and the default holder "Secretaria" comes first |
| `KeyState.Default` | bot.py:40-45 | A record built with no arguments has holder "Secretaria" and no pinned message or chat |
| `KeyState.Load` | bot.py:40-55 | A missing or unparseable state file loads as the default record, never as an error. Each key the file holds is taken from it; each absent key takes its default: holder "Secretaria", the import-time stamp, no pinned message, no chat |
| `KeyState.Saved` | bot.py:57-58 | Saving writes all four fields of the record |
| `KeyState.LoadSaved` | bot.py:47-58 | Loading what was saved gives back exactly the saved record |
| `KeyState.LoadEmptyObject` | bot.py:40-52 | An empty JSON object loads as the default record: each absent key takes its default |
| `KeyState.SavedInjective` | bot.py:57-58 | Different records never save to the same file |
| `AuditLog.WithHeader` | bot.py:70-75 | After `ensure_log_header` the log exists, and the earlier rows are kept as its tail |
| `AuditLog.Appended` | bot.py:77-81 | `log_event` grows the log, and the new row is last |
| `AuditLog.WithHeaderIdempotent` | bot.py:70-75 | Running `ensure_log_header` twice is the same as running it once |
| `AuditLog.WithHeaderKeepsExisting` | bot.py:70-75 | An existing log file is left exactly as it was: the header is written only when the file was absent |
| `AuditLog.WellFormedEvents` | bot.py:70-81 | In a well-formed log the single header is at position 0, and all later rows are events |
| `AuditLog.AppendedEvent` | bot.py:77-81 | `log_event` adds exactly one event after the existing ones, and keeps a well-formed log well-formed |
| `Callback.EncodeDefinir` | bot.py:94 | The payload is the prefix followed by the name |
| `Callback.HasDefinirPrefix` | bot.py:204 | The router's `startswith("definir::")` passes exactly the payloads that are the encoding of the text after the prefix |
| `Callback.FirstSep` | bot.py:206 | The search for the first "::" from a position: no separator starts before the result, and the result is a separator or the end of the text |
| `Callback.AfterFirstSep` | bot.py:206 | `split("::", 1)[1]` is the text after the first separator, and it fails exactly when there is no separator |
| `Callback.DecodeDefinir` | bot.py:206 | A decoded name is shorter than its payload |
| `Callback.DecodeEncode` | bot.py:206 | Decoding inverts the encoding at bot.py:94 for every name, including names that contain "::" |
| `Callback.DecodeUnderPrefix` | bot.py:204-206 | Every payload the router passes to `on_definir` decodes to the text after "definir::", and re-encoding it gives the payload back |
| `Callback.EncodedHasPrefix` | bot.py:94 | Every encoded payload passes the router's `startswith("definir::")` test |
| `Keyboards.Kept` | bot.py:91-93 | Skipping the excluded name never adds names: at most one kept name per listed name |
| `Keyboards.TransferKeyboard` | bot.py:89-98 | The keyboard has at most one button per roster name plus one, always ends with the back button, and each name button's payload is "definir::" followed by its label |
| `Keyboards.ExcludeFor` | bot.py:194-195 | Nothing is excluded exactly when the holder is "Secretaria" |
| `Keyboards.BuildTransferKeyboard` | bot.py:89-98 | The loop builds one button per kept roster name, in roster order, then the back button |
| `Keyboards.KeptMembers` | bot.py:91-94 | A name gets a button exactly when it is on the roster and not excluded |
| `Keyboards.KeptAll` | bot.py:91-94 | When no listed name is excluded, every name gets a button, in order |
| `Keyboards.KeptDropsAt` | bot.py:91-94 | Excluding a name of a list without repeats removes exactly that one position |
| `Keyboards.MenuNames` | bot.py:193-196 | Names on the transfer keyboard: the whole roster when the holder is Secretaria or not on the roster; otherwise the roster minus the holder |
| `Keyboards.KeyboardButtons` | bot.py:89-98 | Every button but the last decodes to its own label, a roster name that is not excluded; the last is "voltar", which the definir router never matches |
| `Status.Local` | bot.py:102 | The place line reads "Secretaria" exactly when the holder is Secretaria, and "Fora da Secretaria" otherwise |
| `Status.StatusText` | bot.py:100-106 | The text starts with the status prefix, a blank line and the "**Chave com:** " label. Then come the holder, a line break, the "**Atualizado:** " label, the shown update time, a line break, and the "**Local:** " label with the place |
| `Status.ReadHolder` | bot.py:103-104 | The holder is read back from the status text as the rest of the line after its label, when it has no line break |
| `Status.StatusNamesHolder` | bot.py:103-104 | For holders without line breaks, texts shown at the same time are equal only for equal holders |
| `Status.StatusNamesTime` | bot.py:101-105 | For one holder, equal status texts mean equal displayed update times |
| `Handlers.Step` | bot.py:128-236 | Any handler that changes the world leaves the state file holding the new state. The log changes only for a reset or a transfer past its reply edit, and then it grows. Only `/setup` changes the pinned message or the chat |
| `Handlers.Transferred` | bot.py:209-210 | A transfer sets the holder and the time and keeps the display reference |
| `Handlers.ResetState` | bot.py:171-172 | A reset sets the holder to "Secretaria" and updates the time, whatever the previous holder; the display reference is kept |
| `Handlers.SetupState` | bot.py:129-160 | Setup never touches the holder or the time. It changes nothing outside a group, or when an editable pinned message in this chat exists; otherwise it adopts the new message and this chat together |
| `Handlers.TransferStep` | bot.py:204-226 | A transfer button press sets the holder to the decoded name and the time to now, then saves. If the handler reaches the log call, exactly one `transferir` row from the previous to the new holder follows; otherwise the log is untouched |
| `Handlers.ResetStep` | bot.py:168-186 | `/reset` sets the holder to Secretaria and the time to now, saves, and appends one `reset` row from the previous holder after making sure of the header |
| `Handlers.PressNameButton` | bot.py:204-226 | Pressing the button for a name, with the reply edit succeeding, moves the key to that name, saves, and appends one `transferir` row from the previous holder |
| `Handlers.ResetIsTransferToDefault` | bot.py:168-186 | `/reset` gives the same state and state file as pressing the Secretaria button; the logged rows differ only in the action |
| `Handlers.Reaffirmation` | bot.py:226-232 | Transferring to the current holder keeps the holder but still appends one event |
| `Handlers.SetupKeeps` | bot.py:129-142 | `/setup` outside a group, or with an editable pinned message in this chat, changes nothing |
| `Handlers.SetupRepairs` | bot.py:143-160 | Otherwise `/setup` adopts the new message id and this chat together and saves. It leaves the holder, the time and the log alone, and a later `/setup` whose edit succeeds keeps that display |
| `Handlers.StepHolder` | bot.py:168-211 | After one handler the holder is Secretaria (reset), the decoded name (transfer), or unchanged (setup, unrouted payload) |
| `Handlers.StepLog` | bot.py:168-226 | One handler keeps a well-formed log well-formed, keeps the earlier events, and adds at most one event |
| `Handlers.StepKeepsHolderInRoster` | bot.py:204-209 | One handler keeps the key on the roster when a button press carries a payload from a transfer keyboard |
| `Handlers.RunKeepsHolderInRoster` | bot.py:204-209 | If every button press carries a payload from a transfer keyboard, the holder stays on the roster through any sequence of handlers |
| `Handlers.RunKeepsPaired` | bot.py:149-160 | The pinned message id and the chat id stay both present or both absent through any sequence of handlers |
| `Handlers.RunAppendsOnly` | bot.py:77-81 | Over any sequence of handlers the log stays well-formed and earlier events stay in place. The event count grows by exactly the number of resets plus completed transfers |
| `Handlers.Scenario` | bot.py:168-232 | From a first start: transfer to n, transfer to n again, then reset. This ends at Secretaria, with a header and three rows: Secretaria→n, n→n, reset n→Secretaria |
| `Tracker.KeyTracker.constructor` | bot.py:119 | Start-up loads the state from the file found on disk |
| `Tracker.KeyTracker.Save` | bot.py:57-58 | The state file then holds the current record, which loads back unchanged |
| `Tracker.KeyTracker.EnsureLogHeader` | bot.py:70-75 | Creates the log with a header only when it is absent; an existing log is unchanged |
| `Tracker.KeyTracker.LogEvent` | bot.py:77-81 | Appends exactly one event after the existing events, keeping a well-formed log well-formed |
| `Tracker.KeyTracker.Transfer` | bot.py:204-236 | Does what `Handlers.Step` says for a button press: the holder becomes the decoded name, the time becomes now, and the state is saved. One `transferir` row follows the save when the reply edit succeeds |
| `Tracker.KeyTracker.TransferTo` | bot.py:207-226 | Once the payload is decoded: the holder and the time are set and saved. One `transferir` row from the previous holder follows only when the reply edit succeeded; otherwise the log is untouched |
| `Tracker.KeyTracker.MoveKey` | bot.py:209-211 | Sets the holder and the time, keeps the display reference, and saves the new record |
| `Tracker.KeyTracker.Reset` | bot.py:168-187 | Does what `Handlers.Step` says for `/reset`: holder Secretaria, time now, save, then one `reset` row from the previous holder |
| `Tracker.KeyTracker.Setup` | bot.py:128-162 | Does what `Handlers.Step` says for `/setup`. The holder, the time and the log are unchanged, the display pairing is preserved, and the state is saved only when the display is replaced |
| `Tracker.KeyTracker.OpenTransferMenu` | bot.py:192-197 | Builds the keyboard for the current holder. Every name button is a roster name, never the holder unless the key is at the office, and the last button is "back" |

## Left out

- Chat transport: `bot.edit_message_text`, `pin_chat_message`, `msg.answer`, `msg.reply`, `edit_reply_markup`, `cb.answer`, and the polling loop `main`. These are asynchronous calls into aiogram. Only the outcomes that change state are parameters: `editOk`, `newMsgId` and `replyEdited`.
- Editing the pinned status message in `cmd_reset` and `on_definir` (bot.py:175-184, 213-222): failures are swallowed and nothing is stored, so the model has no counterpart. The same holds for the swallowed pin failures in `cmd_setup` (bot.py:145-148, 154-157).
- `cmd_setup`: if sending the new status message fails, the `except` branch sends it again. The model treats sending as always succeeding and takes the adopted id as `newMsgId`.
- `load_dotenv` and the `BOT_TOKEN` check: environment set-up.
- `fmt_brazil` and `utcnow_iso`: clock reading and time-zone rendering. Timestamps are caller-supplied strings, and `Status.StatusText` takes the rendered time as a parameter.
- JSON and CSV encodings, and file I/O errors. The state file is the abstract `StateFile`: absent, malformed, or a record with each key present or absent. A JSON value of the wrong type (for example a numeric holder) is not modelled. An exception raised by a disk write, which would end a handler midway, is not modelled.
- The CSV header's column names and the string form of actions ("transferir", "reset"): rows are the `Row` datatype, not text.
- The keyboard's layout into rows of three (`kb.adjust(3)`), `build_main_keyboard`, `on_voltar`, `cmd_start` and `cmd_status` (bot.py:164-166, which only replies with the status text and the main keyboard): these are presentation with no state.
- The confirmation replies of `on_definir` (the "agora com" or "permanece com" choice): user-facing text.
- Interleaving of asynchronous handlers: each handler is one atomic step.
