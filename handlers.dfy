/**
 * What the command and button handlers of bot.py do to the bot's durable world:
 * the in-memory state, `state.json` and `log.csv`. Each handler is one atomic
 * step. Chat transport calls are reduced to the outcomes that change that world.
 */
module Handlers {
  import opened Wrappers
  import opened Roster
  import opened KeyState
  import opened AuditLog
  import opened Callback
  import opened Keyboards

  datatype World = World(state: State, file: StateFile, log: LogFile)

  /**
   * A handled event.
   * - `SetupCmd`: `/setup` in a chat; `editOk` is whether editing the pinned message
   *   succeeded, `newMsgId` the id of the status message sent when it is recreated.
   * - `ResetCmd`: `/reset`; `now` is the state's clock reading, `logStamp` the log's.
   * - `DefinirCb`: a button press with payload `data`; `replyEdited` is whether
   *   editing the pressed message succeeded (a failure there ends the handler).
   */
  datatype Op =
    | SetupCmd(isGroup: bool, chat: int, editOk: bool, newMsgId: int)
    | ResetCmd(now: string, logStamp: string, actor: int, chat: int)
    | DefinirCb(data: string, now: string, logStamp: string, actor: int, chat: int, replyEdited: bool)

  /** Python truthiness of an optional message id: present and non-zero. */
  predicate Truthy(id: Option<int>) {
    id.Some? && id.value != 0
  }

  /** `cmd_setup` keeps the display it has: a pinned message in this chat that could be edited. */
  predicate KeepsDisplay(s: State, chat: int, editOk: bool) {
    Truthy(s.pinnedId) && s.chatId == Some(chat) && editOk
  }

  /** A transfer of the key to `novo` at time `now`. */
  function Transferred(s: State, novo: string, now: string): (t: State)
    ensures t.holder == novo && t.updatedAt == now
    ensures t.pinnedId == s.pinnedId && t.chatId == s.chatId
  {
    s.(holder := novo, updatedAt := now)
  }

  /** A reset at time `now`: the key is back at the office. */
  function ResetState(s: State, now: string): (t: State)
    ensures t.holder == SECRETARIA && t.updatedAt == now
    ensures t.pinnedId == s.pinnedId && t.chatId == s.chatId
  {
    s.(holder := SECRETARIA, updatedAt := now)
  }

  /** The display reference after `/setup`: kept, or replaced by the new message in this chat. */
  function SetupState(s: State, isGroup: bool, chat: int, editOk: bool, newMsgId: int): (t: State)
    ensures t.holder == s.holder && t.updatedAt == s.updatedAt
    ensures !isGroup || KeepsDisplay(s, chat, editOk) ==> t == s
    ensures isGroup && !KeepsDisplay(s, chat, editOk) ==>
      t.pinnedId == Some(newMsgId) && t.chatId == Some(chat)
  {
    if !isGroup || KeepsDisplay(s, chat, editOk) then s
    else s.(pinnedId := Some(newMsgId), chatId := Some(chat))
  }

  /**
   * One handler run. Whatever it changes, it leaves the state file holding the
   * state; only a row-logging event touches the log, and only by growing it; only
   * `/setup` moves the display reference.
   */
  function Step(w: World, op: Op): (w': World)
    ensures w' == w || w'.file == Saved(w'.state)
    ensures w'.log != w.log ==> LogsRow(op) && |Rows(w'.log)| > |Rows(w.log)|
    ensures w'.state.pinnedId != w.state.pinnedId || w'.state.chatId != w.state.chatId ==> op.SetupCmd?
  {
    match op
    case SetupCmd(isGroup, chat, editOk, newMsgId) =>
      if !isGroup || KeepsDisplay(w.state, chat, editOk) then w
      else
        var s := SetupState(w.state, isGroup, chat, editOk, newMsgId);
        World(s, Saved(s), w.log)
    case ResetCmd(now, logStamp, actor, chat) =>
      var s := ResetState(w.state, now);
      World(s, Saved(s), Some(Appended(w.log, Event(logStamp, Reset, w.state.holder, SECRETARIA, actor, chat))))
    case DefinirCb(data, now, logStamp, actor, chat, replyEdited) =>
      if !HasDefinirPrefix(data) then w
      else
        match DecodeDefinir(data)
        case None => w
        case Some(novo) =>
          var s := Transferred(w.state, novo, now);
          var log := if replyEdited
            then Some(Appended(w.log, Event(logStamp, Transferir, w.state.holder, novo, actor, chat)))
            else w.log;
          World(s, Saved(s), log)
  }

  /** Handlers run one after another. */
  function Run(w: World, ops: seq<Op>): World
    decreases |ops|
  {
    if ops == [] then w else Run(Step(w, ops[0]), ops[1..])
  }

  /** The number of log rows a sequence of events appends. */
  function Logged(ops: seq<Op>): (n: nat)
    ensures n <= |ops|
  {
    if ops == [] then 0
    else
      (if LogsRow(ops[0]) then 1 else 0) + Logged(ops[1..])
  }

  /** The event appends a log row: a reset, or a transfer whose handler got past its reply edit. */
  predicate LogsRow(op: Op) {
    op.ResetCmd? || (op.DefinirCb? && HasDefinirPrefix(op.data) && op.replyEdited)
  }

  /** The payload sits on a button of some transfer keyboard. */
  ghost predicate FromKeyboard(data: string) {
    exists exclude: Option<string>, k :: 0 <= k < |TransferKeyboard(exclude)| && TransferKeyboard(exclude)[k].data == data
  }

  /** Pinned message and chat are both known or both unknown. */
  predicate Paired(s: State) {
    s.pinnedId.Some? <==> s.chatId.Some?
  }

  /**
   * A press of a transfer button moves the key to the name on the button, stamps
   * the state, saves it, and (when the pressed message could be edited) logs one
   * `transferir` row from the previous holder to the new one. No roster check is
   * made: the name is whatever follows the first separator.
   */
  lemma TransferStep(w: World, op: Op)
    requires op.DefinirCb? && HasDefinirPrefix(op.data)
    ensures var novo := op.data[|DEFINIR_PREFIX|..];
      var s := Transferred(w.state, novo, op.now);
      Step(w, op) == World(s, Saved(s), if op.replyEdited
        then Some(Appended(w.log, Event(op.logStamp, Transferir, w.state.holder, novo, op.actor, op.chat)))
        else w.log)
    ensures var w' := Step(w, op);
      var novo := op.data[|DEFINIR_PREFIX|..];
      w'.state == Transferred(w.state, novo, op.now) &&
      w'.file == Saved(w'.state) &&
      w'.log == (if op.replyEdited
        then Some(Appended(w.log, Event(op.logStamp, Transferir, w.state.holder, novo, op.actor, op.chat)))
        else w.log) &&
      (op.replyEdited ==>
        Events(Rows(w'.log)) == Events(Rows(w.log)) + [Event(op.logStamp, Transferir, w.state.holder, novo, op.actor, op.chat)]) &&
      (!op.replyEdited ==> w'.log == w.log)
  {
    DecodeUnderPrefix(op.data);
    var novo := op.data[|DEFINIR_PREFIX|..];
    var s := Transferred(w.state, novo, op.now);
    var row := Event(op.logStamp, Transferir, w.state.holder, novo, op.actor, op.chat);
    if op.replyEdited {
      assert Step(w, op) == World(s, Saved(s), Some(Appended(w.log, row)));
      AppendedEvent(w.log, row);
    } else {
      assert Step(w, op) == World(s, Saved(s), w.log);
    }
  }

  /**
   * `/reset` gives the same state and state file as pressing the button for the
   * office, and the same log row except for its action.
   */
  lemma ResetIsTransferToDefault(w: World, now: string, logStamp: string, actor: int, chat: int)
    ensures var r := Step(w, ResetCmd(now, logStamp, actor, chat));
      var t := Step(w, DefinirCb(EncodeDefinir(SECRETARIA), now, logStamp, actor, chat, true));
      r.state == t.state && r.file == t.file &&
      Events(Rows(r.log)) == Events(Rows(w.log)) + [Event(logStamp, Reset, w.state.holder, SECRETARIA, actor, chat)] &&
      Events(Rows(t.log)) == Events(Rows(w.log)) + [Event(logStamp, Transferir, w.state.holder, SECRETARIA, actor, chat)]
  {
    EncodedHasPrefix(SECRETARIA);
    DecodeEncode(SECRETARIA);
    AppendedEvent(w.log, Event(logStamp, Reset, w.state.holder, SECRETARIA, actor, chat));
    AppendedEvent(w.log, Event(logStamp, Transferir, w.state.holder, SECRETARIA, actor, chat));
  }

  /** Pressing the button of the current holder keeps the holder but still logs a row. */
  lemma Reaffirmation(w: World, now: string, logStamp: string, actor: int, chat: int)
    ensures var w' := Step(w, DefinirCb(EncodeDefinir(w.state.holder), now, logStamp, actor, chat, true));
      w'.state.holder == w.state.holder &&
      |Events(Rows(w'.log))| == |Events(Rows(w.log))| + 1
  {
    var op := DefinirCb(EncodeDefinir(w.state.holder), now, logStamp, actor, chat, true);
    EncodedHasPrefix(w.state.holder);
    TransferStep(w, op);
  }

  /** `/setup` outside a group, or with a pinned message in this chat that could be edited, changes nothing. */
  lemma SetupKeeps(w: World, op: Op)
    requires op.SetupCmd? && (!op.isGroup || KeepsDisplay(w.state, op.chat, op.editOk))
    ensures Step(w, op) == w
  {
  }

  /**
   * Otherwise `/setup` adopts the new message and this chat together and saves,
   * leaving the holder, the time and the log alone; a second `/setup` in the same
   * chat whose edit succeeds then keeps that display.
   */
  lemma SetupRepairs(w: World, op: Op)
    requires op.SetupCmd? && op.isGroup && !KeepsDisplay(w.state, op.chat, op.editOk)
    ensures var w' := Step(w, op);
      w'.state.pinnedId == Some(op.newMsgId) && w'.state.chatId == Some(op.chat) &&
      w'.state.holder == w.state.holder && w'.state.updatedAt == w.state.updatedAt &&
      w'.file == Saved(w'.state) && w'.log == w.log &&
      (op.newMsgId != 0 ==> Step(w', SetupCmd(true, op.chat, true, op.newMsgId + 1)) == w')
  {
  }

  /** Who holds the key after one handler. */
  lemma StepHolder(w: World, op: Op)
    ensures Step(w, op).state.holder ==
      if op.ResetCmd? then SECRETARIA
      else if op.DefinirCb? && HasDefinirPrefix(op.data) then op.data[|DEFINIR_PREFIX|..]
      else w.state.holder
  {
    if op.DefinirCb? && HasDefinirPrefix(op.data) {
      DecodeUnderPrefix(op.data);
    }
  }

  /**
   * If every button press carries a payload from a transfer keyboard, the key
   * never leaves the roster.
   */
  lemma {:induction false} RunKeepsHolderInRoster(w: World, ops: seq<Op>)
    requires w.state.holder in EMPREGADOS
    requires forall k :: 0 <= k < |ops| && ops[k].DefinirCb? ==> FromKeyboard(ops[k].data)
    ensures Run(w, ops).state.holder in EMPREGADOS
    decreases |ops|
  {
    if ops != [] {
      StepKeepsHolderInRoster(w, ops[0]);
      var rest := ops[1..];
      assert forall k :: 0 <= k < |rest| ==> rest[k] == ops[k + 1];
      RunKeepsHolderInRoster(Step(w, ops[0]), rest);
    }
  }

  /** One handler keeps the key on the roster when a button press carries a keyboard payload. */
  lemma StepKeepsHolderInRoster(w: World, op: Op)
    requires w.state.holder in EMPREGADOS
    requires op.DefinirCb? ==> FromKeyboard(op.data)
    ensures Step(w, op).state.holder in EMPREGADOS
  {
    StepHolder(w, op);
    if op.DefinirCb? && HasDefinirPrefix(op.data) {
      var exclude: Option<string>, k :| 0 <= k < |TransferKeyboard(exclude)| && TransferKeyboard(exclude)[k].data == op.data;
      KeyboardButtons(exclude, k);
      DecodeUnderPrefix(op.data);
    }
  }

  /** The display reference stays paired through every handler. */
  lemma {:induction false} RunKeepsPaired(w: World, ops: seq<Op>)
    requires Paired(w.state)
    ensures Paired(Run(w, ops).state)
    decreases |ops|
  {
    if ops != [] {
      RunKeepsPaired(Step(w, ops[0]), ops[1..]);
    }
  }

  /** One handler keeps a well-formed log well-formed and appends at most one event. */
  lemma StepLog(w: World, op: Op)
    requires WellFormed(w.log)
    ensures var w' := Step(w, op);
      WellFormed(w'.log) &&
      |Events(Rows(w'.log))| == |Events(Rows(w.log))| + (if LogsRow(op) then 1 else 0) &&
      Events(Rows(w'.log))[..|Events(Rows(w.log))|] == Events(Rows(w.log))
  {
    var e0 := Events(Rows(w.log));
    if op.ResetCmd? {
      var row := Event(op.logStamp, Reset, w.state.holder, SECRETARIA, op.actor, op.chat);
      assert Step(w, op).log == Some(Appended(w.log, row));
      AppendedEvent(w.log, row);
      assert (e0 + [row])[..|e0|] == e0;
    } else if op.DefinirCb? && HasDefinirPrefix(op.data) {
      TransferStep(w, op);
      if op.replyEdited {
        var row := Event(op.logStamp, Transferir, w.state.holder, op.data[|DEFINIR_PREFIX|..], op.actor, op.chat);
        AppendedEvent(w.log, row);
        assert (e0 + [row])[..|e0|] == e0;
      }
    } else {
      assert Step(w, op).log == w.log;
    }
  }

  /**
   * The log only grows: a well-formed log stays well-formed, earlier events are
   * kept in place, and each reset and each completed transfer adds exactly one event.
   */
  lemma {:induction false} RunAppendsOnly(w: World, ops: seq<Op>)
    requires WellFormed(w.log)
    ensures var w' := Run(w, ops);
      WellFormed(w'.log) &&
      |Events(Rows(w'.log))| == |Events(Rows(w.log))| + Logged(ops) &&
      Events(Rows(w'.log))[..|Events(Rows(w.log))|] == Events(Rows(w.log))
    decreases |ops|
  {
    if ops != [] {
      var w1 := Step(w, ops[0]);
      StepLog(w, ops[0]);
      RunAppendsOnly(w1, ops[1..]);
      var e0, e1, e2 := Events(Rows(w.log)), Events(Rows(w1.log)), Events(Rows(Run(w1, ops[1..]).log));
      assert e1[..|e0|] == e0;
      assert e2[..|e0|] == e2[..|e1|][..|e0|];
    }
  }

  /** The world of a first start: no state file, no log. */
  function Fresh(importStamp: string): (w: World)
    ensures w.state.holder == SECRETARIA && w.log.None? && WellFormed(w.log)
  {
    World(Load(Missing, importStamp), Missing, None)
  }

  /**
   * From a first start: a transfer to `n`, the same transfer again, then a reset.
   * The key ends at the office and the log holds the header and three events in
   * that order, the second one a reaffirmation from `n` to `n`.
   */
  lemma Scenario(n: string, t0: string, t1: string, t2: string, t3: string)
    ensures var ops := [
        DefinirCb(EncodeDefinir(n), t1, t1, 1, 100, true),
        DefinirCb(EncodeDefinir(n), t2, t2, 2, 100, true),
        ResetCmd(t3, t3, 1, 100)];
      var w := Run(Fresh(t0), ops);
      w.state.holder == SECRETARIA && w.state.updatedAt == t3 &&
      w.log == Some([Header,
        Event(t1, Transferir, SECRETARIA, n, 1, 100),
        Event(t2, Transferir, n, n, 2, 100),
        Event(t3, Reset, n, SECRETARIA, 1, 100)])
  {
    var a := DefinirCb(EncodeDefinir(n), t1, t1, 1, 100, true);
    var b := DefinirCb(EncodeDefinir(n), t2, t2, 2, 100, true);
    var c := ResetCmd(t3, t3, 1, 100);
    var e1 := Event(t1, Transferir, SECRETARIA, n, 1, 100);
    var e2 := Event(t2, Transferir, n, n, 2, 100);
    var e3 := Event(t3, Reset, n, SECRETARIA, 1, 100);
    var w0 := Fresh(t0);
    PressNameButton(w0, n, t1, 1, 100);
    var w1 := Step(w0, a);
    assert w1.log == Some([Header] + [e1]) && [Header] + [e1] == [Header, e1];
    PressNameButton(w1, n, t2, 2, 100);
    var w2 := Step(w1, b);
    assert w2.log == Some([Header, e1] + [e2]) && [Header, e1] + [e2] == [Header, e1, e2];
    ResetStep(w2, c);
    var w3 := Step(w2, c);
    assert w3.log == Some([Header, e1, e2] + [e3]) && [Header, e1, e2] + [e3] == [Header, e1, e2, e3];
    RunThree(w0, a, b, c);
  }

  /** Three handlers in a row are three steps. */
  lemma RunThree(w: World, a: Op, b: Op, c: Op)
    ensures Run(w, [a, b, c]) == Step(Step(Step(w, a), b), c)
  {
    RunFirst(w, [a, b, c]);
    assert [a, b, c][0] == a && [a, b, c][1..] == [b, c];
    RunFirst(Step(w, a), [b, c]);
    assert [b, c][0] == b && [b, c][1..] == [c];
    RunFirst(Step(Step(w, a), b), [c]);
    assert [c][0] == c && [c][1..] == [];
  }

  /** Pressing the completed button for `n`, with one clock reading for the state and the log. */
  lemma PressNameButton(w: World, n: string, t: string, actor: int, chat: int)
    ensures var s := Transferred(w.state, n, t);
      Step(w, DefinirCb(EncodeDefinir(n), t, t, actor, chat, true)) ==
      World(s, Saved(s), Some(WithHeader(w.log) + [Event(t, Transferir, w.state.holder, n, actor, chat)]))
  {
    EncodedHasPrefix(n);
    TransferStep(w, DefinirCb(EncodeDefinir(n), t, t, actor, chat, true));
  }

  /** `/reset`: the key goes to the office, the state is saved, and one `reset` row follows. */
  lemma ResetStep(w: World, op: Op)
    requires op.ResetCmd?
    ensures var s := ResetState(w.state, op.now);
      Step(w, op) == World(s, Saved(s), Some(WithHeader(w.log) + [Event(op.logStamp, Reset, w.state.holder, SECRETARIA, op.actor, op.chat)]))
  {
  }

  /** Running a non-empty sequence is the first step, then the rest. */
  lemma RunFirst(w: World, ops: seq<Op>)
    requires ops != []
    ensures Run(w, ops) == Run(Step(w, ops[0]), ops[1..])
  {
  }
}
