/**
 * The bot's shared, mutable state as the handlers of bot.py change it in place:
 * the global `state` record, `state.json` and `log.csv`. Each handler method is
 * proved to do what `Handlers.Step` says.
 */
module Tracker {
  import opened Wrappers
  import opened Roster
  import opened KeyState
  import opened AuditLog
  import opened Callback
  import opened Keyboards
  import opened Handlers

  /** The durable side effects, in the order they happen. */
  datatype Effect = StateSaved | RowLogged

  class KeyTracker {
    var holder: string
    var updatedAt: string
    var pinnedId: Option<int>
    var chatId: Option<int>
    /** The contents of `state.json`. */
    var stateFile: StateFile
    /** The contents of `log.csv`. */
    var logFile: LogFile
    /** Every save and every log append so far. */
    ghost var journal: seq<Effect>

    function Current(): State
      reads this
    {
      State(holder, updatedAt, pinnedId, chatId)
    }

    function AsWorld(): World
      reads this
    {
      World(Current(), stateFile, logFile)
    }

    /** Process start: `state = State.load()` against the files found on disk. */
    constructor (file: StateFile, log: LogFile, importStamp: string)
      ensures Current() == Load(file, importStamp)
      ensures stateFile == file && logFile == log && journal == []
    {
      var s := Load(file, importStamp);
      holder, updatedAt, pinnedId, chatId := s.holder, s.updatedAt, s.pinnedId, s.chatId;
      stateFile, logFile := file, log;
      journal := [];
    }

    /** `State.save`: the file now holds the whole current record. */
    method Save()
      modifies this`stateFile, this`journal
      ensures stateFile == Saved(Current()) && Load(stateFile, "") == Current()
      ensures journal == old(journal) + [StateSaved]
    {
      stateFile := Saved(Current());
      journal := journal + [StateSaved];
      LoadSaved(Current(), "");
    }

    /** `ensure_log_header`: create the log, with its header, only if it is absent. */
    method EnsureLogHeader()
      modifies this`logFile
      ensures logFile == Some(WithHeader(old(logFile)))
      ensures old(logFile).Some? ==> logFile == old(logFile)
    {
      if logFile.None? {
        logFile := Some([Header]);
      }
    }

    /** `log_event`: one row after the existing ones. */
    method LogEvent(action: Action, from: string, to: string, byUser: int, chat: int, stamp: string)
      modifies this`logFile, this`journal
      ensures logFile == Some(Appended(old(logFile), Event(stamp, action, from, to, byUser, chat)))
      ensures Events(Rows(logFile)) == Events(Rows(old(logFile))) + [Event(stamp, action, from, to, byUser, chat)]
      ensures WellFormed(old(logFile)) ==> WellFormed(logFile)
      ensures journal == old(journal) + [RowLogged]
    {
      ghost var before := logFile;
      EnsureLogHeader();
      logFile := Some(logFile.value + [Event(stamp, action, from, to, byUser, chat)]);
      journal := journal + [RowLogged];
      AppendedEvent(before, Event(stamp, action, from, to, byUser, chat));
    }

    /**
     * `on_definir`: the key goes to the name in the payload, with no roster check;
     * the state is saved first, and the row is logged only if the handler gets past
     * editing the pressed message.
     */
    method Transfer(data: string, now: string, logStamp: string, actor: int, chat: int, replyEdited: bool)
      requires HasDefinirPrefix(data)
      modifies this
      ensures AsWorld() == Step(old(AsWorld()), DefinirCb(data, now, logStamp, actor, chat, replyEdited))
      ensures holder == data[|DEFINIR_PREFIX|..] && updatedAt == now
      ensures pinnedId == old(pinnedId) && chatId == old(chatId)
      ensures replyEdited ==>
        Events(Rows(logFile)) == Events(Rows(old(logFile))) + [Event(logStamp, Transferir, old(holder), holder, actor, chat)] &&
        journal == old(journal) + [StateSaved] + [RowLogged]
      ensures !replyEdited ==> logFile == old(logFile) && journal == old(journal) + [StateSaved]
    {
      TransferStep(AsWorld(), DefinirCb(data, now, logStamp, actor, chat, replyEdited));
      DecodeUnderPrefix(data);
      var novo := DecodeDefinir(data).value;
      TransferTo(novo, now, logStamp, actor, chat, replyEdited);
    }

    /** The body of `on_definir` once the payload is decoded to `novo`. */
    method TransferTo(novo: string, now: string, logStamp: string, actor: int, chat: int, replyEdited: bool)
      modifies this
      ensures Current() == Transferred(old(Current()), novo, now)
      ensures stateFile == Saved(Current())
      ensures replyEdited ==>
        logFile == Some(Appended(old(logFile), Event(logStamp, Transferir, old(holder), novo, actor, chat))) &&
        Events(Rows(logFile)) == Events(Rows(old(logFile))) + [Event(logStamp, Transferir, old(holder), novo, actor, chat)] &&
        journal == old(journal) + [StateSaved] + [RowLogged]
      ensures !replyEdited ==> logFile == old(logFile) && journal == old(journal) + [StateSaved]
    {
      var anterior := holder;
      MoveKey(novo, now);
      if replyEdited {
        LogEvent(Transferir, anterior, novo, actor, chat, logStamp);
      }
    }

    /** `state.holder = novo`, `state.updated_at = now`, `state.save()`. */
    method MoveKey(novo: string, now: string)
      modifies this`holder, this`updatedAt, this`stateFile, this`journal
      ensures Current() == Transferred(old(Current()), novo, now)
      ensures stateFile == Saved(Current())
      ensures journal == old(journal) + [StateSaved]
    {
      holder := novo;
      updatedAt := now;
      Save();
    }

    /** `cmd_reset`: the key goes back to the office, saved first, then logged. */
    method Reset(now: string, logStamp: string, actor: int, chat: int)
      modifies this
      ensures AsWorld() == Step(old(AsWorld()), ResetCmd(now, logStamp, actor, chat))
      ensures holder == SECRETARIA && updatedAt == now
      ensures pinnedId == old(pinnedId) && chatId == old(chatId)
      ensures Events(Rows(logFile)) == Events(Rows(old(logFile))) + [Event(logStamp, Action.Reset, old(holder), SECRETARIA, actor, chat)]
      ensures journal == old(journal) + [StateSaved] + [RowLogged]
    {
      var anterior := holder;
      holder := SECRETARIA;
      updatedAt := now;
      assert Current() == ResetState(old(Current()), now);
      Save();
      LogEvent(Action.Reset, anterior, SECRETARIA, actor, chat, logStamp);
    }

    /**
     * `cmd_setup`: outside a group nothing happens; a pinned message in this chat
     * that can be edited is kept; otherwise the new status message and this chat
     * are adopted together and saved.
     */
    method Setup(isGroup: bool, chat: int, editOk: bool, newMsgId: int)
      modifies this
      ensures AsWorld() == Step(old(AsWorld()), SetupCmd(isGroup, chat, editOk, newMsgId))
      ensures holder == old(holder) && updatedAt == old(updatedAt) && logFile == old(logFile)
      ensures Paired(old(Current())) ==> Paired(Current())
      ensures journal == old(journal) + (if !isGroup || KeepsDisplay(old(Current()), chat, editOk) then [] else [StateSaved])
    {
      if !isGroup {
        return;
      }
      if Truthy(pinnedId) && chatId == Some(chat) {
        if editOk {
          return;
        }
        pinnedId := Some(newMsgId);
        chatId := Some(chat);
        Save();
      } else {
        pinnedId := Some(newMsgId);
        chatId := Some(chat);
        Save();
      }
    }

    /**
     * `on_transferir`: the keyboard for the current holder. Every name button names
     * someone on the roster, and never the holder unless the key is at the office.
     */
    method OpenTransferMenu() returns (kb: seq<Button>)
      ensures kb == TransferKeyboard(ExcludeFor(holder))
      ensures |kb| > 0 && kb[|kb| - 1] == BACK
      ensures forall k :: 0 <= k < |kb| - 1 ==>
        kb[k].text in EMPREGADOS && (holder != SECRETARIA ==> kb[k].text != holder)
    {
      kb := BuildTransferKeyboard(ExcludeFor(holder));
      forall k | 0 <= k < |kb| - 1
        ensures kb[k].text in EMPREGADOS && (holder != SECRETARIA ==> kb[k].text != holder)
      {
        KeyboardButtons(ExcludeFor(holder), k);
        RosterShape();
      }
    }
  }
}
