/**
 * The persisted key state (`State` in bot.py): who holds the key, when that last
 * changed, and which chat message is the pinned status display.
 */
module KeyState {
  import opened Wrappers
  import opened Roster

  /** One value of the process-wide `state` record. Timestamps are opaque ISO strings. */
  datatype State = State(holder: string, updatedAt: string, pinnedId: Option<int>, chatId: Option<int>)

  /**
   * What `state.json` holds, as far as `State.load` can tell: no file, a file that
   * does not parse or does not fit the record (bad JSON, an unknown key), or a JSON
   * object that gives some of the four keys. `None` for a key means the key is absent.
   */
  datatype StateFile =
    | Missing
    | Malformed
    | Stored(holder: Option<string>, updatedAt: Option<string>,
             pinnedId: Option<Option<int>>, chatId: Option<Option<int>>)

  /**
   * The record built with no arguments. The default timestamp is read from the
   * clock once, when the record type is defined, so it is the parameter `importStamp`.
   */
  function Default(importStamp: string): (s: State)
    ensures s.holder == SECRETARIA && s.pinnedId.None? && s.chatId.None?
  {
    State(SECRETARIA, importStamp, None, None)
  }

  /**
   * `State.load`: a missing or unusable file yields the default record, never an
   * error; each key the file holds is taken from it, and a key it leaves out
   * takes its default.
   */
  function Load(file: StateFile, importStamp: string): (s: State)
    ensures !file.Stored? ==> s == Default(importStamp)
    ensures file.Stored? ==>
      var d := Default(importStamp);
      (if file.holder.Some? then s.holder == file.holder.value else s.holder == d.holder) &&
      (if file.updatedAt.Some? then s.updatedAt == file.updatedAt.value else s.updatedAt == d.updatedAt) &&
      (if file.pinnedId.Some? then s.pinnedId == file.pinnedId.value else s.pinnedId == d.pinnedId) &&
      (if file.chatId.Some? then s.chatId == file.chatId.value else s.chatId == d.chatId)
  {
    match file
    case Stored(h, u, p, c) =>
      State(h.GetOr(SECRETARIA), u.GetOr(importStamp), p.GetOr(None), c.GetOr(None))
    case _ => Default(importStamp)
  }

  /** `State.save`: the file afterwards holds all four fields of the record. */
  function Saved(s: State): (f: StateFile)
    ensures f.Stored? && f.holder.Some? && f.updatedAt.Some? && f.pinnedId.Some? && f.chatId.Some?
  {
    Stored(Some(s.holder), Some(s.updatedAt), Some(s.pinnedId), Some(s.chatId))
  }

  /** Saving and reloading gives back exactly the saved record, whatever the import time. */
  lemma LoadSaved(s: State, importStamp: string)
    ensures Load(Saved(s), importStamp) == s
  {
  }

  /** An empty JSON object loads as the default record. */
  lemma LoadEmptyObject(importStamp: string)
    ensures Load(Stored(None, None, None, None), importStamp) == Default(importStamp)
  {
  }

  /** Two records that save to the same file are the same record. */
  lemma SavedInjective(s: State, t: State)
    requires Saved(s) == Saved(t)
    ensures s == t
  {
  }
}
