/**
 * The append-only audit log `log.csv`: a header row written once, then one row
 * per transfer or reset (`ensure_log_header` and `log_event` in bot.py).
 */
module AuditLog {
  import opened Wrappers

  /** The `acao` column: "transferir" or "reset". */
  datatype Action = Transferir | Reset

  /**
   * A CSV row: the header `timestamp_utc,acao,de,para,by_user_id,chat_id`, or an
   * event with the log clock reading, the action, the previous and the new holder,
   * the acting user and the chat.
   */
  datatype Row =
    | Header
    | Event(stamp: string, action: Action, from: string, to: string, actor: int, chat: int)

  /** The log file: `None` while it does not exist, otherwise its rows. */
  type LogFile = Option<seq<Row>>

  function Rows(f: LogFile): seq<Row> {
    f.GetOr([])
  }

  /**
   * `ensure_log_header`: the file is opened for appending, which creates it, and
   * the header is written only when the file did not exist before.
   */
  function WithHeader(f: LogFile): (rows: seq<Row>)
    ensures |rows| >= |Rows(f)| && rows[|rows| - |Rows(f)|..] == Rows(f)
    ensures rows != []  || f.Some?
  {
    match f
    case None => [Header]
    case Some(rs) => rs
  }

  /** `log_event`: make sure of the header, then append one row. */
  function Appended(f: LogFile, row: Row): (rows: seq<Row>)
    ensures |rows| > |Rows(f)| && rows[|rows| - 1] == row
  {
    WithHeader(f) + [row]
  }

  /** A log in the shape the bot writes it: absent, or one header followed by events only. */
  ghost predicate WellFormed(f: LogFile) {
    f.None? ||
    (|f.value| > 0 && f.value[0] == Header &&
     forall i :: 0 < i < |f.value| ==> f.value[i].Event?)
  }

  /** The event rows of a log, in order. */
  function Events(rows: seq<Row>): (es: seq<Row>)
    ensures |es| <= |rows|
    ensures forall i :: 0 <= i < |es| ==> es[i].Event?
  {
    if rows == [] then []
    else Events(rows[..|rows| - 1]) + (if rows[|rows| - 1].Event? then [rows[|rows| - 1]] else [])
  }

  /** Making sure of the header twice is the same as once. */
  lemma WithHeaderIdempotent(f: LogFile)
    ensures WithHeader(Some(WithHeader(f))) == WithHeader(f)
  {
  }

  /** An existing log is never rewritten by `ensure_log_header`. */
  lemma WithHeaderKeepsExisting(f: LogFile)
    requires f.Some?
    ensures WithHeader(f) == f.value
  {
  }

  /** Events of a concatenation are the events of each part. */
  lemma {:induction false} EventsAppend(a: seq<Row>, b: seq<Row>)
    ensures Events(a + b) == Events(a) + Events(b)
    decreases |b|
  {
    if b == [] {
      assert a + b == a;
    } else {
      var last := b[|b| - 1];
      assert (a + b)[..|a + b| - 1] == a + b[..|b| - 1];
      EventsAppend(a, b[..|b| - 1]);
    }
  }

  /** In a well-formed log the header is at position 0 and every other row is an event. */
  lemma {:induction false} WellFormedEvents(rows: seq<Row>)
    requires WellFormed(Some(rows))
    ensures Events(rows) == rows[1..]
    ensures |Events(rows)| == |rows| - 1
  {
    assert rows == [rows[0]] + rows[1..];
    EventsAppend([rows[0]], rows[1..]);
    AllEvents(rows[1..]);
  }

  /** A run of events is its own list of events. */
  lemma {:induction false} AllEvents(rows: seq<Row>)
    requires forall i :: 0 <= i < |rows| ==> rows[i].Event?
    ensures Events(rows) == rows
  {
    if rows != [] {
      var init := rows[..|rows| - 1];
      assert forall i :: 0 <= i < |init| ==> init[i] == rows[i];
      AllEvents(init);
    }
  }

  /**
   * `log_event` adds exactly one event after the existing events, and keeps a
   * well-formed log well-formed.
   */
  lemma AppendedEvent(f: LogFile, row: Row)
    requires row.Event?
    ensures Events(Appended(f, row)) == Events(Rows(f)) + [row]
    ensures WellFormed(f) ==> WellFormed(Some(Appended(f, row)))
  {
  }
}
