/**
 * Structured logging: the `extra` mapping `log_event` hands to the logger,
 * built from the event name and the caller's fields with the attribute
 * names of a standard log record removed. The logger call itself is I/O
 * and is not modelled.
 */
module Observability {
  import opened Py

  /** `RESERVED_LOG_KEYS`: the attributes every `LogRecord` already has. */
  const ReservedLogKeys: set<string> :=
    {"name", "msg", "args", "levelname", "levelno", "pathname", "filename", "module",
     "exc_info", "exc_text", "stack_info", "lineno", "funcName", "created", "msecs",
     "relativeCreated", "thread", "threadName", "processName", "process"}

  /** `_clean_fields(fields)`: the fields whose names are not reserved. */
  function CleanFields(fields: map<string, Json>): (r: map<string, Json>)
    ensures r.Keys == fields.Keys - ReservedLogKeys
    ensures forall k :: k in r ==> r[k] == fields[k]
  {
    map k | k in fields && k !in ReservedLogKeys :: fields[k]
  }

  /** Cleaning what is already clean changes nothing. */
  lemma CleanIdempotent(fields: map<string, Json>)
    ensures CleanFields(CleanFields(fields)) == CleanFields(fields)
  {
  }

  /** A map with no reserved name is its own cleaning, and cleaning drops nothing else. */
  lemma CleanKeepsUnreserved(fields: map<string, Json>)
    ensures fields.Keys !! ReservedLogKeys <==> CleanFields(fields) == fields
  {
    if CleanFields(fields) == fields {
      assert fields.Keys == fields.Keys - ReservedLogKeys;
    }
  }

  /** `{"event": event, **_clean_fields(fields)}`: the cleaned fields, then the event name unless a field overrides it. */
  function LogExtra(event: string, fields: map<string, Json>): (extra: map<string, Json>)
    ensures "event" in extra
    ensures extra.Keys == {"event"} + (fields.Keys - ReservedLogKeys)
  {
    map["event" := JStr(event)] + CleanFields(fields)
  }

  /**
   * The `extra` always names the event, holds every unreserved field with
   * its value and no reserved one; Python's keyword arguments never carry a
   * field named `event`, so the event name is never overridden.
   */
  lemma LogExtraContent(event: string, fields: map<string, Json>)
    requires "event" !in fields
    ensures var extra := LogExtra(event, fields);
      && extra["event"] == JStr(event)
      && (forall k :: k in fields && k !in ReservedLogKeys ==> k in extra && extra[k] == fields[k])
      && (forall k :: k in ReservedLogKeys ==> k !in extra)
  {
    assert "event" !in ReservedLogKeys;
  }

  // ---- the logger call ----

  /**
   * The names `Logger.makeRecord` refuses in `extra`, raising `KeyError`:
   * "message" and "asctime", and every attribute a record already has.
   */
  const RecordRefused: set<string> := ReservedLogKeys + {"message", "asctime"}

  /**
   * `log.info(msg, extra=extra)` as far as it can fail: with INFO enabled the
   * record is built and takes the keys of `extra` as attributes, and a key
   * it refuses raises; with INFO disabled no record is built.
   */
  function LogInfo(enabled: bool, extra: map<string, Json>): (r: Result<map<string, Json>>)
    ensures r.Err? <==> enabled && exists k :: k in extra && k in RecordRefused
    ensures r.Ok? ==> r.value == (if enabled then extra else map[])
  {
    if enabled && exists k :: k in extra && k in RecordRefused then Err(KeyErr)
    else Ok(if enabled then extra else map[])
  }

  /** `log_event(event, **fields)` as written: the cleaning leaves "message" and "asctime" in. */
  function LogEventAsWritten(enabled: bool, event: string, fields: map<string, Json>): Result<map<string, Json>>
  {
    LogInfo(enabled, LogExtra(event, fields))
  }

  /** The fields a record accepts: neither a record attribute nor "message" nor "asctime". */
  function SafeFields(fields: map<string, Json>): (r: map<string, Json>)
    ensures r.Keys == fields.Keys - RecordRefused
    ensures forall k :: k in r ==> r[k] == fields[k]
  {
    map k | k in fields && k !in RecordRefused :: fields[k]
  }

  /** `log_event` dropping every name the record refuses, as its cleaning is meant to. */
  function LogEvent(enabled: bool, event: string, fields: map<string, Json>): Result<map<string, Json>>
  {
    LogInfo(enabled, map["event" := JStr(event)] + SafeFields(fields))
  }

  /**
   * The intended call never raises, and an enabled logger receives the
   * event name and every field the record accepts.
   */
  lemma LogEventNeverRaises(enabled: bool, event: string, fields: map<string, Json>)
    requires "event" !in fields
    ensures var r := LogEvent(enabled, event, fields);
      r.Ok? && (enabled ==> r.value.Keys == {"event"} + (fields.Keys - RecordRefused)
                            && r.value["event"] == JStr(event))
  {
    assert "event" !in RecordRefused;
  }

  /** As written, a field named `message` makes an enabled logger raise; the intended call logs the event. */
  lemma MessageFieldRaises(event: string)
    ensures LogEventAsWritten(true, event, map["message" := JStr("done")]) == Err(KeyErr)
    ensures LogEvent(true, event, map["message" := JStr("done")]) == Ok(map["event" := JStr(event)])
  {
    var extra := LogExtra(event, map["message" := JStr("done")]);
    assert "message" in extra && "message" in RecordRefused;
    assert SafeFields(map["message" := JStr("done")]) == map[];
    assert map["event" := JStr(event)] + map[] == map["event" := JStr(event)];
    assert "event" !in RecordRefused;
  }

  /** Without a "message" or "asctime" field the call as written and the intended one agree. */
  lemma AsWrittenAgreesWithoutClash(enabled: bool, event: string, fields: map<string, Json>)
    requires "message" !in fields && "asctime" !in fields
    ensures LogEventAsWritten(enabled, event, fields) == LogEvent(enabled, event, fields)
  {
    assert CleanFields(fields) == SafeFields(fields);
  }
}
