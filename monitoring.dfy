/** The monitoring service of client/src/services/monitoringService.js:
    shallow-copy log redaction, the alert rule, and the `events` and
    `errorCount` state of the service. What the service sends to the console
    or the remote collector is recorded, in order, as an output trace. */
module Monitoring {
  import opened Wrappers
  import opened Text
  import opened Json

  /** `securityConfig.monitoring.sensitiveFields`. */
  const LogSensitiveFields := ["password", "token", "apiKey", "secret"]

  /** `securityConfig.monitoring.alertThresholds`. */
  const FailedLoginsThreshold := 10
  const ErrorRateThreshold: real := 0.05

  /** `sensitiveFields.includes(key.toLowerCase())`: only the key is lower-cased. */
  predicate IsLogSensitive(key: string) {
    Lower(key) in LogSensitiveFields
  }

  /** The own enumerable properties of `{...data}` for a truthy `data`: an
      object's fields, an array's or a string's elements under their index,
      and nothing for a number or `true`. */
  function Spread(v: Value): (r: seq<Field>)
    ensures forall i :: 0 <= i < |r| && IsObjectType(r[i].value) ==> r[i].value < v
    ensures v.Obj? ==> r == v.fields
    ensures v.Arr? ==> |r| == |v.items| && forall i :: 0 <= i < |r| ==> r[i] == Field(NatToString(i), v.items[i])
    ensures v.Str? ==> |r| == |v.s| && forall i :: 0 <= i < |r| ==> r[i] == Field(NatToString(i), Str([v.s[i]]))
    ensures !v.Obj? && !v.Arr? && !v.Str? ==> r == []
  {
    match v
    case Obj(fields) =>
      assert forall i :: 0 <= i < |fields| ==> fields[i].value < fields[i] < v;
      fields
    case Arr(items) => seq(|items|, i requires 0 <= i < |items| => Field(NatToString(i), items[i]))
    case Str(s) => seq(|s|, i requires 0 <= i < |s| => Field(NatToString(i), Str([s[i]])))
    case _ => []
  }

  /** The value `sanitizeLogData` leaves under `key` in the copy. */
  function LogEntry(key: string, value: Value, sanitizedValue: Value): Value {
    if IsLogSensitive(key) then Redacted else if IsObjectType(value) then sanitizedValue else value
  }

  /** `sanitizeLogData(data)`: falsy data comes back as it is; otherwise a
      fresh object with the keys of `{...data}`, sensitive keys redacted and
      object-valued entries sanitized in turn. */
  function SanitizedLog(v: Value): (r: Value)
    ensures Falsy(v) ==> r == v
    ensures !Falsy(v) ==> r.Obj? && |r.fields| == |Spread(v)|
    decreases v
  {
    if Falsy(v) then v
    else
      var copy := Spread(v);
      Obj(seq(|copy|, i requires 0 <= i < |copy| =>
        Field(copy[i].key, LogEntry(copy[i].key, copy[i].value,
                                    if IsObjectType(copy[i].value) then SanitizedLog(copy[i].value) else Null))))
  }

  /** The loop of `sanitizeLogData` over the keys of the copy; the input value
      is never changed. */
  method SanitizeLogData(data: Value) returns (r: Value)
    ensures r == SanitizedLog(data)
    decreases data
  {
    if Falsy(data) {
      return data;
    }
    var sanitized := Spread(data);
    ghost var copy := sanitized;
    var j := 0;
    while j < |sanitized|
      invariant 0 <= j <= |sanitized| == |copy|
      invariant forall k :: 0 <= k < j ==>
                  sanitized[k] == Field(copy[k].key, LogEntry(copy[k].key, copy[k].value,
                    if IsObjectType(copy[k].value) then SanitizedLog(copy[k].value) else Null))
      invariant forall k :: j <= k < |copy| ==> sanitized[k] == copy[k]
    {
      var key := sanitized[j].key;
      if Lower(key) in LogSensitiveFields {
        sanitized := sanitized[j := Field(key, Redacted)];
      } else if IsObjectType(sanitized[j].value) {
        var inner := SanitizeLogData(sanitized[j].value);
        sanitized := sanitized[j := Field(key, inner)];
      }
      j := j + 1;
    }
    r := Obj(sanitized);
  }

  /** Falsy input is returned unchanged; anything else becomes an object with
      the keys of its spread copy, in order. */
  lemma SanitizedLogShape(v: Value)
    ensures Falsy(v) ==> SanitizedLog(v) == v
    ensures !Falsy(v) ==> SanitizedLog(v).Obj? && Keys(SanitizedLog(v).fields) == Keys(Spread(v))
    ensures !Falsy(v) && v.Obj? ==> Keys(SanitizedLog(v).fields) == Keys(v.fields)
  {
  }

  /** For an object, a key is redacted exactly when its lower-cased form is
      listed; other object values are sanitized in turn and every other value
      is copied unchanged. */
  lemma SanitizedLogFields(fields: seq<Field>, i: nat)
    requires i < |fields|
    ensures var r := SanitizedLog(Obj(fields)).fields[i];
            && (IsLogSensitive(fields[i].key) ==> r.value == Redacted)
            && (!IsLogSensitive(fields[i].key) && IsObjectType(fields[i].value) ==> r.value == SanitizedLog(fields[i].value))
            && (!IsLogSensitive(fields[i].key) && !IsObjectType(fields[i].value) ==> r.value == fields[i].value)
  {
  }

  /** The list entry `apiKey` keeps an upper-case letter, so no lower-cased
      key ever equals it. */
  lemma ApiKeyNeverMatches(k: string)
    ensures Lower(k) != "apiKey"
  {
    if |k| == 6 {
      assert Lower(k)[3] != 'K';
    }
  }

  /** Neither spelling of the key `apiKey` is redacted, while `Password` and
      `TOKEN` are. */
  lemma ApiKeyNeverRedacted()
    ensures !IsLogSensitive("apiKey") && !IsLogSensitive("apikey")
    ensures IsLogSensitive("Password") && IsLogSensitive("TOKEN")
  {
    assert Lower("apiKey") == "apikey";
    assert Lower("apikey") == "apikey";
    assert Lower("Password") == "password";
    assert Lower("TOKEN") == "token";
    assert "apikey" != "apiKey";
  }

  /** The index keys the spread gives array elements and string characters
      are digits, so those entries are never redacted. */
  lemma IndexKeyNeverRedacted(i: nat)
    ensures !IsLogSensitive(NatToString(i))
  {
    var k := NatToString(i);
    assert Lower(k)[0] == LowerChar(k[0]) == k[0];
    assert IsDigit(Lower(k)[0]);
  }

  /** Sanitizing a sanitized log changes nothing more. */
  lemma {:induction false} SanitizedLogIdempotent(v: Value)
    ensures SanitizedLog(SanitizedLog(v)) == SanitizedLog(v)
    decreases v
  {
    if !Falsy(v) {
      var copy := Spread(v);
      var r := SanitizedLog(v);
      var again := SanitizedLog(r);
      assert !Falsy(r);
      forall i | 0 <= i < |copy|
        ensures again.fields[i] == r.fields[i]
      {
        var value := copy[i].value;
        if !IsLogSensitive(copy[i].key) && IsObjectType(value) {
          SanitizedLogIdempotent(value);
          SanitizedLogShape(value);
        }
      }
    }
  }

  // ----- The service -----

  /** The `event` argument of `logSecurityEvent`. */
  datatype SecurityEvent = SecurityEvent(eventType: Option<string>, severity: Option<string>, details: Value,
                                         userId: Option<string>, sessionId: Option<string>)

  /** The `securityLog` record pushed onto `events`. */
  datatype SecurityLog = SecurityLog(timestamp: string, eventType: Option<string>, severity: string, details: Value,
                                     userId: Option<string>, sessionId: Option<string>)

  /** The `error` argument of `logError`. */
  datatype ErrorReport = ErrorReport(errorType: Option<string>, message: Option<string>, stack: Option<string>, context: Value)

  /** The `errorLog` record. */
  datatype ErrorLog = ErrorLog(timestamp: string, errorType: string, message: Option<string>, stack: Option<string>, context: Value)

  /** The `alert` argument of `triggerSecurityAlert`. */
  datatype Alert = Alert(alertType: Option<string>, details: Value, severity: Option<string>)

  /** The `alertData` record. */
  datatype AlertData = AlertData(timestamp: string, alertType: Option<string>, details: Value, severity: string)

  /** One record handed to the console or the remote collector. */
  datatype Output =
    | SecurityEventOut(event: SecurityLog)
    | ErrorOut(error: ErrorLog)
    | AlertOut(alert: AlertData)

  const ThresholdAlertType := "error_threshold_exceeded"

  /** `shouldTriggerAlert(event)`. The 'error' case compares the integer count
      with the fraction 0.05, so it holds from the first error on. */
  function ShouldTriggerAlert(eventType: Option<string>, severity: string, errorCount: nat): (r: bool)
    ensures eventType == Some("failed_login") ==> (r <==> errorCount >= FailedLoginsThreshold)
    ensures eventType == Some("error") ==> (r <==> errorCount >= 1)
    ensures eventType != Some("failed_login") && eventType != Some("error") ==> (r <==> severity == "critical")
  {
    if eventType == Some("failed_login") then errorCount >= FailedLoginsThreshold
    else if eventType == Some("error") then errorCount as real >= ErrorRateThreshold
    else severity == "critical"
  }

  /** The alert `triggerSecurityAlert` emits. */
  function AlertRecord(alert: Alert, now: string): (d: AlertData)
    ensures d.severity == if Truthy(alert.severity) then alert.severity.value else "high"
    ensures d.details == SanitizedLog(alert.details) && d.alertType == alert.alertType && d.timestamp == now
  {
    AlertData(now, alert.alertType, SanitizedLog(alert.details), Or(alert.severity, "high"))
  }

  /** The details of the threshold alert. */
  function CountDetails(n: nat): Value {
    Obj([Field("errorCount", Num(n))])
  }

  /** The count details pass through the sanitizer unchanged. */
  lemma CountDetailsClean(n: nat)
    ensures SanitizedLog(CountDetails(n)) == CountDetails(n)
  {
    assert Lower("errorCount") == "errorcount";
    assert !IsLogSensitive("errorCount");
    SanitizedLogFields([Field("errorCount", Num(n))], 0);
  }

  class MonitoringService {
    var events: seq<SecurityLog>
    var errorCount: nat
    /** Everything handed to the console or the collector, in order. */
    ghost var emitted: seq<Output>

    constructor ()
      ensures events == [] && errorCount == 0 && emitted == []
    {
      events := [];
      errorCount := 0;
      emitted := [];
    }

    /** `triggerSecurityAlert(alert)`. */
    method TriggerSecurityAlert(alert: Alert, now: string)
      modifies this
      ensures events == old(events) && errorCount == old(errorCount)
      ensures emitted == old(emitted) + [AlertOut(AlertRecord(alert, now))]
    {
      var details := SanitizeLogData(alert.details);
      var alertData := AlertData(now, alert.alertType, details, Or(alert.severity, "high"));
      emitted := emitted + [AlertOut(alertData)];
    }

    /** `logSecurityEvent(event)`: exactly one record is pushed onto `events`;
        the alert, when the rule fires, is emitted before the record itself. */
    method LogSecurityEvent(event: SecurityEvent, now: string)
      modifies this
      ensures errorCount == old(errorCount)
      ensures var log := SecurityLog(now, event.eventType, Or(event.severity, "info"), SanitizedLog(event.details),
                                     event.userId, event.sessionId);
              && events == old(events) + [log]
              && emitted == old(emitted)
                 + (if ShouldTriggerAlert(log.eventType, log.severity, errorCount)
                    then [AlertOut(AlertRecord(Alert(log.eventType, log.details, Some(log.severity)), now))] else [])
                 + [SecurityEventOut(log)]
    {
      var details := SanitizeLogData(event.details);
      var securityLog := SecurityLog(now, event.eventType, Or(event.severity, "info"), details, event.userId, event.sessionId);
      events := events + [securityLog];
      ghost var before := emitted;
      if ShouldTriggerAlert(securityLog.eventType, securityLog.severity, errorCount) {
        TriggerSecurityAlert(Alert(securityLog.eventType, securityLog.details, Some(securityLog.severity)), now);
      }
      emitted := emitted + [SecurityEventOut(securityLog)];
    }

    /** `logError(error)`: the count goes up by exactly one, and from the tenth
        error on every call emits a threshold alert carrying the new count,
        before the error record. */
    method LogError(error: ErrorReport, now: string)
      modifies this
      ensures events == old(events)
      ensures errorCount == old(errorCount) + 1
      ensures var log := ErrorLog(now, Or(error.errorType, "error"), error.message, error.stack, SanitizedLog(error.context));
              emitted == old(emitted)
                 + (if errorCount >= FailedLoginsThreshold
                    then [AlertOut(AlertRecord(Alert(Some(ThresholdAlertType), CountDetails(errorCount), None), now))] else [])
                 + [ErrorOut(log)]
    {
      var context := SanitizeLogData(error.context);
      var errorLog := ErrorLog(now, Or(error.errorType, "error"), error.message, error.stack, context);
      errorCount := errorCount + 1;
      if errorCount >= FailedLoginsThreshold {
        TriggerSecurityAlert(Alert(Some(ThresholdAlertType), CountDetails(errorCount), None), now);
      }
      emitted := emitted + [ErrorOut(errorLog)];
    }
  }

  /** The threshold alert names the count reached and has severity 'high'. */
  lemma ThresholdAlertContents(n: nat, now: string)
    ensures AlertRecord(Alert(Some(ThresholdAlertType), CountDetails(n), None), now)
         == AlertData(now, Some(ThresholdAlertType), CountDetails(n), "high")
  {
    CountDetailsClean(n);
  }

  /** A security event whose severity is left out gets 'info', which never
      fires the default rule. */
  lemma DefaultSeverityNeverCritical(eventType: Option<string>, errorCount: nat)
    requires eventType != Some("failed_login") && eventType != Some("error")
    ensures !ShouldTriggerAlert(eventType, Or(None, "info"), errorCount)
  {
  }
}
