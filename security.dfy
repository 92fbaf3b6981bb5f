/** The security helpers of client/src/config/security.js: the password
    policy check, `<`/`>` stripping, recursive redaction of sensitive keys,
    and the per-identifier sliding-window rate limiter. */
module Security {
  import opened Wrappers
  import opened Text
  import opened Seqs
  import opened Json

  // ----- Password policy -----

  /** `passwordPolicy.minLength`. */
  const MinLength := 8

  /** The characters of the pattern `[!@#$%^&*(),.?":{}|<>]`. */
  const SpecialChars := "!@#$%^&*(),.?\":{}|<>"

  /** The five checks, in the order `validatePassword` makes them. */
  datatype Rule = LengthRule | UppercaseRule | LowercaseRule | NumberRule | SpecialRule

  const Rules := [LengthRule, UppercaseRule, LowercaseRule, NumberRule, SpecialRule]

  function Message(r: Rule): string {
    match r
    case LengthRule => "Password must be at least 8 characters long"
    case UppercaseRule => "Password must contain at least one uppercase letter"
    case LowercaseRule => "Password must contain at least one lowercase letter"
    case NumberRule => "Password must contain at least one number"
    case SpecialRule => "Password must contain at least one special character"
  }

  predicate HasCharWhere(password: string, p: char -> bool) {
    exists i :: 0 <= i < |password| && p(password[i])
  }

  function IsSpecial(c: char): bool { c in SpecialChars }

  /** Whether `password` meets one rule of the policy. */
  predicate Meets(password: string, r: Rule) {
    match r
    case LengthRule => |password| >= MinLength
    case UppercaseRule => HasCharWhere(password, IsUpper)
    case LowercaseRule => HasCharWhere(password, IsLower)
    case NumberRule => HasCharWhere(password, IsDigit)
    case SpecialRule => HasCharWhere(password, IsSpecial)
  }

  function Messages(rs: seq<Rule>): (ms: seq<string>)
    ensures |ms| == |rs|
    ensures forall i :: 0 <= i < |rs| ==> ms[i] == Message(rs[i])
  {
    seq(|rs|, i requires 0 <= i < |rs| => Message(rs[i]))
  }

  lemma MessagesSnoc(rs: seq<Rule>, r: Rule)
    ensures Messages(rs + [r]) == Messages(rs) + [Message(r)]
  {
  }

  /** Different rules have different messages. */
  lemma MessageInjective(a: Rule, b: Rule)
    requires Message(a) == Message(b)
    ensures a == b
  {
  }

  function IfFails(password: string, r: Rule): seq<Rule> {
    if Meets(password, r) then [] else [r]
  }

  /** The rules `password` fails, in the order they are checked. */
  function FailedRules(password: string): seq<Rule> {
    IfFails(password, LengthRule) + IfFails(password, UppercaseRule) + IfFails(password, LowercaseRule)
    + IfFails(password, NumberRule) + IfFails(password, SpecialRule)
  }

  function Fails(password: string): Rule -> bool {
    r => !Meets(password, r)
  }

  /** The failed rules keep the order of `Rules`. */
  lemma FailedRulesInOrder(password: string)
    ensures FailedRules(password) == Filter(Rules, Fails(password))
  {
    Filter5(LengthRule, UppercaseRule, LowercaseRule, NumberRule, SpecialRule, Fails(password));
    FilterSingleton(LengthRule, Fails(password));
    FilterSingleton(UppercaseRule, Fails(password));
    FilterSingleton(LowercaseRule, Fails(password));
    FilterSingleton(NumberRule, Fails(password));
    FilterSingleton(SpecialRule, Fails(password));
  }

  /** A rule is listed exactly when it fails, and the list is empty exactly
      when all rules are met. */
  lemma FailedRulesSpec(password: string)
    ensures |FailedRules(password)| <= 5
    ensures forall r :: r in FailedRules(password) <==> !Meets(password, r)
    ensures FailedRules(password) == [] <==> forall r :: Meets(password, r)
  {
    var failed := FailedRules(password);
    forall r
      ensures r in failed <==> !Meets(password, r)
    {
      assert r in IfFails(password, r) <==> !Meets(password, r);
    }
    if failed != [] {
      assert failed[0] in failed;
    }
  }

  /** The messages of the failed rules, in rule order. */
  function PasswordErrors(password: string): seq<string> {
    Messages(FailedRules(password))
  }

  lemma MessagesMembership(rs: seq<Rule>, r: Rule)
    ensures Message(r) in Messages(rs) <==> r in rs
  {
    var ms := Messages(rs);
    if r in rs {
      var i :| 0 <= i < |rs| && rs[i] == r;
      assert ms[i] == Message(r);
    }
    if Message(r) in ms {
      var i :| 0 <= i < |ms| && ms[i] == Message(r);
      MessageInjective(rs[i], r);
    }
  }

  /** A message is reported exactly when its rule fails, there are at most five,
      and there are none exactly when every rule is met. */
  lemma PasswordErrorsSpec(password: string)
    ensures |PasswordErrors(password)| <= 5
    ensures forall r :: Message(r) in PasswordErrors(password) <==> !Meets(password, r)
    ensures PasswordErrors(password) == [] <==> forall r :: Meets(password, r)
  {
    FailedRulesSpec(password);
    forall r
      ensures Message(r) in PasswordErrors(password) <==> !Meets(password, r)
    {
      MessagesMembership(FailedRules(password), r);
    }
  }

  /** One check of `validatePassword`: its message is pushed exactly when its
      rule fails. */
  lemma PushIfFails(password: string, failed: seq<Rule>, errors: seq<string>, r: Rule)
    requires errors == Messages(failed)
    ensures (if Meets(password, r) then errors else errors + [Message(r)]) == Messages(failed + IfFails(password, r))
  {
    if !Meets(password, r) {
      MessagesSnoc(failed, r);
    } else {
      assert failed + IfFails(password, r) == failed;
    }
  }

  /** The result of `validatePassword`. */
  datatype PasswordCheck = PasswordCheck(isValid: bool, errors: seq<string>)

  /** `if (fails) errors.push(message)` for one rule, with `fails` the
      source's test for that rule. */
  method PushIf(password: string, errors: seq<string>, ghost failed: seq<Rule>, rule: Rule, fails: bool)
    returns (pushed: seq<string>)
    requires errors == Messages(failed) && fails == !Meets(password, rule)
    ensures pushed == Messages(failed + IfFails(password, rule))
  {
    PushIfFails(password, failed, errors, rule);
    pushed := errors;
    if fails {
      pushed := pushed + [Message(rule)];
    }
  }

  /** `validatePassword(password)`: one message per failed check, pushed in the
      fixed order length, uppercase, lowercase, number, special character. */
  method ValidatePassword(password: string) returns (r: PasswordCheck)
    ensures r.errors == PasswordErrors(password)
    ensures r.isValid <==> r.errors == []
  {
    var errors: seq<string> := [];
    ghost var failed: seq<Rule> := [];
    errors := PushIf(password, errors, failed, LengthRule, |password| < MinLength);
    failed := failed + IfFails(password, LengthRule);
    errors := PushIf(password, errors, failed, UppercaseRule, !HasCharWhere(password, IsUpper));
    failed := failed + IfFails(password, UppercaseRule);
    errors := PushIf(password, errors, failed, LowercaseRule, !HasCharWhere(password, IsLower));
    failed := failed + IfFails(password, LowercaseRule);
    errors := PushIf(password, errors, failed, NumberRule, !HasCharWhere(password, IsDigit));
    failed := failed + IfFails(password, NumberRule);
    errors := PushIf(password, errors, failed, SpecialRule, !HasCharWhere(password, IsSpecial));
    failed := failed + IfFails(password, SpecialRule);
    assert [] + IfFails(password, LengthRule) == IfFails(password, LengthRule);
    r := PasswordCheck(|errors| == 0, errors);
  }

  /** A password meeting the whole policy has no errors; the empty password
      fails every rule. */
  lemma PasswordExamples()
    ensures FailedRules("Passw0rd!") == []
    ensures FailedRules("") == Rules
  {
    var good := "Passw0rd!";
    assert IsUpper(good[0]) && IsLower(good[1]) && IsDigit(good[5]) && IsSpecial(good[8]);
    assert Meets(good, UppercaseRule) && Meets(good, LowercaseRule) && Meets(good, NumberRule) && Meets(good, SpecialRule);
  }

  // ----- Input sanitizing -----

  function NotAngle(c: char): bool { c != '<' && c != '>' }

  /** `s.replace(/[<>]/g, '')`. */
  function StripAngles(s: string): string {
    Filter(s, NotAngle)
  }

  /** No angle bracket survives, nothing is added, and every other character
      keeps its number of occurrences. */
  lemma StripAnglesSpec(s: string, c: char)
    ensures '<' !in StripAngles(s) && '>' !in StripAngles(s)
    ensures |StripAngles(s)| <= |s|
    ensures multiset(StripAngles(s))[c] == if NotAngle(c) then multiset(s)[c] else 0
  {
    FilterMultiset(s, NotAngle, c);
    FilterMultiset(s, NotAngle, '<');
    FilterMultiset(s, NotAngle, '>');
  }

  /** Stripping twice is stripping once, and a string without angle brackets
      is returned as it is. */
  lemma StripAnglesIdempotent(s: string)
    ensures StripAngles(StripAngles(s)) == StripAngles(s)
    ensures ('<' !in s && '>' !in s) ==> StripAngles(s) == s
  {
    FilterKeepsAll(StripAngles(s), NotAngle);
    if '<' !in s && '>' !in s {
      FilterKeepsAll(s, NotAngle);
    }
  }

  /** Stripping works piece by piece. */
  lemma StripAnglesConcat(a: string, b: string)
    ensures StripAngles(a + b) == StripAngles(a) + StripAngles(b)
  {
    FilterConcat(a, b, NotAngle);
  }

  /** `sanitizeInput(input)`: strings lose their angle brackets, every other
      value is returned unchanged. */
  function SanitizeInput(v: Value): (r: Value)
    ensures v.Str? ==> r == Str(StripAngles(v.s))
    ensures !v.Str? ==> r == v
  {
    if v.Str? then Str(StripAngles(v.s)) else v
  }

  // ----- Recursive data sanitizing -----

  /** `sensitiveFields.some(field => key.toLowerCase() === field.toLowerCase())`. */
  predicate IsSensitive(key: string, sensitive: seq<string>) {
    exists i :: 0 <= i < |sensitive| && Lower(key) == Lower(sensitive[i])
  }

  /** `sanitizeData(data, sensitiveFields)`. */
  function SanitizeData(v: Value, sensitive: seq<string>): (r: Value)
    ensures v.Obj? <==> r.Obj?
    ensures v.Arr? <==> r.Arr?
    ensures !v.Obj? && !v.Arr? ==> r == v
    decreases v
  {
    if Falsy(v) then v
    else if v.Arr? then
      Arr(seq(|v.items|, i requires 0 <= i < |v.items| => SanitizeData(v.items[i], sensitive)))
    else if v.Obj? then
      Obj(seq(|v.fields|, i requires 0 <= i < |v.fields| => SanitizeField(v.fields[i], sensitive)))
    else v
  }

  /** The value `acc[key]` receives for one own property. */
  function SanitizeField(f: Field, sensitive: seq<string>): (r: Field)
    ensures r.key == f.key
    ensures IsSensitive(f.key, sensitive) ==> r.value == Redacted
    ensures !IsSensitive(f.key, sensitive) && IsObjectType(f.value) ==> r.value == SanitizeData(f.value, sensitive)
    ensures !IsSensitive(f.key, sensitive) && !IsObjectType(f.value) ==> r.value == SanitizeInput(f.value)
    decreases f
  {
    if IsSensitive(f.key, sensitive) then Field(f.key, Redacted)
    else if IsObjectType(f.value) then Field(f.key, SanitizeData(f.value, sensitive))
    else Field(f.key, SanitizeInput(f.value))
  }

  /** The shape `sanitizeData` keeps: falsy input comes back as it is, arrays
      keep their length, objects keep their keys in order, and every other
      value is returned unchanged (strings are not stripped at this level). */
  lemma SanitizeDataShape(v: Value, sensitive: seq<string>)
    ensures Falsy(v) ==> SanitizeData(v, sensitive) == v
    ensures !Falsy(v) && v.Arr? ==>
              && SanitizeData(v, sensitive).Arr?
              && |SanitizeData(v, sensitive).items| == |v.items|
              && forall i :: 0 <= i < |v.items| ==> SanitizeData(v, sensitive).items[i] == SanitizeData(v.items[i], sensitive)
    ensures v.Obj? ==> SanitizeData(v, sensitive).Obj? && Keys(SanitizeData(v, sensitive).fields) == Keys(v.fields)
    ensures v.Obj? ==>
              && |SanitizeData(v, sensitive).fields| == |v.fields|
              && forall i :: 0 <= i < |v.fields| ==> SanitizeData(v, sensitive).fields[i] == SanitizeField(v.fields[i], sensitive)
    ensures !v.Arr? && !v.Obj? ==> SanitizeData(v, sensitive) == v
  {
    if v.Obj? {
      var r := SanitizeData(v, sensitive);
      assert forall i :: 0 <= i < |v.fields| ==> r.fields[i].key == v.fields[i].key;
    }
  }

  /** What a sanitized tree looks like: in every object at any depth, a
      sensitive key holds '[REDACTED]', and any other string value has no
      angle brackets. */
  ghost predicate Clean(v: Value, sensitive: seq<string>)
    decreases v
  {
    match v
    case Arr(items) => forall i :: 0 <= i < |items| ==> Clean(items[i], sensitive)
    case Obj(fields) => forall i :: 0 <= i < |fields| ==> CleanField(fields[i], sensitive)
    case _ => true
  }

  ghost predicate CleanField(f: Field, sensitive: seq<string>)
    decreases f
  {
    && (IsSensitive(f.key, sensitive) ==> f.value == Redacted)
    && (!IsSensitive(f.key, sensitive) && f.value.Str? ==> '<' !in f.value.s && '>' !in f.value.s)
    && Clean(f.value, sensitive)
  }

  /** `sanitizeData` leaves no sensitive value and no angle bracket in an
      object's string values, however deep. */
  lemma {:induction false} SanitizeDataClean(v: Value, sensitive: seq<string>)
    ensures Clean(SanitizeData(v, sensitive), sensitive)
    decreases v
  {
    if !Falsy(v) {
      match v
      case Arr(items) =>
        var r := SanitizeData(v, sensitive);
        forall i | 0 <= i < |items| ensures Clean(r.items[i], sensitive) {
          SanitizeDataClean(items[i], sensitive);
        }
      case Obj(fields) =>
        var r := SanitizeData(v, sensitive);
        forall i | 0 <= i < |fields| ensures CleanField(r.fields[i], sensitive) {
          SanitizeFieldClean(fields[i], sensitive);
        }
      case _ =>
    }
  }

  lemma {:induction false} SanitizeFieldClean(f: Field, sensitive: seq<string>)
    ensures CleanField(SanitizeField(f, sensitive), sensitive)
    decreases f
  {
    if !IsSensitive(f.key, sensitive) {
      if IsObjectType(f.value) {
        SanitizeDataClean(f.value, sensitive);
      } else if f.value.Str? {
        StripAnglesSpec(f.value.s, '<');
      }
    }
  }

  /** Sanitizing an already sanitized tree changes nothing. */
  lemma {:induction false} SanitizeDataIdempotent(v: Value, sensitive: seq<string>)
    ensures SanitizeData(SanitizeData(v, sensitive), sensitive) == SanitizeData(v, sensitive)
    decreases v
  {
    if !Falsy(v) {
      match v
      case Arr(items) =>
        var r := SanitizeData(v, sensitive);
        forall i | 0 <= i < |items| ensures SanitizeData(r.items[i], sensitive) == r.items[i] {
          SanitizeDataIdempotent(items[i], sensitive);
        }
      case Obj(fields) =>
        var r := SanitizeData(v, sensitive);
        forall i | 0 <= i < |fields| ensures SanitizeField(r.fields[i], sensitive) == r.fields[i] {
          SanitizeFieldIdempotent(fields[i], sensitive);
        }
      case _ =>
    }
  }

  lemma {:induction false} SanitizeFieldIdempotent(f: Field, sensitive: seq<string>)
    ensures SanitizeField(SanitizeField(f, sensitive), sensitive) == SanitizeField(f, sensitive)
    decreases f
  {
    if !IsSensitive(f.key, sensitive) {
      if IsObjectType(f.value) {
        SanitizeDataIdempotent(f.value, sensitive);
        SanitizeDataShape(f.value, sensitive);
      } else if f.value.Str? {
        StripAnglesIdempotent(f.value.s);
      }
    }
  }

  // ----- Rate limiting -----

  /** `rateLimiting.windowMs` and `rateLimiting.maxRequests`. */
  const WindowMs := 900000
  const MaxRequests := 100

  function After(windowStart: int): int -> bool {
    t => t > windowStart
  }

  /** The timestamps still inside the window ending at `now`. */
  function Recent(times: seq<int>, now: int, windowMs: int): (r: seq<int>)
    ensures |r| <= |times|
    ensures forall i :: 0 <= i < |r| ==> r[i] > now - windowMs && r[i] in times
    ensures forall i :: 0 <= i < |times| && times[i] > now - windowMs ==> times[i] in r
  {
    Filter(times, After(now - windowMs))
  }

  /** Every timestamp inside the window is kept as often as it was stored
      (two calls in the same millisecond count twice), and none outside it. */
  lemma RecentMultiset(times: seq<int>, now: int, windowMs: int, t: int)
    ensures multiset(Recent(times, now, windowMs))[t] == if t > now - windowMs then multiset(times)[t] else 0
  {
    FilterMultiset(times, After(now - windowMs), t);
  }

  /** Pruning goes timestamp by timestamp and keeps the stored order. */
  lemma RecentSnoc(times: seq<int>, t: int, now: int, windowMs: int)
    ensures Recent([], now, windowMs) == []
    ensures Recent(times + [t], now, windowMs) == Recent(times, now, windowMs) + (if t > now - windowMs then [t] else [])
  {
    FilterConcat(times, [t], After(now - windowMs));
    FilterSingleton(t, After(now - windowMs));
  }

  /** One call of `checkRateLimit(identifier)` on the stored map: the verdict
      and the map afterwards. */
  function Check(requests: map<string, seq<int>>, id: string, now: int, windowMs: int, maxRequests: int)
    : (r: (bool, map<string, seq<int>>))
    ensures id !in requests ==> r == (true, requests[id := [now]])
    ensures id in requests && |Recent(requests[id], now, windowMs)| >= maxRequests ==> r == (false, requests)
    ensures id in requests && |Recent(requests[id], now, windowMs)| < maxRequests ==>
              r == (true, requests[id := Recent(requests[id], now, windowMs) + [now]])
  {
    if id !in requests then (true, requests[id := [now]])
    else
      var recent := Recent(requests[id], now, windowMs);
      if |recent| >= maxRequests then (false, requests) else (true, requests[id := recent + [now]])
  }

  /** No identifier has more than `maxRequests` timestamps stored. */
  ghost predicate Bounded(requests: map<string, seq<int>>, maxRequests: int) {
    forall id :: id in requests ==> |requests[id]| <= maxRequests
  }

  /** The bound survives every call, as long as `maxRequests` is at least 1. */
  lemma CheckBounded(requests: map<string, seq<int>>, id: string, now: int, windowMs: int, maxRequests: int)
    requires maxRequests >= 1 && Bounded(requests, maxRequests)
    ensures Bounded(Check(requests, id, now, windowMs, maxRequests).1, maxRequests)
  {
  }

  /** An identifier's call never touches another identifier's list, and its
      verdict depends on its own list only. */
  lemma CheckIndependent(requests: map<string, seq<int>>, other: map<string, seq<int>>, id: string, now: int,
                         windowMs: int, maxRequests: int)
    requires (id in requests <==> id in other) && (id in requests ==> requests[id] == other[id])
    ensures Check(requests, id, now, windowMs, maxRequests).0 == Check(other, id, now, windowMs, maxRequests).0
    ensures forall x :: x != id ==>
              (x in Check(requests, id, now, windowMs, maxRequests).1 <==> x in requests)
              && (x in requests ==> Check(requests, id, now, windowMs, maxRequests).1[x] == requests[x])
  {
  }

  /** After an allowed call that is not the first, the stored list is the
      pruned list of times strictly later than `now - windowMs`, in order,
      followed by `now`. */
  lemma CheckPrunes(requests: map<string, seq<int>>, id: string, now: int, windowMs: int, maxRequests: int)
    requires id in requests
    requires Check(requests, id, now, windowMs, maxRequests).0
    ensures var stored := Check(requests, id, now, windowMs, maxRequests).1[id];
            && stored[|stored| - 1] == now
            && (forall i :: 0 <= i < |stored| - 1 ==> stored[i] > now - windowMs && stored[i] in requests[id])
            && forall i :: 0 <= i < |requests[id]| && requests[id][i] > now - windowMs ==> requests[id][i] in stored
  ensures var stored := Check(requests, id, now, windowMs, maxRequests).1[id];
          && stored[..|stored| - 1] == Recent(requests[id], now, windowMs)
          && forall t :: multiset(stored[..|stored| - 1])[t] == if t > now - windowMs then multiset(requests[id])[t] else 0
  {
    var stored := Check(requests, id, now, windowMs, maxRequests).1[id];
    assert stored[..|stored| - 1] == Recent(requests[id], now, windowMs);
    forall t
      ensures multiset(stored[..|stored| - 1])[t] == if t > now - windowMs then multiset(requests[id])[t] else 0
    {
      RecentMultiset(requests[id], now, windowMs, t);
    }
  }

  /** With the configured window and limit, no identifier ever has more than
      `MaxRequests` timestamps stored, and one whose `MaxRequests` stored calls
      all fall inside the last `WindowMs` milliseconds is refused. */
  lemma ConfiguredLimit(requests: map<string, seq<int>>, id: string, now: int)
    requires Bounded(requests, MaxRequests)
    ensures Bounded(Check(requests, id, now, WindowMs, MaxRequests).1, MaxRequests)
    ensures id in requests && |requests[id]| == MaxRequests
            && (forall i :: 0 <= i < |requests[id]| ==> requests[id][i] > now - WindowMs)
            ==> !Check(requests, id, now, WindowMs, MaxRequests).0
  {
    CheckBounded(requests, id, now, WindowMs, MaxRequests);
    if id in requests && forall i :: 0 <= i < |requests[id]| ==> requests[id][i] > now - WindowMs {
      FilterKeepsAll(requests[id], After(now - WindowMs));
    }
  }

  /** `checkRateLimit`, with the closure's `Map` as a field. */
  class RateLimiter {
    var requests: map<string, seq<int>>
    const windowMs: int
    const maxRequests: int

    constructor (windowMs: int, maxRequests: int)
      ensures this.windowMs == windowMs && this.maxRequests == maxRequests && requests == map[]
      ensures maxRequests >= 1 ==> Valid()
    {
      this.windowMs := windowMs;
      this.maxRequests := maxRequests;
      requests := map[];
    }

    ghost predicate Valid()
      reads this
    {
      maxRequests >= 1 && Bounded(requests, maxRequests)
    }

    /** One call at time `now` (`Date.now()`). */
    method CheckRateLimit(identifier: string, now: int) returns (allowed: bool)
      modifies this
      ensures (allowed, requests) == Check(old(requests), identifier, now, windowMs, maxRequests)
      ensures old(Valid()) ==> Valid()
    {
      if identifier !in requests {
        requests := requests[identifier := [now]];
        allowed := true;
      } else {
        var userRequests := requests[identifier];
        var windowStart := now - windowMs;
        var recentRequests := Filter(userRequests, After(windowStart));
        if |recentRequests| >= maxRequests {
          allowed := false;
        } else {
          recentRequests := recentRequests + [now];
          requests := requests[identifier := recentRequests];
          allowed := true;
        }
      }
      if old(Valid()) {
        CheckBounded(old(requests), identifier, now, windowMs, maxRequests);
      }
    }
  }
}
