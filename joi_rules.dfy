/** The part of the schema-validation library's behaviour that the product schemas
    rely on, stated as explicit assumptions about it:
    - keys are checked in the order the schema declares them and only the first
      failure is reported (the library's default early abort);
    - for a key: absence is checked first, then the whitelist of `valid(...)`
      values, then the string type, then emptiness (the library rejects `''`
      by default, with its own English message), then the length bounds;
    - a reported failure carries the schema's custom message for its rule. */
module JoiRules {
  import opened Results
  import opened Http

  /** A value in a parsed JSON request body: a string, or anything else. */
  datatype JsonValue = Str(s: string) | NonString

  /** A request body; a key missing from the map is an absent (undefined) key. */
  type Payload = map<string, JsonValue>

  /** The library's error codes that these schemas can produce. */
  datatype Rule = AnyRequired | AnyOnly | StringBase | StringEmpty | StringMin | StringMax

  /** The one failure reported: the offending key, the rule and its message. */
  datatype Failure = Failure(key: string, rule: Rule, message: string)

  datatype Presence = Optional | Required(requiredMessage: string)

  datatype Bounds = Unbounded | Between(min: nat, max: nat, tooShort: string, tooLong: string)

  /** A key of an object schema: `joi.string()` with optional length bounds, or
      `joi.string().valid(...)`. */
  datatype KeyRule =
    | Text(key: string, presence: Presence, baseMessage: string, bounds: Bounds)
    | OneOf(key: string, presence: Presence, allowed: set<string>, onlyMessage: string)

  /** The library's default message for an empty string (`string.empty`). */
  function EmptyMessage(key: string): string
  {
    "\"" + key + "\" is not allowed to be empty"
  }

  /** The value a key contributes to the sanitized payload. */
  function Sanitized(p: Payload, key: string): Option<string>
  {
    if key in p && p[key].Str? then Some(p[key].s) else None
  }

  predicate WithinBounds(n: nat, bounds: Bounds)
  {
    bounds.Unbounded? || bounds.min <= n <= bounds.max
  }

  /** Reference definition of what a key accepts. */
  predicate Accepts(p: Payload, rule: KeyRule)
  {
    if rule.key !in p then rule.presence.Optional?
    else
      p[rule.key].Str? &&
      match rule
      case Text(_, _, _, bounds) => p[rule.key].s != "" && WithinBounds(|p[rule.key].s|, bounds)
      case OneOf(_, _, allowed, _) => p[rule.key].s in allowed
  }

  /** Validates one key of the payload. */
  function CheckKey(p: Payload, rule: KeyRule): (r: Result<Option<string>, Failure>)
    ensures r.Ok? <==> Accepts(p, rule)
    ensures r.Ok? ==> r.value == Sanitized(p, rule.key)
    ensures r.Err? ==> r.error.key == rule.key
  {
    var key := rule.key;
    if key !in p then
      match rule.presence
      case Optional => Ok(None)
      case Required(m) => Err(Failure(key, AnyRequired, m))
    else
      match rule
      case OneOf(_, _, allowed, onlyMessage) =>
        // the whitelist is consulted before the string type
        if p[key].Str? && p[key].s in allowed then Ok(Some(p[key].s))
        else Err(Failure(key, AnyOnly, onlyMessage))
      case Text(_, _, baseMessage, bounds) =>
        match p[key]
        case NonString => Err(Failure(key, StringBase, baseMessage))
        case Str(s) =>
          if s == "" then Err(Failure(key, StringEmpty, EmptyMessage(key)))
          else
            match bounds
            case Unbounded => Ok(Some(s))
            case Between(lo, hi, tooShort, tooLong) =>
              if |s| < lo then Err(Failure(key, StringMin, tooShort))
              else if |s| > hi then Err(Failure(key, StringMax, tooLong))
              else Ok(Some(s))
  }

  /** The failure a rejected key reports: the rule it breaks, in the order the
      library checks them, with the message the schema gives that rule. */
  lemma CheckKeyFailure(p: Payload, rule: KeyRule)
    requires !Accepts(p, rule)
    ensures rule.key !in p ==> CheckKey(p, rule) == Err(Failure(rule.key, AnyRequired, rule.presence.requiredMessage))
    ensures rule.key in p && rule.OneOf? ==> CheckKey(p, rule) == Err(Failure(rule.key, AnyOnly, rule.onlyMessage))
    ensures rule.key in p && rule.Text? ==>
      match p[rule.key]
      case NonString => CheckKey(p, rule) == Err(Failure(rule.key, StringBase, rule.baseMessage))
      case Str(s) =>
        if s == "" then CheckKey(p, rule) == Err(Failure(rule.key, StringEmpty, EmptyMessage(rule.key)))
        else if |s| < rule.bounds.min then CheckKey(p, rule) == Err(Failure(rule.key, StringMin, rule.bounds.tooShort))
        else CheckKey(p, rule) == Err(Failure(rule.key, StringMax, rule.bounds.tooLong))
  {
  }

  /** Validates the keys of an object schema in declaration order and stops at the
      first failure. On success the result lists each key's sanitized value. */
  function CheckObject(p: Payload, rules: seq<KeyRule>): (r: Result<seq<Option<string>>, Failure>)
    ensures r.Ok? <==> forall i :: 0 <= i < |rules| ==> Accepts(p, rules[i])
    ensures r.Ok? ==> |r.value| == |rules|
    ensures r.Ok? ==> forall i :: 0 <= i < |rules| ==> r.value[i] == Sanitized(p, rules[i].key)
  {
    if rules == [] then Ok([])
    else
      match CheckKey(p, rules[0])
      case Err(f) => Err(f)
      case Ok(v) =>
        match CheckObject(p, rules[1..])
        case Err(f) => Err(f)
        case Ok(vs) => Ok([v] + vs)
  }

  /** Key `i` is the first key of `rules` that the payload fails. */
  predicate FirstRejected(p: Payload, rules: seq<KeyRule>, i: int)
  {
    && 0 <= i < |rules|
    && !Accepts(p, rules[i])
    && forall j :: 0 <= j < i ==> Accepts(p, rules[j])
  }

  /** The failure an object schema reports is that of its first rejected key. */
  lemma {:induction false} FirstRejectedIsReported(p: Payload, rules: seq<KeyRule>, k: int)
    requires FirstRejected(p, rules, k)
    ensures CheckKey(p, rules[k]).Err?
    ensures CheckObject(p, rules) == Err(CheckKey(p, rules[k]).error)
  {
    if k > 0 {
      assert FirstRejected(p, rules[1..], k - 1);
      FirstRejectedIsReported(p, rules[1..], k - 1);
    }
  }

  /** Whenever an object schema fails, some key is the first rejected one. */
  lemma {:induction false} SomeKeyIsFirstRejected(p: Payload, rules: seq<KeyRule>) returns (k: int)
    requires CheckObject(p, rules).Err?
    ensures FirstRejected(p, rules, k)
  {
    if Accepts(p, rules[0]) {
      k := SomeKeyIsFirstRejected(p, rules[1..]);
      k := k + 1;
    } else {
      k := 0;
    }
  }

  /** A failed validation is reported as an error named `ValidationError`. */
  function ToAppError(f: Failure): (e: AppError)
    ensures e.name == "ValidationError" && e.message == f.message && e.status == None
  {
    AppError("ValidationError", f.message, None)
  }
}
