/**
 * The input validator that guards POST /verify: a subscription ID must be
 * present and non-empty, and must match the anchored pattern
 * ^[A-Z0-9]{10,20}$. The value is passed on unchanged.
 */
module SubscriptionId {
  import opened Wrappers

  /** The bounds of the `{10,20}` quantifier. */
  const MinLength: nat := 10
  const MaxLength: nat := 20

  /** One character of the class `[A-Z0-9]`. */
  predicate IsIdChar(c: char) {
    ('A' <= c <= 'Z') || ('0' <= c <= '9')
  }

  /** The language of ^[A-Z0-9]{10,20}$, stated declaratively. */
  predicate ValidFormat(s: string) {
    MinLength <= |s| <= MaxLength && forall i :: 0 <= i < |s| ==> IsIdChar(s[i])
  }

  /**
   * How a regular-expression engine reads `[A-Z0-9]{lo,hi}` anchored at both
   * ends: take one class character at a time, counting both bounds down, and
   * accept at the end of the input once at least `lo` have been taken. Input
   * left over when the quantifier is exhausted makes `$` fail.
   */
  function MatchBounded(s: string, lo: nat, hi: nat): (b: bool)
    ensures b ==> lo <= |s| <= hi
    decreases |s|
  {
    if |s| == 0 then lo == 0
    else if hi == 0 then false
    else IsIdChar(s[0]) && MatchBounded(s[1..], if lo == 0 then 0 else lo - 1, hi - 1)
  }

  /** The engine reading accepts exactly the strings of length lo..hi over the class. */
  lemma {:induction false} MatchBoundedIff(s: string, lo: nat, hi: nat)
    ensures MatchBounded(s, lo, hi) <==>
            (lo <= |s| <= hi && forall i :: 0 <= i < |s| ==> IsIdChar(s[i]))
    decreases |s|
  {
    if |s| > 0 && hi > 0 {
      var lo' := if lo == 0 then 0 else lo - 1;
      MatchBoundedIff(s[1..], lo', hi - 1);
      assert forall i :: 1 <= i < |s| ==> s[i] == s[1..][i - 1];
      if IsIdChar(s[0]) && (forall i :: 0 <= i < |s[1..]| ==> IsIdChar(s[1..][i])) {
        assert forall i :: 0 <= i < |s| ==> IsIdChar(s[i]) by {
          forall i | 0 <= i < |s| ensures IsIdChar(s[i]) {
            if i > 0 { assert s[i] == s[1..][i - 1]; }
          }
        }
      }
    }
  }

  /** `validPattern.test(s)` holds exactly when `s` is in the declared language. */
  lemma PatternIsValidFormat(s: string)
    ensures MatchBounded(s, MinLength, MaxLength) <==> ValidFormat(s)
  {
    MatchBoundedIff(s, MinLength, MaxLength);
  }

  /** The two ways the validator rejects a request, both answered with 400. */
  datatype Rejection = MissingSubscriptionId | InvalidFormat
  {
    /** The `error_code` of the 400 body. */
    function Code(): string {
      match this
      case MissingSubscriptionId => "MISSING_SUBSCRIPTION_ID"
      case InvalidFormat => "INVALID_FORMAT"
    }

    /** The `message` of the 400 body. */
    function Message(): string {
      match this
      case MissingSubscriptionId => "Subscription ID is required."
      case InvalidFormat => "Invalid subscription ID format."
    }
  }

  /** JavaScript falsiness of the `subscription_id` field: absent or "". */
  predicate IsFalsy(field: Option<string>) {
    field.None? || field.value == ""
  }

  /**
   * The validator: the falsiness check first, then the pattern test; on
   * success the very same string is handed to the next stage.
   */
  function Validate(field: Option<string>): (r: Result<string, Rejection>)
    ensures r == Failure(MissingSubscriptionId) <==> IsFalsy(field)
    ensures r == Failure(InvalidFormat) <==> (!IsFalsy(field) && !ValidFormat(field.value))
    ensures r.Success? <==> (field.Some? && ValidFormat(field.value))
    ensures r.Success? ==> r.value == field.value
  {
    if IsFalsy(field) then Failure(MissingSubscriptionId)
    else
      PatternIsValidFormat(field.value);
      if !MatchBounded(field.value, MinLength, MaxLength) then Failure(InvalidFormat)
      else Success(field.value)
  }

  /**
   * The names a plain JavaScript object inherits from Object.prototype. The
   * table lookup `subscriptions[id]` would find these too, so a map lookup
   * models it only because none of them passes the validator.
   */
  const InheritedNames: set<string> := {
    "constructor", "hasOwnProperty", "isPrototypeOf", "propertyIsEnumerable",
    "toLocaleString", "toString", "valueOf", "__proto__", "__defineGetter__",
    "__defineSetter__", "__lookupGetter__", "__lookupSetter__"
  }

  /** Any string holding a character outside `[A-Z0-9]` fails the format test. */
  lemma ForeignCharRejected(s: string, i: nat)
    requires i < |s| && !IsIdChar(s[i])
    ensures !ValidFormat(s) && Validate(Some(s)) != Success(s)
  {
  }

  /** No inherited property name reaches the lookup. */
  lemma InheritedNamesRejected()
    ensures forall s :: s in InheritedNames ==> !ValidFormat(s)
  {
    forall s | s in InheritedNames ensures !ValidFormat(s) {
      // every inherited name starts with a lower-case letter or an underscore
      ForeignCharRejected(s, 0);
    }
  }
}
