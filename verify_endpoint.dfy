/**
 * The POST /verify pipeline: the rate limiter's verdict, then the input
 * validator, then the handler, which looks the ID up in the subscription
 * table, records the access on a hit, and shapes the response.
 */
module VerifyEndpoint {
  import opened Wrappers
  import opened SubscriptionId
  import opened Encoding
  import opened Subscriptions

  const RateLimitMessage: string := "Rate limit exceeded. Please wait before trying again."
  const InvalidSubscriptionMessage: string :=
    "Invalid subscription credentials. Please verify your subscription ID."

  /** The responses the pipeline can give, one constructor per status. */
  datatype Response =
    | TooManyRequests
    | BadRequest(reason: Rejection)
    | Unauthorized(supportReference: string)
    | Verified(sessionToken: string, serverTime: string, verificationId: string, record: Record)
  {
    /** The HTTP status. */
    function Status(): int {
      match this
      case TooManyRequests => 429
      case BadRequest(_) => 400
      case Unauthorized(_) => 401
      case Verified(_, _, _, _) => 200
    }

    /** The body's `success` flag. */
    function IsSuccess(): bool {
      Verified?
    }

    /** The body's `error_code`, where the body has one. */
    function ErrorCode(): Option<string> {
      match this
      case TooManyRequests => None
      case BadRequest(reason) => Some(reason.Code())
      case Unauthorized(_) => Some("INVALID_SUBSCRIPTION")
      case Verified(_, _, _, _) => None
    }

    /** The body's `message`, where the body has one. */
    function Message(): Option<string> {
      match this
      case TooManyRequests => Some(RateLimitMessage)
      case BadRequest(reason) => Some(reason.Message())
      case Unauthorized(_) => Some(InvalidSubscriptionMessage)
      case Verified(_, _, _, _) => None
    }
  }

  /**
   * What one request does: the response and the table afterwards. `now` is
   * the request's ISO timestamp, `tokenBytes` the output of
   * `randomBytes(32)`, `uuid` the output of `randomUUID()`.
   */
  function Handle(t: map<string, Record>, field: Option<string>, limiterAllows: bool,
                  now: string, tokenBytes: seq<byte>, uuid: string): (out: (Response, map<string, Record>))
    ensures out.0.Status() in {200, 400, 401, 429}
    ensures out.0.ErrorCode().Some? ==>
              out.0.ErrorCode().value in {"MISSING_SUBSCRIPTION_ID", "INVALID_FORMAT", "INVALID_SUBSCRIPTION"}
    ensures out.0.IsSuccess() <==> out.0.Status() == 200
    ensures out.1.Keys == t.Keys
    ensures !out.0.Verified? ==> out.1 == t
  {
    if !limiterAllows then (TooManyRequests, t)
    else
      match Validate(field)
      case Failure(reason) => (BadRequest(reason), t)
      case Success(id) =>
        if id in t then
          var r := RecordAccess(t[id], now);
          (Verified(Hex(tokenBytes), now, uuid, r), t[id := r])
        else (Unauthorized(SupportReference(uuid)), t)
  }

  /** A limiter rejection answers 429 before anything else runs. */
  lemma LimiterFirst(t: map<string, Record>, field: Option<string>,
                     now: string, tokenBytes: seq<byte>, uuid: string)
    ensures Handle(t, field, false, now, tokenBytes, uuid) == (TooManyRequests, t)
    ensures Handle(t, field, false, now, tokenBytes, uuid).0.Status() == 429
  {
  }

  /** An absent or empty ID answers 400 MISSING_SUBSCRIPTION_ID and leaves the table alone. */
  lemma MissingIdRejected(t: map<string, Record>, field: Option<string>,
                          now: string, tokenBytes: seq<byte>, uuid: string)
    requires IsFalsy(field)
    ensures Handle(t, field, true, now, tokenBytes, uuid) == (BadRequest(MissingSubscriptionId), t)
    ensures Handle(t, field, true, now, tokenBytes, uuid).0.Status() == 400
    ensures Handle(t, field, true, now, tokenBytes, uuid).0.ErrorCode() == Some("MISSING_SUBSCRIPTION_ID")
  {
  }

  /**
   * A present ID gets past the validator exactly when it is in the pattern's
   * language; otherwise the answer is 400 INVALID_FORMAT and the table is
   * left alone.
   */
  lemma FormatDecides(t: map<string, Record>, id: string,
                      now: string, tokenBytes: seq<byte>, uuid: string)
    requires id != ""
    ensures var (resp, t') := Handle(t, Some(id), true, now, tokenBytes, uuid);
            && (resp == BadRequest(InvalidFormat) <==> !ValidFormat(id))
            && (!ValidFormat(id) ==> t' == t && resp.Status() == 400
                                     && resp.ErrorCode() == Some("INVALID_FORMAT"))
            && (ValidFormat(id) ==> resp.Unauthorized? || resp.Verified?)
  {
  }

  /**
   * A well-formed ID that is not a key answers 401 INVALID_SUBSCRIPTION with
   * an eight-character reference cut from the UUID; the table is unchanged.
   */
  lemma UnknownIdRejected(t: map<string, Record>, id: string,
                          now: string, tokenBytes: seq<byte>, uuid: string)
    requires ValidFormat(id) && id !in t
    ensures var (resp, t') := Handle(t, Some(id), true, now, tokenBytes, uuid);
            && t' == t
            && resp.Status() == 401 && resp.ErrorCode() == Some("INVALID_SUBSCRIPTION")
            && resp.supportReference == SupportReference(uuid)
            && (IsUuidText(uuid) ==>
                  |resp.supportReference| == SupportReferenceLength
                  && forall i :: 0 <= i < SupportReferenceLength ==> IsUpperHexChar(resp.supportReference[i]))
  {
  }

  /**
   * A key of the table answers 200. Only that entry changes, only in its two
   * tracking fields, the key set stays the same, and the body carries the
   * updated record, a 64-digit session token and the request time.
   */
  lemma KnownIdVerified(t: map<string, Record>, id: string,
                        now: string, tokenBytes: seq<byte>, uuid: string)
    requires ValidFormat(id) && id in t
    ensures var (resp, t') := Handle(t, Some(id), true, now, tokenBytes, uuid);
            && resp.Status() == 200 && resp.IsSuccess() && resp.ErrorCode().None?
            && t'.Keys == t.Keys
            && (forall k :: k in t && k != id ==> t'[k] == t[k])
            && SameProfile(t[id], t'[id])
            && t'[id].lastAccessed == Some(now)
            && t'[id].accessCount == Some(PriorCount(t[id].accessCount) + 1)
            && resp.record == t'[id]
            && resp.serverTime == now
            && Some(resp.serverTime) == resp.record.lastAccessed
            && resp.verificationId == uuid
            && Unhex(resp.sessionToken) == Some(tokenBytes)
            && (|tokenBytes| == TokenBytes ==> |resp.sessionToken| == 2 * TokenBytes)
  {
    UnhexHex(tokenBytes);
  }

  /** Whatever the request, the key set stays the same and no record loses accesses. */
  lemma HandleFrame(t: map<string, Record>, field: Option<string>, limiterAllows: bool,
                    now: string, tokenBytes: seq<byte>, uuid: string)
    requires TableInvariant(t)
    ensures var (resp, t') := Handle(t, field, limiterAllows, now, tokenBytes, uuid);
            && t'.Keys == t.Keys
            && TableInvariant(t')
            && (forall k :: k in t ==> SameProfile(t[k], t'[k]))
            && (forall k :: k in t ==> PriorCount(t'[k].accessCount) >= PriorCount(t[k].accessCount))
            && (!resp.Verified? ==> t' == t)
  {
    var (resp, t') := Handle(t, field, limiterAllows, now, tokenBytes, uuid);
    if resp.Verified? {
      var id := field.value;
      RecordAccessCounts(t[id], now);
      assert forall k :: k in t' ==> t'[k] == if k == id then RecordAccess(t[id], now) else t[k];
    }
  }

  /**
   * Spreading the record into the 200 body overrides none of the body's own
   * fields, and brings in no `message`, `error_code` or `support_reference`
   * of the kind error bodies carry: the 200 body has no error code or
   * message, as `ErrorCode()` and `Message()` say.
   */
  lemma SuccessBodyKeepsOwnFields(t: map<string, Record>, field: Option<string>,
                                  now: string, tokenBytes: seq<byte>, uuid: string)
    requires TableInvariant(t)
    ensures var resp := Handle(t, field, true, now, tokenBytes, uuid).0;
            resp.Verified? ==>
              && resp.IsSuccess()
              && resp.ErrorCode().None? && resp.Message().None?
              && forall i :: 0 <= i < |resp.record.display.entries| ==>
                   && resp.record.display.entries[i].0 !in ResponseFieldNames
                   && resp.record.display.entries[i].0 !in ErrorBodyFieldNames
  {
  }

  /**
   * Every stored record is reachable: under the invariant, a request for a
   * key passes the validator and is answered 200, and a request the
   * limiter lets through is answered 200 exactly when its ID is a key.
   */
  lemma VerifiedIffKey(t: map<string, Record>, field: Option<string>,
                       now: string, tokenBytes: seq<byte>, uuid: string)
    requires TableInvariant(t)
    ensures Handle(t, field, true, now, tokenBytes, uuid).0.Verified? <==> (field.Some? && field.value in t)
  {
    if field.Some? && field.value in t {
      assert ValidFormat(field.value);
    }
  }

  /**
   * Two successful requests for the same ID, one after the other, raise its
   * count by two and leave the later request's time in `last_accessed`.
   */
  lemma RepeatedVerification(t: map<string, Record>, id: string,
                             now1: string, now2: string, b1: seq<byte>, b2: seq<byte>,
                             u1: string, u2: string)
    requires TableInvariant(t) && id in t
    ensures var (resp1, t1) := Handle(t, Some(id), true, now1, b1, u1);
            var (resp2, t2) := Handle(t1, Some(id), true, now2, b2, u2);
            && resp1.Verified? && resp2.Verified?
            && resp1.record.accessCount == Some(PriorCount(t[id].accessCount) + 1)
            && resp2.record.accessCount == Some(PriorCount(t[id].accessCount) + 2)
            && t2[id].lastAccessed == Some(now2)
            && t2.Keys == t.Keys
  {
    assert ValidFormat(id);
    var (resp1, t1) := Handle(t, Some(id), true, now1, b1, u1);
    HandleFrame(t, Some(id), true, now1, b1, u1);
    assert t1[id].accessCount == Some(PriorCount(t[id].accessCount) + 1);
  }

  /**
   * The service state: the module-level `subscriptions` object, whose
   * records the handler updates in place.
   */
  class VerifyService {
    var subscriptions: map<string, Record>

    ghost predicate Valid()
      reads this
    {
      TableInvariant(subscriptions)
    }

    /** The table is injected once; there is no other way to add or remove records. */
    constructor (initial: map<string, Record>)
      requires TableInvariant(initial)
      ensures Valid() && subscriptions == initial
    {
      subscriptions := initial;
    }

    /** A service over the placeholder start-up table. */
    static method Seeded() returns (s: VerifyService)
      ensures fresh(s) && s.Valid() && s.subscriptions == SeedTable()
    {
      SeedTableValid();
      s := new VerifyService(SeedTable());
    }

    /**
     * POST /verify. `limiterAllows` is the rate limiter's verdict, `now` the
     * clock reading, `tokenBytes` and `uuid` the random values drawn for the
     * response.
     */
    method Verify(field: Option<string>, limiterAllows: bool, now: string,
                  tokenBytes: seq<byte>, uuid: string) returns (resp: Response)
      requires Valid()
      modifies this
      ensures Valid()
      ensures (resp, subscriptions) == Handle(old(subscriptions), field, limiterAllows, now, tokenBytes, uuid)
      ensures subscriptions.Keys == old(subscriptions).Keys
      ensures resp.Verified? <==> limiterAllows && field.Some? && field.value in old(subscriptions)
      ensures !resp.Verified? ==> subscriptions == old(subscriptions)
      ensures resp.Verified? ==>
                && (forall k :: k in subscriptions && k != field.value ==>
                      subscriptions[k] == old(subscriptions)[k])
                && SameProfile(old(subscriptions)[field.value], subscriptions[field.value])
                && subscriptions[field.value].lastAccessed == Some(now)
                && subscriptions[field.value].accessCount ==
                     Some(PriorCount(old(subscriptions)[field.value].accessCount) + 1)
                && resp.record == subscriptions[field.value]
                && resp.serverTime == now
    {
      if !limiterAllows {
        return TooManyRequests;
      }
      var checked := Validate(field);
      if checked.Failure? {
        return BadRequest(checked.error);
      }
      var id := checked.value;
      if id in subscriptions {
        var updated := RecordAccess(subscriptions[id], now);
        RecordAccessCounts(subscriptions[id], now);
        subscriptions := subscriptions[id := updated];
        resp := Verified(Hex(tokenBytes), now, uuid, updated);
      } else {
        resp := Unauthorized(SupportReference(uuid));
      }
    }
  }
}
