/**
 * `EEFORM_Form_Handler`: the per-IP submission limiter, the field
 * validator, and the decision flow of a feedback form POST.
 *
 * Request values arrive already unslashed (`wp_unslash` is folded into the
 * request). The WordPress functions the handler calls are parameters: the
 * three sanitizers, `is_email`, `wp_verify_nonce`, `sanitize_url` and `md5`;
 * the tokens from `wp_hash(uniqid(...))` are parameters too. `wp_die` and
 * `wp_safe_redirect` + `exit` become outcome values.
 */
module FormHandler {
  import opened Php
  import opened ObjectCache
  import opened Database

  // ---------------------------------------------------------------------
  // validate_fields
  // ---------------------------------------------------------------------

  const MaxNameBytes: int := 100
  const MaxEmailBytes: int := 100
  const MaxMessageBytes: int := 1000

  datatype FieldError = NameTooLong | NameMissing | EmailInvalid | MessageTooLong | MessageMissing

  /** The text the form shows for each error (translation is not modelled). */
  function ErrorText(e: FieldError): string {
    match e
    case NameTooLong => "Please provide a valid name (maximum 100 characters)."
    case NameMissing => "Please provide a valid name."
    case EmailInvalid => "Please provide a valid email address (maximum 100 characters)."
    case MessageTooLong => "Please provide a message (maximum 1000 characters)."
    case MessageMissing => "Please provide a message."
  }

  /** The field an error is about, in the order the validator checks them. */
  function FieldRank(e: FieldError): nat {
    match e
    case NameTooLong => 0
    case NameMissing => 0
    case EmailInvalid => 1
    case MessageTooLong => 2
    case MessageMissing => 2
  }

  /**
   * `validate_fields`: byte-length ceilings are checked on the raw values,
   * emptiness and the address check on the sanitized ones. `empty()` is
   * true for "" and "0".
   */
  function ValidateFields(rawName: string, rawEmail: string, rawMessage: string,
                          sanitizedName: string, sanitizedEmail: string, sanitizedMessage: string,
                          isEmail: string -> bool): (errors: seq<FieldError>)
    ensures |errors| <= 3
    ensures forall i, j :: 0 <= i < j < |errors| ==> FieldRank(errors[i]) < FieldRank(errors[j])
    ensures NameTooLong in errors <==> |rawName| > MaxNameBytes
    ensures NameMissing in errors <==> |rawName| <= MaxNameBytes && Empty(sanitizedName)
    ensures EmailInvalid in errors <==> |rawEmail| > MaxEmailBytes || !isEmail(sanitizedEmail)
    ensures MessageTooLong in errors <==> |rawMessage| > MaxMessageBytes
    ensures MessageMissing in errors <==> |rawMessage| <= MaxMessageBytes && Empty(sanitizedMessage)
    ensures errors == [] <==>
              |rawName| <= MaxNameBytes && !Empty(sanitizedName) &&
              |rawEmail| <= MaxEmailBytes && isEmail(sanitizedEmail) &&
              |rawMessage| <= MaxMessageBytes && !Empty(sanitizedMessage)
  {
    var nameErrors :=
      if |rawName| > MaxNameBytes then [NameTooLong]
      else if Empty(sanitizedName) then [NameMissing]
      else [];
    var emailErrors :=
      if |rawEmail| > MaxEmailBytes || !isEmail(sanitizedEmail) then [EmailInvalid] else [];
    var messageErrors :=
      if |rawMessage| > MaxMessageBytes then [MessageTooLong]
      else if Empty(sanitizedMessage) then [MessageMissing]
      else [];
    nameErrors + emailErrors + messageErrors
  }

  // ---------------------------------------------------------------------
  // Transients
  // ---------------------------------------------------------------------

  /** The values the handler stores as transients. */
  datatype Transient =
    | Count(n: int)
    | FormErrors(errors: seq<FieldError>, oldName: string, oldEmail: string, oldMessage: string)
    | SuccessFlag

  const LimitPrefix: string := "eeform_feedback_limit_"
  const ErrorPrefix: string := "eeform_form_errors_"
  const SuccessPrefix: string := "eeform_feedback_success_"

  function LimitKey(ipHash: string): string { LimitPrefix + ipHash }
  function ErrorKey(token: string): string { ErrorPrefix + token }
  function SuccessKey(token: string): string { SuccessPrefix + token }

  function Lookup(values: map<string, Transient>, key: string): Option<Transient> {
    if key in values then Some(values[key]) else None
  }

  /** `get_transient` / `set_transient` / expiry, over one map of keys to values. */
  class TransientStore {
    var values: map<string, Transient>

    constructor ()
      ensures values == map[]
    {
      values := map[];
    }

    method Get(key: string) returns (v: Option<Transient>)
      ensures v == Lookup(values, key)
    {
      v := Lookup(values, key);
    }

    method Set(key: string, v: Transient)
      modifies this
      ensures values == old(values)[key := v]
    {
      values := values[key := v];
    }

    /** The end of a transient's lifetime, as an explicit event. */
    method Expire(key: string)
      modifies this
      ensures values == old(values) - {key}
    {
      values := values - {key};
    }
  }

  // ---------------------------------------------------------------------
  // check_rate_limit
  // ---------------------------------------------------------------------

  /** At most this many submissions per IP address within one window. */
  const RateLimit: int := 25

  /** The client address: the sanitized `REMOTE_ADDR`, or "" when it is not set. */
  function ClientIp(remoteAddr: Option<string>, sanitizeText: string -> string): string {
    match remoteAddr
    case None => ""
    case Some(a) => sanitizeText(a)
  }

  /**
   * Whether a found counter lets the submission through. Only a `Count` is
   * ever stored under a limit key; any other value would compare as at or
   * above the limit in PHP, and is refused.
   */
  predicate RateAllows(stored: Option<Transient>) {
    match stored
    case None => true
    case Some(Count(n)) => n < RateLimit
    case Some(_) => false
  }

  /** The counter written back after finding `stored`, or `None` when nothing is written. */
  function RateWrite(stored: Option<Transient>): Option<int> {
    match stored
    case None => Some(1)
    case Some(Count(n)) => if n >= RateLimit then None else Some(n + 1)
    case Some(_) => None
  }

  /** The limiter's answer for the store as found. */
  predicate LimiterAllows(values: map<string, Transient>, ip: string, md5: string -> string)
    ensures Empty(ip) || LimitKey(md5(ip)) !in values ==> LimiterAllows(values, ip, md5)
    ensures !Empty(ip) && LimitKey(md5(ip)) in values && values[LimitKey(md5(ip))].Count? ==>
              (LimiterAllows(values, ip, md5) <==> values[LimitKey(md5(ip))].n < RateLimit)
    ensures !Empty(ip) && LimitKey(md5(ip)) in values && !values[LimitKey(md5(ip))].Count? ==> !LimiterAllows(values, ip, md5)
  {
    Empty(ip) || RateAllows(Lookup(values, LimitKey(md5(ip))))
  }

  /** The store after one limiter call: only this address's counter can change. */
  function LimiterState(values: map<string, Transient>, ip: string, md5: string -> string): (after: map<string, Transient>)
    ensures Empty(ip) ==> after == values
    ensures forall k :: k != LimitKey(md5(ip)) ==> Lookup(after, k) == Lookup(values, k)
    ensures !LimiterAllows(values, ip, md5) ==> after == values
  {
    if Empty(ip) then values
    else
      var key := LimitKey(md5(ip));
      match RateWrite(Lookup(values, key))
      case None => values
      case Some(n) => values[key := Count(n)]
  }

  /**
   * One limiter call as `check_rate_limit` does it: an empty address passes
   * without touching the store; otherwise the counter is created at 1,
   * refused at 25 or more, or raised by one.
   */
  method CheckRateLimit(store: TransientStore, remoteAddr: Option<string>,
                        sanitizeText: string -> string, md5: string -> string)
    returns (allowed: bool)
    modifies store
    ensures allowed == LimiterAllows(old(store.values), ClientIp(remoteAddr, sanitizeText), md5)
    ensures store.values == LimiterState(old(store.values), ClientIp(remoteAddr, sanitizeText), md5)
  {
    var ip := if remoteAddr.Some? then sanitizeText(remoteAddr.value) else "";
    if Empty(ip) {
      return true;
    }
    var key := LimitKey(md5(ip));
    var submissionCount := store.Get(key);
    if submissionCount.None? {
      store.Set(key, Count(1));
      return true;
    }
    if !(submissionCount.value.Count? && submissionCount.value.n < RateLimit) {
      return false;
    }
    store.Set(key, Count(submissionCount.value.n + 1));
    return true;
  }

  /** The store after `calls` limiter calls for one address. */
  function Repeated(values: map<string, Transient>, ip: string, md5: string -> string, calls: nat): map<string, Transient> {
    if calls == 0 then values else LimiterState(Repeated(values, ip, md5, calls - 1), ip, md5)
  }

  /**
   * From no counter, the calls that find 0..24 earlier calls pass and every
   * later one is refused: exactly 25 submissions per window, and the stored
   * counter never exceeds 25.
   */
  lemma {:induction false} TwentyFivePerWindow(values: map<string, Transient>, ip: string, md5: string -> string, calls: nat)
    requires !Empty(ip) && LimitKey(md5(ip)) !in values
    ensures calls == 0 ==> Lookup(Repeated(values, ip, md5, calls), LimitKey(md5(ip))) == None
    ensures calls > 0 ==>
              Lookup(Repeated(values, ip, md5, calls), LimitKey(md5(ip))) ==
              Some(Count(if calls < RateLimit then calls else RateLimit))
    ensures LimiterAllows(Repeated(values, ip, md5, calls), ip, md5) <==> calls < RateLimit
  {
    if calls > 0 {
      TwentyFivePerWindow(values, ip, md5, calls - 1);
    }
  }

  /** After the counter expires, the next call passes and starts a new window at 1. */
  lemma ExpiryStartsNewWindow(values: map<string, Transient>, ip: string, md5: string -> string)
    requires !Empty(ip)
    ensures LimiterAllows(values - {LimitKey(md5(ip))}, ip, md5)
    ensures Lookup(LimiterState(values - {LimitKey(md5(ip))}, ip, md5), LimitKey(md5(ip))) == Some(Count(1))
  {
    assert Lookup(values - {LimitKey(md5(ip))}, LimitKey(md5(ip))) == None;
  }

  /** The three transient namespaces do not overlap. */
  lemma TransientKeysDisjoint(ipHash: string, errorToken: string, successToken: string)
    ensures !StartsWith(ErrorKey(errorToken), LimitPrefix)
    ensures !StartsWith(SuccessKey(successToken), LimitPrefix)
    ensures ErrorKey(errorToken) != SuccessKey(successToken)
    ensures LimitKey(ipHash) != ErrorKey(errorToken) && LimitKey(ipHash) != SuccessKey(successToken)
  {
    assert ErrorKey(errorToken)[8] == 'o' && LimitPrefix[8] == 'e';
    assert SuccessKey(successToken)[16] == 's' && LimitPrefix[16] == 'l';
    assert SuccessKey(successToken)[8] == 'e';
    assert LimitKey(ipHash)[..22] == LimitPrefix;
  }

  /** Every transient under a limit key is a counter. */
  ghost predicate LimiterKeysHoldCounts(values: map<string, Transient>) {
    forall k :: k in values && StartsWith(k, LimitPrefix) ==> values[k].Count?
  }

  // ---------------------------------------------------------------------
  // handle_submission
  // ---------------------------------------------------------------------

  /** The parts of the request the handler reads. */
  datatype Request = Request(requestMethod: Option<string>, post: map<string, string>,
                             remoteAddr: Option<string>, requestUri: Option<string>)

  /** The WordPress functions the handler calls. */
  datatype Wp = Wp(san: Sanitizers, isEmail: string -> bool, verifyNonce: (string, string) -> bool,
                   sanitizeUrl: string -> string, md5: string -> string)

  /**
   * How the request ends: it falls through, `wp_die` with a status, or a
   * redirect to `base` with one query argument. A `None` base is the `false`
   * that `strtok` returns for an empty URI.
   */
  datatype Outcome = NoOp | Die(status: int) | Redirect(base: Option<string>, param: string, token: string)

  /** `isset($_POST[$name]) ? $_POST[$name] : ''`. */
  function PostField(post: map<string, string>, name: string): string {
    if name in post then post[name] else ""
  }

  predicate IsSubmission(req: Request) {
    req.requestMethod == Some("POST") && "feedback_nonce" in req.post
  }

  predicate NonceValid(req: Request, wp: Wp)
    requires IsSubmission(req)
  {
    wp.verifyNonce(wp.san.text(req.post["feedback_nonce"]), "submit_feedback")
  }

  /** The validator's verdict on the submitted fields. */
  function SubmittedErrors(post: map<string, string>, wp: Wp): seq<FieldError> {
    var rawName, rawEmail, rawMessage := PostField(post, "name"), PostField(post, "email"), PostField(post, "message");
    ValidateFields(rawName, rawEmail, rawMessage,
                   wp.san.text(rawName), wp.san.email(rawEmail), wp.san.textarea(rawMessage), wp.isEmail)
  }

  /** The redirect base on the error path: `strtok(sanitize_url($uri or ''), '?')`. */
  function ErrorBase(req: Request, wp: Wp): Option<string> {
    StrTok(wp.sanitizeUrl(if req.requestUri.Some? then req.requestUri.value else ""), '?')
  }

  /** The redirect base on the success path: `strtok(isset($uri) ? sanitize_url($uri) : '', '?')`. */
  function SuccessBase(req: Request, wp: Wp): Option<string> {
    StrTok(if req.requestUri.Some? then wp.sanitizeUrl(req.requestUri.value) else "", '?')
  }

  /**
   * The outcome of a request, given the limiter's answer and whether the
   * insert succeeded. The checks run in a fixed order, and each outcome
   * belongs to exactly one point in it.
   */
  function SubmissionOutcome(req: Request, wp: Wp, allowed: bool, inserted: bool,
                             errorToken: string, successToken: string): (o: Outcome)
    ensures o == NoOp <==> !IsSubmission(req)
    ensures o == Die(403) <==> IsSubmission(req) && !NonceValid(req, wp)
    ensures o == Die(429) <==> IsSubmission(req) && NonceValid(req, wp) && !allowed
    ensures (o.Redirect? && o.param == "eeform_error_token") <==>
              IsSubmission(req) && NonceValid(req, wp) && allowed && SubmittedErrors(req.post, wp) != []
    ensures (o.Redirect? && o.param == "feedback_token") <==>
              IsSubmission(req) && NonceValid(req, wp) && allowed && SubmittedErrors(req.post, wp) == [] && inserted
    ensures o == Die(500) <==>
              IsSubmission(req) && NonceValid(req, wp) && allowed && SubmittedErrors(req.post, wp) == [] && !inserted
    ensures o.Redirect? && o.param == "eeform_error_token" ==> o.base == ErrorBase(req, wp) && o.token == errorToken
    ensures o.Redirect? && o.param == "feedback_token" ==> o.base == SuccessBase(req, wp) && o.token == successToken
  {
    if !IsSubmission(req) then NoOp
    else if !NonceValid(req, wp) then Die(403)
    else if !allowed then Die(429)
    else if SubmittedErrors(req.post, wp) != [] then Redirect(ErrorBase(req, wp), "eeform_error_token", errorToken)
    else if inserted then Redirect(SuccessBase(req, wp), "feedback_token", successToken)
    else Die(500)
  }

  /** Whether the request gets as far as the insert. */
  predicate InsertAttempted(req: Request, wp: Wp, allowed: bool) {
    IsSubmission(req) && NonceValid(req, wp) && allowed && SubmittedErrors(req.post, wp) == []
  }

  /** The transients after a request. */
  function StoreAfter(values: map<string, Transient>, req: Request, wp: Wp, inserted: bool,
                      errorToken: string, successToken: string): (after: map<string, Transient>)
    ensures forall k :: k != LimitKey(wp.md5(ClientIp(req.remoteAddr, wp.san.text))) &&
                        k != ErrorKey(errorToken) && k != SuccessKey(successToken) ==>
              Lookup(after, k) == Lookup(values, k)
  {
    if !IsSubmission(req) || !NonceValid(req, wp) then values
    else
      var ip := ClientIp(req.remoteAddr, wp.san.text);
      var limited := LimiterState(values, ip, wp.md5);
      var errors := SubmittedErrors(req.post, wp);
      if !LimiterAllows(values, ip, wp.md5) then limited
      else if errors != [] then
        limited[ErrorKey(errorToken) := FormErrors(errors, PostField(req.post, "name"),
                                                    PostField(req.post, "email"), PostField(req.post, "message"))]
      else if inserted then limited[SuccessKey(successToken) := SuccessFlag]
      else limited
  }

  /**
   * What a request leaves in the transients: nothing before the nonce
   * check passes; then the limiter's counter; then, on errors, the errors
   * with the raw (unsanitized) input under the error token, or, after a
   * successful insert, the success flag under the success token.
   */
  lemma StoreAfterEffects(values: map<string, Transient>, req: Request, wp: Wp, inserted: bool,
                          errorToken: string, successToken: string)
    ensures !IsSubmission(req) ==> StoreAfter(values, req, wp, inserted, errorToken, successToken) == values
    ensures IsSubmission(req) && !NonceValid(req, wp) ==>
              StoreAfter(values, req, wp, inserted, errorToken, successToken) == values
    ensures IsSubmission(req) && NonceValid(req, wp) &&
            LimiterAllows(values, ClientIp(req.remoteAddr, wp.san.text), wp.md5) &&
            SubmittedErrors(req.post, wp) != [] ==>
              Lookup(StoreAfter(values, req, wp, inserted, errorToken, successToken), ErrorKey(errorToken)) ==
              Some(FormErrors(SubmittedErrors(req.post, wp), PostField(req.post, "name"),
                              PostField(req.post, "email"), PostField(req.post, "message")))
    ensures IsSubmission(req) && NonceValid(req, wp) &&
            LimiterAllows(values, ClientIp(req.remoteAddr, wp.san.text), wp.md5) &&
            SubmittedErrors(req.post, wp) == [] && inserted ==>
              Lookup(StoreAfter(values, req, wp, inserted, errorToken, successToken), SuccessKey(successToken)) ==
              Some(SuccessFlag)
    ensures !(IsSubmission(req) && NonceValid(req, wp) &&
              LimiterAllows(values, ClientIp(req.remoteAddr, wp.san.text), wp.md5) &&
              SubmittedErrors(req.post, wp) == [] && inserted) ==>
              Lookup(StoreAfter(values, req, wp, inserted, errorToken, successToken), SuccessKey(successToken)) ==
              Lookup(values, SuccessKey(successToken))
    ensures !(IsSubmission(req) && NonceValid(req, wp) &&
              LimiterAllows(values, ClientIp(req.remoteAddr, wp.san.text), wp.md5) &&
              SubmittedErrors(req.post, wp) != []) ==>
              Lookup(StoreAfter(values, req, wp, inserted, errorToken, successToken), ErrorKey(errorToken)) ==
              Lookup(values, ErrorKey(errorToken))
  {
    TransientKeysDisjoint(wp.md5(ClientIp(req.remoteAddr, wp.san.text)), errorToken, successToken);
  }

  /** A request never puts anything but a counter under a limit key. */
  lemma StoreAfterKeepsLimiterCounts(values: map<string, Transient>, req: Request, wp: Wp, inserted: bool,
                                     errorToken: string, successToken: string)
    requires LimiterKeysHoldCounts(values)
    ensures LimiterKeysHoldCounts(StoreAfter(values, req, wp, inserted, errorToken, successToken))
  {
    TransientKeysDisjoint("", errorToken, successToken);
    if IsSubmission(req) && NonceValid(req, wp) {
      var ip := ClientIp(req.remoteAddr, wp.san.text);
      var limited := LimiterState(values, ip, wp.md5);
      assert LimiterKeysHoldCounts(limited) by {
        forall k | k in limited && StartsWith(k, LimitPrefix)
          ensures limited[k].Count?
        {
          if k != LimitKey(wp.md5(ip)) {
            assert Lookup(limited, k) == Lookup(values, k);
          }
        }
      }
    }
  }

  /**
   * `handle_submission`: no-op unless a POST with `feedback_nonce`; 403 on
   * a bad nonce, before the limiter; 429 when the limiter refuses, before
   * validation; on validation errors, store them with the raw input and
   * redirect with the error token; otherwise insert the sanitized values
   * and redirect with the success token, or 500 when the insert fails.
   */
  method HandleSubmission(req: Request, wp: Wp, errorToken: string, successToken: string,
                          now: int, accepted: bool, store: TransientStore,
                          table: FeedbackTable, cache: Cache<CacheValue>)
    returns (outcome: Outcome)
    requires table.Valid()
    modifies store, table, cache
    ensures table.Valid()
    ensures var allowed := LimiterAllows(old(store.values), ClientIp(req.remoteAddr, wp.san.text), wp.md5);
            var inserted := accepted && old(table.autoIncrement) <= MaxId;
            outcome == SubmissionOutcome(req, wp, allowed, inserted, errorToken, successToken) &&
            store.values == StoreAfter(old(store.values), req, wp, inserted, errorToken, successToken)
    ensures var allowed := LimiterAllows(old(store.values), ClientIp(req.remoteAddr, wp.san.text), wp.md5);
            !InsertAttempted(req, wp, allowed) ==>
              table.rows == old(table.rows) && table.autoIncrement == old(table.autoIncrement) &&
              cache.entries == old(cache.entries)
    ensures var allowed := LimiterAllows(old(store.values), ClientIp(req.remoteAddr, wp.san.text), wp.md5);
            InsertAttempted(req, wp, allowed) && outcome.Redirect? ==>
              var name, email, message := PostField(req.post, "name"), PostField(req.post, "email"), PostField(req.post, "message");
              table.rows == old(table.rows) +
                [Row(old(table.autoIncrement), wp.san.text(wp.san.text(name)), wp.san.email(wp.san.email(email)),
                     wp.san.textarea(wp.san.textarea(message)), now, Some(0))]
    ensures outcome == Die(500) ==>
              table.rows == old(table.rows) && table.autoIncrement == old(table.autoIncrement) &&
              cache.entries == old(cache.entries)
  {
    if req.requestMethod != Some("POST") || "feedback_nonce" !in req.post {
      return NoOp;
    }
    var nonce := wp.san.text(req.post["feedback_nonce"]);
    if !wp.verifyNonce(nonce, "submit_feedback") {
      return Die(403);
    }
    var allowed := CheckRateLimit(store, req.remoteAddr, wp.san.text, wp.md5);
    if !allowed {
      return Die(429);
    }

    var rawName := PostField(req.post, "name");
    var rawEmail := PostField(req.post, "email");
    var rawMessage := PostField(req.post, "message");
    var sanitizedName := wp.san.text(rawName);
    var sanitizedEmail := wp.san.email(rawEmail);
    var sanitizedMessage := wp.san.textarea(rawMessage);
    var errors := ValidateFields(rawName, rawEmail, rawMessage,
                                 sanitizedName, sanitizedEmail, sanitizedMessage, wp.isEmail);

    if errors != [] {
      store.Set(ErrorKey(errorToken), FormErrors(errors, rawName, rawEmail, rawMessage));
      var rawRequestUri := if req.requestUri.Some? then req.requestUri.value else "";
      return Redirect(StrTok(wp.sanitizeUrl(rawRequestUri), '?'), "eeform_error_token", errorToken);
    }

    var result := table.InsertFeedback(sanitizedName, sanitizedEmail, sanitizedMessage, wp.san, now, accepted, cache);
    if result {
      store.Set(SuccessKey(successToken), SuccessFlag);
      var baseUri := if req.requestUri.Some? then wp.sanitizeUrl(req.requestUri.value) else "";
      return Redirect(StrTok(baseUri, '?'), "feedback_token", successToken);
    } else {
      return Die(500);
    }
  }
}
