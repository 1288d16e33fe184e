/**
 * The in-memory one-time-code store and the two request handlers that
 * change it: `/send-code` writes a record for an address, `/verify-code`
 * checks a submitted code against it and consumes it.
 */
module OtpStore {
  import opened JsValues

  /** OTP_TTL: two minutes, in milliseconds. */
  const OtpTtl: int := 2 * 60 * 1000

  /** A code as `Math.floor(100000 + Math.random() * 900000)` produces one. */
  type Otp = c: nat | 100000 <= c <= 999999 witness 100000

  /** The record `{ code, expiresAt }` kept for one address. */
  datatype Entry = Entry(code: Otp, expiresAt: int)

  /** The outcome a handler reports; only `Ok` is answered with `ok: true`. */
  datatype Outcome =
    | Ok          // code sent, or email verified
    | Validation  // a required body property is missing
    | NotFound    // no record for the address
    | Expired     // the record outlived its expiry time
    | Mismatch    // the submitted code is not the stored one
    | Delivery    // the mail could not be sent

  /** What one handler reports, and the store it leaves behind. */
  datatype Step = Step(outcome: Outcome, codes: map<string, Entry>)

  /** The property name under which `codes[email]` stores and finds a record. */
  function Key(email: Field): (k: string)
    // a string address is its own key, so distinct strings never share a record
    ensures email.Text? ==> k == email.s
    // a non-negative numeric address is stored under its canonical numeral,
    // a negative one under a minus sign followed by the numeral of its magnitude
    ensures email.Number? && email.n >= 0 ==> Canonical(k) && DecimalValue(k) == email.n
    ensures email.Number? && email.n < 0 ==>
      |k| >= 2 && k[0] == '-' && Canonical(k[1..]) && DecimalValue(k[1..]) == -email.n
  {
    ToJsString(email)
  }

  /**
   * A number and the string of its digits name the same record: `codes[5]`
   * is `codes["5"]`, and `codes[-5]` is `codes["-5"]`. The digits are given
   * only as a canonical numeral of the magnitude, not as `String(n)`.
   */
  lemma NumberAndNumeralShareKey(n: SafeInteger, digits: string)
    requires Canonical(digits) && DecimalValue(digits) == if n < 0 then -n else n
    ensures Key(Number(n)) == Key(Text(if n < 0 then "-" + digits else digits))
  {
    NatToStringOfDecimalValue(digits);
  }

  /** `String(entry.code) === String(submitted)` */
  predicate Matches(entry: Entry, submitted: Field)
    // the submitted value is the code's numeral as a string, or the code as a number
    ensures Matches(entry, submitted) <==>
      submitted == Text(NatToString(entry.code)) || (submitted.Number? && submitted.n == entry.code)
  {
    MatchesDecimal(submitted, entry.code);
    ToJsString(submitted) == NatToString(entry.code)
  }

  /**
   * `/send-code` with body property `email`, generated code `code`, clock
   * `now`, and `sendOk` telling whether the mail transport accepted the message.
   */
  function SendCodeStep(codes: map<string, Entry>, email: Field, code: Otp, now: int, sendOk: bool): (r: Step)
    // a missing or empty address is refused and creates no record
    ensures r.outcome == Validation <==> !Truthy(email)
    ensures !Truthy(email) ==> r.codes == codes
    // otherwise the sole outcomes are success and a delivery error, decided by the send alone
    ensures Truthy(email) ==> (r.outcome == Ok <==> sendOk) && (r.outcome == Delivery <==> !sendOk)
    // the fresh record is stored, replacing any earlier one, whether or not the mail went out
    ensures Truthy(email) ==> r.codes.Keys == codes.Keys + {Key(email)}
    ensures Truthy(email) ==> r.codes[Key(email)] == Entry(code, now + OtpTtl)
    // no other address is touched
    ensures forall k :: k in codes && k != Key(email) ==> k in r.codes && r.codes[k] == codes[k]
  {
    if !Truthy(email) then Step(Validation, codes)
    else
      var written := codes[Key(email) := Entry(code, now + OtpTtl)];
      Step(if sendOk then Ok else Delivery, written)
  }

  /** `/verify-code` with body properties `email` and `submitted`, at clock `now`. */
  function VerifyCodeStep(codes: map<string, Entry>, email: Field, submitted: Field, now: int): (r: Step)
    // the checks in order, first match wins
    ensures r.outcome == Validation <==> !Truthy(email) || !Truthy(submitted)
    ensures r.outcome == NotFound <==> Truthy(email) && Truthy(submitted) && Key(email) !in codes
    ensures r.outcome == Expired <==>
      Truthy(email) && Truthy(submitted) && Key(email) in codes && now > codes[Key(email)].expiresAt
    ensures r.outcome == Mismatch <==>
      Truthy(email) && Truthy(submitted) && Key(email) in codes && now <= codes[Key(email)].expiresAt
      && !Matches(codes[Key(email)], submitted)
    ensures r.outcome == Ok <==>
      Truthy(email) && Truthy(submitted) && Key(email) in codes && now <= codes[Key(email)].expiresAt
      && Matches(codes[Key(email)], submitted)
    // expiry and success consume exactly the address's record; every other outcome keeps the store
    ensures r.outcome == Ok || r.outcome == Expired ==> r.codes == codes - {Key(email)}
    ensures r.outcome != Ok && r.outcome != Expired ==> r.codes == codes
  {
    if !Truthy(email) || !Truthy(submitted) then Step(Validation, codes)
    else if Key(email) !in codes then Step(NotFound, codes)
    else
      var entry := codes[Key(email)];
      if now > entry.expiresAt then Step(Expired, codes - {Key(email)})
      else if !Matches(entry, submitted) then Step(Mismatch, codes)
      else Step(Ok, codes - {Key(email)})
  }

  /** The process-wide store `codes`, created empty when the process starts. */
  class CodeStore {
    var codes: map<string, Entry>

    constructor ()
      ensures codes == map[]
    {
      codes := map[];
    }

    /** The `/send-code` handler. */
    method SendCode(email: Field, code: Otp, now: int, sendOk: bool) returns (outcome: Outcome)
      modifies this
      ensures Step(outcome, codes) == SendCodeStep(old(codes), email, code, now, sendOk)
    {
      if !Truthy(email) {
        return Validation;
      }
      codes := codes[Key(email) := Entry(code, now + OtpTtl)];
      if sendOk {
        outcome := Ok;
      } else {
        outcome := Delivery;
      }
    }

    /** The `/verify-code` handler. */
    method VerifyCode(email: Field, submitted: Field, now: int) returns (outcome: Outcome)
      modifies this
      ensures Step(outcome, codes) == VerifyCodeStep(old(codes), email, submitted, now)
    {
      if !Truthy(email) || !Truthy(submitted) {
        return Validation;
      }
      var key := Key(email);
      if key !in codes {
        return NotFound;
      }
      var entry := codes[key];
      if now > entry.expiresAt {
        codes := codes - {key};
        return Expired;
      }
      if ToJsString(submitted) != NatToString(entry.code) {
        return Mismatch;
      }
      codes := codes - {key};
      outcome := Ok;
    }
  }
}
