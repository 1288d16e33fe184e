/**
 * What the store promises across several requests: a code is single-use,
 * a wrong guess keeps the record, expiry is strict, a new code replaces
 * the old one, addresses do not interfere, and over any sequence of
 * requests every record is consumed at most once.
 */
module OtpProperties {
  import opened JsValues
  import opened OtpStore

  /** One request to either handler, with the clock reading at which it is served. */
  datatype Request =
    | SendCodeRequest(email: Field, code: Otp, now: int, sendOk: bool)
    | VerifyCodeRequest(email: Field, submitted: Field, now: int)

  function Apply(codes: map<string, Entry>, req: Request): (s: Step)
    // `/send-code` answers only success, validation or delivery errors; `/verify-code` never a delivery error
    ensures req.SendCodeRequest? ==> s.outcome == Ok || s.outcome == Validation || s.outcome == Delivery
    ensures req.VerifyCodeRequest? ==> s.outcome != Delivery
  {
    match req
    case SendCodeRequest(email, code, now, sendOk) => SendCodeStep(codes, email, code, now, sendOk)
    case VerifyCodeRequest(email, submitted, now) => VerifyCodeStep(codes, email, submitted, now)
  }

  /** The outcomes of a sequence of requests served one after another, and the final store. */
  datatype Trace = Trace(outcomes: seq<Outcome>, codes: map<string, Entry>)

  function Replay(codes: map<string, Entry>, reqs: seq<Request>): (t: Trace)
    ensures |t.outcomes| == |reqs|
    decreases |reqs|
  {
    if reqs == [] then Trace([], codes)
    else
      var s := Apply(codes, reqs[0]);
      var rest := Replay(s.codes, reqs[1..]);
      Trace([s.outcome] + rest.outcomes, rest.codes)
  }

  /** The request writes a record under key k. */
  predicate Writes(req: Request, k: string) {
    req.SendCodeRequest? && Truthy(req.email) && Key(req.email) == k
  }

  /** The request, answered with o, consumes the record under key k. */
  predicate Consumes(req: Request, o: Outcome, k: string) {
    req.VerifyCodeRequest? && Key(req.email) == k && (o == Ok || o == Expired)
  }

  function Issues(reqs: seq<Request>, k: string): (n: nat)
    ensures n <= |reqs|
  {
    if reqs == [] then 0 else Count(Writes(reqs[0], k)) + Issues(reqs[1..], k)
  }

  function Consumptions(reqs: seq<Request>, outcomes: seq<Outcome>, k: string): (n: nat)
    requires |reqs| == |outcomes|
    ensures n <= |reqs|
  {
    if reqs == [] then 0
    else Count(Consumes(reqs[0], outcomes[0], k)) + Consumptions(reqs[1..], outcomes[1..], k)
  }

  function Count(b: bool): (n: nat)
    ensures n <= 1 && (n == 1 <==> b)
  {
    if b then 1 else 0
  }

  // ----- single requests -------------------------------------------------

  /** A code sent and then submitted before expiry, as a string or as a number, is accepted and consumed. */
  lemma IssueThenVerifySucceeds(codes: map<string, Entry>, email: Field, code: Otp, issuedAt: int, sendOk: bool,
                                submitted: Field, now: int)
    requires Truthy(email)
    requires submitted == Text(NatToString(code)) || submitted == Number(code)
    requires now <= issuedAt + OtpTtl
    ensures var v := VerifyCodeStep(SendCodeStep(codes, email, code, issuedAt, sendOk).codes, email, submitted, now);
      v.outcome == Ok && v.codes == codes - {Key(email)}
  {
    MatchesDecimal(submitted, code);
  }

  /** Once a verification succeeded, the next one for that address finds nothing. */
  lemma VerifiedCodeIsSingleUse(codes: map<string, Entry>, email: Field, submitted: Field, now: int,
                                again: Field, later: int)
    requires VerifyCodeStep(codes, email, submitted, now).outcome == Ok
    requires Truthy(again)
    ensures VerifyCodeStep(VerifyCodeStep(codes, email, submitted, now).codes, email, again, later).outcome == NotFound
  {
  }

  /** An address never written to is reported as not found (or as a validation error). */
  lemma VerifyBeforeIssueIsNotFound(codes: map<string, Entry>, email: Field, submitted: Field, now: int)
    requires Key(email) !in codes
    ensures var v := VerifyCodeStep(codes, email, submitted, now);
      (v.outcome == NotFound <==> Truthy(email) && Truthy(submitted))
      && (v.outcome == Validation <==> !(Truthy(email) && Truthy(submitted)))
      && v.codes == codes
  {
  }

  /**
   * Expiry is strict: a correct code is accepted up to and including
   * `issuedAt + OtpTtl`, and one millisecond later the record is dropped,
   * so a repeated attempt finds nothing.
   */
  lemma ExpiryIsStrict(codes: map<string, Entry>, email: Field, code: Otp, issuedAt: int, sendOk: bool, again: Field)
    requires Truthy(email) && Truthy(again)
    ensures var written := SendCodeStep(codes, email, code, issuedAt, sendOk).codes;
      VerifyCodeStep(written, email, Text(NatToString(code)), issuedAt + OtpTtl).outcome == Ok
    ensures var written := SendCodeStep(codes, email, code, issuedAt, sendOk).codes;
      var late := VerifyCodeStep(written, email, Text(NatToString(code)), issuedAt + OtpTtl + 1);
      late.outcome == Expired && late.codes == codes - {Key(email)}
      && VerifyCodeStep(late.codes, email, again, issuedAt + OtpTtl + 1).outcome == NotFound
  {
  }

  /** A wrong code keeps the record, so the right code is still accepted afterwards. */
  lemma MismatchKeepsRecord(codes: map<string, Entry>, email: Field, wrong: Field, now: int, right: Field, later: int)
    requires VerifyCodeStep(codes, email, wrong, now).outcome == Mismatch
    requires Truthy(right) && Matches(codes[Key(email)], right) && later <= codes[Key(email)].expiresAt
    ensures VerifyCodeStep(codes, email, wrong, now).codes == codes
    ensures VerifyCodeStep(VerifyCodeStep(codes, email, wrong, now).codes, email, right, later).outcome == Ok
  {
  }

  /** Sending a second, different code for an address invalidates the first, in either form. */
  lemma ReissueInvalidatesOldCode(codes: map<string, Entry>, email: Field, first: Otp, t0: int, ok0: bool,
                                  second: Otp, t1: int, ok1: bool, stale: Field, now: int)
    requires Truthy(email) && first != second
    requires stale == Text(NatToString(first)) || stale == Number(first)
    requires now <= t1 + OtpTtl
    ensures var s0 := SendCodeStep(codes, email, first, t0, ok0).codes;
      var s1 := SendCodeStep(s0, email, second, t1, ok1).codes;
      VerifyCodeStep(s1, email, stale, now).outcome == Mismatch
  {
    MatchesDecimal(stale, second);
    NatToStringInjective(first, second);
  }

  /** A failed mail send leaves exactly the store a successful one would. */
  lemma DeliveryFailureKeepsRecord(codes: map<string, Entry>, email: Field, code: Otp, now: int)
    requires Truthy(email)
    ensures SendCodeStep(codes, email, code, now, false).outcome == Delivery
    ensures SendCodeStep(codes, email, code, now, false).codes == SendCodeStep(codes, email, code, now, true).codes
  {
  }

  // ----- sequences of requests -------------------------------------------

  /**
   * Every record is consumed at most once: over any sequence of requests,
   * the records consumed under key k (by success or by expiry) plus the
   * one possibly left at the end never exceed the records written under k
   * plus the one possibly there at the start. Overwriting can only lose
   * records, never create them.
   */
  lemma {:induction false} EachRecordConsumedAtMostOnce(codes: map<string, Entry>, reqs: seq<Request>, k: string)
    ensures var t := Replay(codes, reqs);
      Consumptions(reqs, t.outcomes, k) + Count(k in t.codes) <= Issues(reqs, k) + Count(k in codes)
    decreases |reqs|
  {
    if reqs != [] {
      var s := Apply(codes, reqs[0]);
      var rest := Replay(s.codes, reqs[1..]);
      EachRecordConsumedAtMostOnce(s.codes, reqs[1..], k);
      var t := Replay(codes, reqs);
      assert t.outcomes[0] == s.outcome && t.outcomes[1..] == rest.outcomes;
      assert Count(Consumes(reqs[0], s.outcome, k)) + Count(k in s.codes)
          <= Count(Writes(reqs[0], k)) + Count(k in codes);
    }
  }

  /** Starting from the empty store, no address is verified more often than a code was sent to it. */
  lemma ConsumptionsNeverExceedIssues(reqs: seq<Request>, k: string)
    ensures Consumptions(reqs, Replay(map[], reqs).outcomes, k) <= Issues(reqs, k)
  {
    EachRecordConsumedAtMostOnce(map[], reqs, k);
  }

  /** Requests about other addresses neither add, change nor remove the record under k. */
  lemma {:induction false} OtherAddressesDoNotInterfere(codes: map<string, Entry>, reqs: seq<Request>, k: string)
    requires forall i :: 0 <= i < |reqs| ==> Key(reqs[i].email) != k
    ensures var t := Replay(codes, reqs);
      (k in t.codes <==> k in codes) && (k in codes ==> t.codes[k] == codes[k])
    decreases |reqs|
  {
    if reqs != [] {
      var s := Apply(codes, reqs[0]);
      assert Key(reqs[0].email) != k;
      assert forall i :: 0 <= i < |reqs[1..]| ==> Key(reqs[1..][i].email) != k by {
        forall i | 0 <= i < |reqs[1..]| ensures Key(reqs[1..][i].email) != k {
          assert reqs[1..][i] == reqs[i + 1];
        }
      }
      OtherAddressesDoNotInterfere(s.codes, reqs[1..], k);
    }
  }

  /** A request for this address that submits a live, wrong code. */
  predicate WrongGuess(codes: map<string, Entry>, req: Request, k: string) {
    && req.VerifyCodeRequest? && Truthy(req.email) && Truthy(req.submitted) && Key(req.email) == k
    && k in codes && req.now <= codes[k].expiresAt && !Matches(codes[k], req.submitted)
  }

  /**
   * Wrong guesses before expiry are unlimited: any number of them is
   * answered with Mismatch each time and leaves the store as it was.
   */
  lemma {:induction false} WrongGuessesKeepStore(codes: map<string, Entry>, reqs: seq<Request>, k: string)
    requires forall i :: 0 <= i < |reqs| ==> WrongGuess(codes, reqs[i], k)
    ensures var t := Replay(codes, reqs);
      t.codes == codes && forall i :: 0 <= i < |reqs| ==> t.outcomes[i] == Mismatch
    decreases |reqs|
  {
    if reqs != [] {
      assert WrongGuess(codes, reqs[0], k);
      var s := Apply(codes, reqs[0]);
      assert s == Step(Mismatch, codes);
      assert forall i :: 0 <= i < |reqs[1..]| ==> WrongGuess(codes, reqs[1..][i], k) by {
        forall i | 0 <= i < |reqs[1..]| ensures WrongGuess(codes, reqs[1..][i], k) {
          assert reqs[1..][i] == reqs[i + 1];
        }
      }
      WrongGuessesKeepStore(codes, reqs[1..], k);
    }
  }

  /** After any number of wrong guesses, the right code before expiry is still accepted. */
  lemma RightCodeAfterWrongGuesses(codes: map<string, Entry>, reqs: seq<Request>, email: Field, right: Field, now: int)
    requires forall i :: 0 <= i < |reqs| ==> WrongGuess(codes, reqs[i], Key(email))
    requires Truthy(email) && Truthy(right) && Key(email) in codes
    requires Matches(codes[Key(email)], right) && now <= codes[Key(email)].expiresAt
    ensures VerifyCodeStep(Replay(codes, reqs).codes, email, right, now).outcome == Ok
  {
    WrongGuessesKeepStore(codes, reqs, Key(email));
  }

  // ----- the handlers on one store object --------------------------------

  /** Send a code to a@x.com at time t, verify it at t + 1000, then verify it again. */
  method ExampleSession(t: int) returns (sent: Outcome, first: Outcome, second: Outcome)
    ensures sent == Ok && first == Ok && second == NotFound
  {
    var store := new CodeStore();
    sent := store.SendCode(Text("a@x.com"), 482913, t, true);
    assert NatToString(482913) == "482913";
    first := store.VerifyCode(Text("a@x.com"), Text("482913"), t + 1000);
    second := store.VerifyCode(Text("a@x.com"), Text("482913"), t + 1000);
  }
}
