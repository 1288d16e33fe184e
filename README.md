# Email one-time-code store

A model of the verification core of a small Express service. A client posts an
email address to `/send-code`. The service stores a 6-digit code for that
address, valid for two minutes, and mails it. The client then posts the address
and the code to `/verify-code`. There the code is checked against the store and
consumed.

The model has four modules:

- `JsValues` (`js_values.dfy`) covers the request-body values the handlers see.
  These are undefined, null, strings, safe integers and booleans. It models the
  two JavaScript operations applied to them: the truthiness test `!x` and
  `String(x)`. `String(n)` is written as the decimal numeral of `n`. That
  numeral is proved to round-trip with its decimal value, to be injective, and
  to have exactly six digits for every generated code.
- `OtpStore` (`otp_store.dfy`) has the record `Entry(code, expiresAt)`, the
  constant `OtpTtl = 120000` ms and the outcome of each handler. Each handler
  has a specification function on the store map: `SendCodeStep` and
  `VerifyCodeStep`. The class `CodeStore` holds the mutable `codes` map. Its
  methods `SendCode` and `VerifyCode` update that map in place, step by step, as
  the handlers do. Each method is proved to produce the outcome and the new map
  that its specification function gives.
- `OtpProperties` (`otp_properties.dfy`) proves what holds across requests. A
  verified code is single-use. A wrong guess keeps the record, so guesses are
  unlimited until expiry. Expiry is strict. A re-sent code invalidates the old
  one. A failed mail send still leaves the record stored. Requests for one
  address never touch another address's record. Over any sequence of requests
  (`Replay`), each record is consumed at most once.
- `PrototypeLookup` (`prototype_lookup.dfy`) models `/verify-code` with the
  JavaScript object lookup exactly as written (see Findings).

The clock (`Date.now()`), the generated code (`Math.random`) and the result of
the mail send are parameters: `now`, `code` and `sendOk`. The generated code has
the type `Otp`, the integers 100000 to 999999.

Expiry is strict: the check is `Date.now() > entry.expiresAt` (script.js:83),
so a correct code is still accepted at exactly issuance time + 120000 ms
(`ExpiryIsStrict`). The field checks `!email` and `!code` (script.js:33, 74)
refuse every falsy value: undefined, null, `""`, `0` and `false`
(`JsValues.Truthy`).

## Model

| member | source | states |
|---|---|---|
| `JsValues.Truthy` | script.js:33 | the values `!x` treats as missing are exactly undefined, null, `""`, `0` and `false`; every other string, number and `true` passes |
| `JsValues.ToJsString` | script.js:88 | `String(x)` keeps a string as it is, writes a non-negative number as the canonical numeral of its value and a negative one as `-` followed by the canonical numeral of its magnitude, and writes undefined, null and the booleans as words that never start with a digit |
| `JsValues.DecimalValue` | script.js:88 | a string of k digits denotes a value below 10^k |
| `JsValues.NatToString` | script.js:88 | `String(code)` for a non-negative integer is a canonical decimal numeral: digits only, and no leading zero except for 0 itself |
| `JsValues.IntToString` | script.js:88 | `String(n)` of a non-negative integer is the canonical numeral whose value is n; of a negative one it is `-` followed by the canonical numeral whose value is -n |
| `JsValues.DecimalValueOfNatToString` | script.js:88 | reading back the numeral of n gives n |
| `JsValues.NatToStringOfDecimalValue` | script.js:88 | every canonical numeral is the numeral of its value (the other direction of the round trip) |
| `JsValues.NatToStringInjective` | script.js:88 | two codes print the same if and only if they are equal |
| `JsValues.NatToStringLength` | script.js:37-38 | the numeral of n has at most k digits exactly when n < 10^k |
| `JsValues.SixDigitCode` | script.js:37-38 | every code in [100000, 999999] is written with exactly six digits |
| `JsValues.MatchesDecimal` | script.js:88 | `String(submitted) === String(code)` holds exactly when the client sent the code's numeral as a string, or the code itself as a number; never for null, undefined, booleans or negative numbers |
| `OtpStore.Key` | script.js:41 | `codes[email]` files a string address under that string itself, so distinct strings never share a record; a non-negative numeric address under its canonical numeral, a negative one under `-` and that numeral |
| `OtpStore.NumberAndNumeralShareKey` | script.js:78 | a number and the string of its digits (the canonical numeral of its magnitude, after `-` when negative) name the same record: `codes[5]` is `codes["5"]`, `codes[-5]` is `codes["-5"]` |
| `OtpStore.Matches` | script.js:88 | `String(entry.code) === String(submitted)` holds exactly when the submitted value is the code's numeral as a string or the code as a number |
| `OtpStore.SendCodeStep` | script.js:31-69 | a falsy email gives a validation error and the same store; otherwise the record `(code, now + 120000)` is stored under the email, replacing any earlier one, whether or not the send succeeds; the outcome is success if and only if the send succeeded and a delivery error otherwise; no other key changes |
| `OtpStore.VerifyCodeStep` | script.js:72-94 | each outcome occurs if and only if its check is the first to match: missing field, no record, `now > expiresAt`, string mismatch, success; expiry and success remove exactly that email's key; every other outcome leaves the store unchanged |
| `OtpStore.CodeStore.constructor` | script.js:16 | the store starts empty |
| `OtpStore.CodeStore.SendCode` | script.js:31-69 | the handler's in-place update of `codes` yields the outcome and the map that `SendCodeStep` specifies |
| `OtpStore.CodeStore.VerifyCode` | script.js:72-94 | the handler's early-return sequence, with its deletes, yields the outcome and the map that `VerifyCodeStep` specifies |
| `OtpProperties.Replay` | script.js:16 | serving n requests in turn against the shared store yields n outcomes |
| `OtpProperties.IssueThenVerifySucceeds` | script.js:41-93 | a code sent and then submitted before expiry, as a string or as a number, is accepted, and the store loses exactly that key |
| `OtpProperties.VerifiedCodeIsSingleUse` | script.js:92-93 | after a successful verification, the next verification for that address reports not found |
| `OtpProperties.VerifyBeforeIssueIsNotFound` | script.js:78-81 | an address with no record gives not found when both fields are present, and a validation error otherwise; the store is unchanged |
| `OtpProperties.ExpiryIsStrict` | script.js:83-86 | a correct code is accepted at issuance time + 120000 ms; one millisecond later it reports expired, the record is removed, and a repeat attempt reports not found |
| `OtpProperties.MismatchKeepsRecord` | script.js:88-90 | a mismatch leaves the store unchanged, so the right code before expiry still succeeds |
| `OtpProperties.ReissueInvalidatesOldCode` | script.js:41 | after a second, different code is sent for an address, the first code (string or number) reports a mismatch |
| `OtpProperties.DeliveryFailureKeepsRecord` | script.js:61-68 | a failed send reports a delivery error and leaves exactly the store that a successful send leaves |
| `OtpProperties.EachRecordConsumedAtMostOnce` | script.js:41-92 | over any request sequence, records consumed under a key (by success or by expiry), plus one if the key remains, never exceed records written under it, plus one if it was there at the start |
| `OtpProperties.ConsumptionsNeverExceedIssues` | script.js:41-92 | from an empty store, an address is verified or expired no more often than a code was sent to it |
| `OtpProperties.OtherAddressesDoNotInterfere` | script.js:41-92 | requests that name other addresses neither add, change nor remove a key's record |
| `OtpProperties.WrongGuessesKeepStore` | script.js:88-90 | any number of live wrong guesses is answered with a mismatch each time and leaves the store as it was |
| `OtpProperties.RightCodeAfterWrongGuesses` | script.js:88-93 | after any number of wrong guesses, the right code before expiry is accepted |
| `OtpProperties.ExampleSession` | script.js:31-94 | sending to a@x.com with code 482913, then verifying it 1000 ms later, then verifying again, gives success, success, not found |
| `PrototypeLookup.VerifyCodeAsWritten` | script.js:78-93 | with the object lookup as written, a request with both fields present whose email is an inherited Object.prototype name with no own record is never expired and keeps the store; it succeeds exactly when the submitted value prints as "undefined" and is a mismatch otherwise; every other request, a falsy field included, behaves as `VerifyCodeStep` |
| `PrototypeLookup.EveryInheritedNameVerifiesWithoutIssue` | script.js:16-92 | for each of the twelve names `codes = {}` inherits from Object.prototype (`InheritedNames`), with no own record under it, code "undefined" is accepted as written and the store is unchanged; the own-record model reports not found |
| `PrototypeLookup.InheritedNameVerifiesWithoutIssue` | script.js:78-93 | as written, for an empty store, email "constructor" with code "undefined" is reported verified; the own-record model reports not found |

## Findings

| source | as written | input that shows it | evidently intended | confidence | as-written member | corrected member |
|---|---|---|---|---|---|---|
| script.js:78-93 | `codes` is a plain object, so `codes[email]` finds inherited members of Object.prototype; the handler treats one as a record whose `code` prints as "undefined" and that never expires | with no code ever sent, body `{"email": "constructor", "code": "undefined"}` is answered `ok: true`, "Email verified successfully!" | only a record the store itself holds can be verified; an address never sent a code is not found (`OtpProperties.VerifyBeforeIssueIsNotFound`) | high; not executed | `PrototypeLookup.VerifyCodeAsWritten` | `OtpStore.VerifyCodeStep` |

## Left out

- Express setup, middleware, routing, static files and the `/` liveness route (script.js:1-13, script.js:96-104) are HTTP plumbing.
- The nodemailer transport and `sendMail` (script.js:20-26, script.js:61-62) are an external call. Only their success or failure is modelled, as the `sendOk` parameter. A send that never completes is not modelled.
- `dotenv`, the environment variables and the port (script.js:6-8) are configuration loading.
- `Math.random` and `Math.floor` (script.js:38) are floating-point randomness. The code is a caller-supplied `Otp`, and its type carries the generator's range.
- `Date.now()` is the `now` parameter. The model does not assume the clock is monotonic.
- The mail text, including `Math.round(OTP_TTL / 1000 / 60)` (script.js:44-59), is I/O formatting. Console logging and the JSON envelope are reduced to the `Outcome` tag.
- Body values that are arrays, objects, non-integer numbers or integers beyond ±(2^53 − 1) are not modelled. Their `String` forms (for example, exponent notation) are not modelled either.
- `JsValues.NatToString` writes every natural number in plain decimal. JavaScript switches to exponent notation from 10^21 up, but no code or safe integer comes near that.
- `OtpStore.SendCodeStep` stores under every key, `"__proto__"` included. In JavaScript, assigning `codes["__proto__"]` replaces the object's prototype and creates no own record. That case and its effect on later lookups are not modelled. `PrototypeLookup` assumes the prototype is still Object.prototype.
- Strings are Dafny strings, that is, sequences of Unicode scalar values. JSON strings parse to UTF-16 and may hold lone surrogates (`"\ud800"`), which no `Field` can represent, so emails and codes containing them are outside the model. Key and code equality compare scalar sequences, which agrees with JavaScript's code-unit equality on every string the model can represent.
- Concurrency: in the source the mail send is the only suspension point, and the store is written before it. Interleaving requests during that await are modelled only as requests served one after another (`OtpProperties.Replay`).
