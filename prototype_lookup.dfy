/**
 * `codes` is a plain object literal, so `codes[email]` also finds the
 * properties every object inherits from Object.prototype. This module gives
 * `/verify-code` with that lookup, as the handler is written. The rest of the
 * model uses only the store's own records (OtpStore.VerifyCodeStep).
 */
module PrototypeLookup {
  import opened JsValues
  import opened OtpStore

  /** The property names of Object.prototype, all bound to truthy values. */
  const InheritedNames: set<string> := {
    "constructor", "__proto__", "toString", "toLocaleString", "valueOf",
    "hasOwnProperty", "isPrototypeOf", "propertyIsEnumerable",
    "__defineGetter__", "__defineSetter__", "__lookupGetter__", "__lookupSetter__"
  }

  /**
   * `/verify-code` as written. For an inherited name with no own record the
   * found "entry" has no `expiresAt` and no `code`: `now > undefined` is
   * false, `String(undefined)` is "undefined", and deleting a property the
   * object does not own changes nothing.
   */
  function VerifyCodeAsWritten(codes: map<string, Entry>, email: Field, submitted: Field, now: int): (r: Step)
    ensures !(Truthy(email) && Truthy(submitted) && Key(email) !in codes && Key(email) in InheritedNames) ==>
      r == VerifyCodeStep(codes, email, submitted, now)
    ensures Truthy(email) && Truthy(submitted) && Key(email) !in codes && Key(email) in InheritedNames ==>
      r.codes == codes && (r.outcome == Ok <==> ToJsString(submitted) == "undefined")
      && (r.outcome == Mismatch <==> ToJsString(submitted) != "undefined")
  {
    if Truthy(email) && Truthy(submitted) && Key(email) !in codes && Key(email) in InheritedNames then
      Step(if ToJsString(submitted) == ToJsString(Undefined) then Ok else Mismatch, codes)
    else
      VerifyCodeStep(codes, email, submitted, now)
  }

  /** With nothing ever sent, address "constructor" and code "undefined" are reported verified. */
  lemma InheritedNameVerifiesWithoutIssue(now: int)
    ensures VerifyCodeAsWritten(map[], Text("constructor"), Text("undefined"), now).outcome == Ok
    ensures VerifyCodeStep(map[], Text("constructor"), Text("undefined"), now).outcome == NotFound
  {
  }

  /**
   * Every inherited name behaves so: with no own record under it, the
   * submitted value "undefined" is accepted, and the store is left as it was.
   */
  lemma EveryInheritedNameVerifiesWithoutIssue(codes: map<string, Entry>, name: string, now: int)
    requires name in InheritedNames && name !in codes
    ensures var r := VerifyCodeAsWritten(codes, Text(name), Text("undefined"), now);
      r.outcome == Ok && r.codes == codes
    ensures VerifyCodeStep(codes, Text(name), Text("undefined"), now).outcome == NotFound
  {
  }
}
