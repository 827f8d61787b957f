/** What the express-validator chains share: a chain is a list of rules, each
    with its `withMessage` text; every rule runs (none of the chains uses
    `.bail()`), and `validationResult(req).array()` reports the messages of
    the failing ones in chain order. */
module ValidationChain {
  import opened Wrappers

  /** What a chain of validators decides about a body: the (sanitized) body,
      or the messages of the rules that failed. */
  datatype Validation<T, M> = Accepted(body: T) | Rejected(errors: seq<M>)

  /** The messages, among the rules of a chain listed in `rules` order, whose
      rule fails. */
  function Failing<M(==, !new)>(rules: seq<M>, fails: M -> bool): (errs: seq<M>)
    ensures forall m :: m in errs <==> m in rules && fails(m)
    ensures errs == [] <==> forall i :: 0 <= i < |rules| ==> !fails(rules[i])
  {
    if rules == [] then []
    else (if fails(rules[0]) then [rules[0]] else []) + Failing(rules[1..], fails)
  }

  /** The string a standard validator sees: `undefined` and `null` become "". */
  function AsString(f: Field<string>): string {
    if f.Given? then f.value else ""
  }

  /** `.notEmpty()`. */
  predicate NotEmpty(f: Field<string>) {
    AsString(f) != ""
  }
}
