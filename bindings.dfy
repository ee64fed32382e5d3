/** How a request's query parameters become a search predicate under a
    `QuerydslBinderCustomizer` that calls `excludeUnlistedProperties(true)`,
    `including(...)` and `bind(path).first(operator)`: every listed property
    with a non-empty parameter contributes `operator(property, firstValue)`,
    and the contributions are combined with `and`. */
module Bindings {
  import opened Domain
  import Text

  /** The two operators the board's binding tables use. */
  datatype Operator =
    | ContainsIgnoreCase  // `StringExpression::containsIgnoreCase`: `lower(p) like lower('%v%')`
    | Eq                  // `DateTimeExpression::eq`: `p = v`

  /** A parameter value after conversion to the property's type, or a column value. */
  datatype Value = Str(s: string) | Instant(t: Timestamp)

  /** The conversion a property's operator needs its parameter to succeed in. */
  predicate Fits(op: Operator, v: Value)
  {
    match op
    case ContainsIgnoreCase => v.Str?
    case Eq => v.Instant?
  }

  /** `op(column, v)` on one row. A SQL `null` column satisfies neither operator. */
  predicate Apply(op: Operator, column: Option<Value>, v: Value)
  {
    match op
    case ContainsIgnoreCase =>
      column.Some? && column.value.Str? && v.Str? && Text.ContainsIgnoreCase(column.value.s, v.s)
    case Eq => column == Some(v)
  }

  /** A parameter is skipped when it carries no value or the single value is empty
      (Spring's predicate builder skips such parameters). */
  predicate Empty(vs: seq<Value>)
  {
    vs == [] || vs == [Str([])]
  }

  /** Parameter `p` takes part in the predicate: its property is listed in the
      binding table and its value is not empty. */
  predicate Active<P>(binding: P -> Option<Operator>, p: P, vs: seq<Value>)
  {
    binding(p).Some? && !Empty(vs)
  }

  /** Every value of every active parameter converts to its property's type (the
      predicate builder converts them all before `first` picks one); otherwise the
      request is refused before any query runs. */
  predicate WellTyped<P>(binding: P -> Option<Operator>, params: map<P, seq<Value>>)
  {
    forall p :: p in params && Active(binding, p, params[p]) ==> AllFit(binding(p).value, params[p])
  }

  predicate AllFit(op: Operator, vs: seq<Value>)
  {
    forall i :: 0 <= i < |vs| ==> Fits(op, vs[i])
  }

  /** The combined predicate on one row, whose value under property `p` is
      `column(row, p)`: every active parameter's operator holds on its first value. */
  predicate Matches<P, R>(binding: P -> Option<Operator>, column: (R, P) -> Option<Value>, row: R,
                          params: map<P, seq<Value>>)
  {
    forall p :: p in params && Active(binding, p, params[p]) ==>
      Apply(binding(p).value, column(row, p), params[p][0])
  }

  /** A parameter outside the binding table never changes whether a row matches. */
  lemma UnlistedIgnored<P, R>(binding: P -> Option<Operator>, column: (R, P) -> Option<Value>, row: R,
                              params: map<P, seq<Value>>, p: P, vs: seq<Value>)
    requires binding(p).None?
    ensures Matches(binding, column, row, params[p := vs]) <==> Matches(binding, column, row, params)
  {
  }

  /** A parameter outside the binding table never makes a request ill-typed. */
  lemma UnlistedWellTyped<P>(binding: P -> Option<Operator>, params: map<P, seq<Value>>, p: P, vs: seq<Value>)
    requires binding(p).None?
    ensures WellTyped(binding, params[p := vs]) <==> WellTyped(binding, params)
  {
  }

  /** With a single parameter, a row matches exactly when the parameter is
      skipped or its operator holds on the first value. */
  lemma SingleParameter<P, R>(binding: P -> Option<Operator>, column: (R, P) -> Option<Value>, row: R,
                              p: P, vs: seq<Value>)
    ensures Matches(binding, column, row, map[p := vs]) <==>
              (Active(binding, p, vs) ==> Apply(binding(p).value, column(row, p), vs[0]))
  {
  }

  /** Requests on different properties that each convert also convert together. */
  lemma WellTypedUnion<P>(binding: P -> Option<Operator>, params: map<P, seq<Value>>, others: map<P, seq<Value>>)
    requires WellTyped(binding, params) && WellTyped(binding, others)
    ensures WellTyped(binding, params + others)
  {
  }

  /** Parameters on different properties combine by conjunction. */
  lemma Conjunction<P, R>(binding: P -> Option<Operator>, column: (R, P) -> Option<Value>, row: R,
                          params: map<P, seq<Value>>, others: map<P, seq<Value>>)
    requires params.Keys !! others.Keys
    ensures Matches(binding, column, row, params + others) <==>
              Matches(binding, column, row, params) && Matches(binding, column, row, others)
  {
  }
}
