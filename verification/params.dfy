/** Query-parameter defaulting at the start of `_request`
    (sellsyapi/client.py:89-90). */
module QueryParams {
  import opened Wrappers
  import opened JsonValues

  const LimitKey: string := "limit"
  const DefaultLimit: int := 100

  /** The parameters actually sent: a missing dict becomes empty, and
      `limit = 100` is added only when the caller gave no `limit`. */
  function WithDefaults(params: Option<Object>): (r: Object)
    ensures var given := params.GetOr(map[]);
      && r.Keys == given.Keys + {LimitKey}
      && (LimitKey in given ==> r[LimitKey] == given[LimitKey])
      && (LimitKey !in given ==> r[LimitKey] == JInt(DefaultLimit))
      && forall k :: k in given && k != LimitKey ==> r[k] == given[k]
  {
    var given := params.GetOr(map[]);
    if LimitKey in given then given else given[LimitKey := JInt(DefaultLimit)]
  }

  /** Absent and empty parameters both become exactly `{limit: 100}`. */
  lemma EmptyParamsGetDefaultLimit(params: Option<Object>)
    requires params == None || params == Some(map[])
    ensures WithDefaults(params) == map[LimitKey := JInt(DefaultLimit)]
  {
  }

  /** Defaulting twice is defaulting once: the output already has a limit. */
  lemma WithDefaultsIdempotent(params: Option<Object>)
    ensures WithDefaults(Some(WithDefaults(params))) == WithDefaults(params)
  {
  }

  /** The defaulted dict differs from the caller's only by an added limit. */
  lemma WithDefaultsExtendsCallerParams(params: Option<Object>)
    ensures var given := params.GetOr(map[]);
      WithDefaults(params) == given || WithDefaults(params) == given[LimitKey := JInt(DefaultLimit)]
  {
  }
}
