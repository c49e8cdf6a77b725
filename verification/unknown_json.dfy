/** `engine/internal/utils/unknown_json.go`: a named map type whose pointer
    form keeps nil apart from an empty map. A Go `*map[string]interface{}`
    is an `Option<JsonMap>` here. */
module UnknownJson {
  import opened Wrappers
  import opened Json

  datatype UnknownJson = UnknownJson(entries: JsonMap)

  /** `UnknownJsonFromMap`. */
  function FromMap(m: Option<JsonMap>): (r: Option<UnknownJson>)
    ensures r.None? <==> m.None?
    ensures r.Some? ==> r.value.entries == m.value
  {
    match m
    case None => None
    case Some(entries) => Some(UnknownJson(entries))
  }

  /** `(*UnknownJson).ToMap`. */
  function ToMap(a: Option<UnknownJson>): (r: Option<JsonMap>)
    ensures r.None? <==> a.None?
    ensures r.Some? ==> r.value == a.value.entries
  {
    match a
    case None => None
    case Some(u) => Some(u.entries)
  }

  /** Converting a map and back gives the same entries, nil staying nil. */
  lemma ToMapFromMap(m: Option<JsonMap>)
    ensures ToMap(FromMap(m)) == m
  {
  }

  lemma FromMapToMap(a: Option<UnknownJson>)
    ensures FromMap(ToMap(a)) == a
  {
  }
}
