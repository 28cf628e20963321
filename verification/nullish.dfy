/** The JavaScript truthiness conventions the forms and gates rely on, for
    strings that may be null: `""` and `null` are both falsy. */
module Nullish {
  import opened Wrappers

  /** `!!s` for a `string | null`. */
  predicate Truthy(s: Option<string>)
  {
    s.Some? && s.value != ""
  }

  /** `s || null`: the empty string becomes null. */
  function OrNull(s: string): (r: Option<string>)
    ensures r.None? <==> s == ""
    ensures Truthy(r) <==> s != ""
    ensures r.Some? ==> r.value == s
  {
    if s == "" then None else Some(s)
  }

  /** `s ?? ""`: null becomes the empty string. */
  function OrEmpty(s: Option<string>): (r: string)
    ensures r == "" <==> !Truthy(s)
    ensures Truthy(s) ==> r == s.value
  {
    match s
    case None => ""
    case Some(v) => v
  }

  /** A nullable string that never holds `""`: the only shape the `""`/null
      conversions below can carry through unchanged. */
  predicate Canonical(s: Option<string>)
  {
    s.None? || s.value != ""
  }

  /** `(s ?? "") || null` gives back `s` exactly when `s` is canonical; a stored
      `""` comes back as null. */
  lemma OrNullOrEmpty(s: Option<string>)
    ensures OrNull(OrEmpty(s)) == s <==> Canonical(s)
    ensures OrNull(OrEmpty(s)) == None <==> !Truthy(s)
  {
  }

  /** `(s || null) ?? ""` gives back every string. */
  lemma OrEmptyOrNull(s: string)
    ensures OrEmpty(OrNull(s)) == s
  {
  }
}
