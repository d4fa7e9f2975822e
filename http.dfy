/** Request bodies and status codes, with the HTTP framework abstracted away. */
module Http {

  /** A member of a parsed JSON request body, as `typeof` and truthiness see it. */
  datatype Field = Missing | Str(s: string) | NonString

  /** A parsed JSON body: `null`, or any other JSON value together with the
      members it carries (a value that is not an object carries none). */
  datatype Json = NullBody | Value(members: map<string, Field>)

  /** `body?.key`: missing for `null`, and for a value without that member. */
  function Member(body: Json, key: string): (f: Field)
    ensures body.NullBody? ==> f == Missing
  {
    match body
    case NullBody => Missing
    case Value(members) => if key in members then members[key] else Missing
  }

  /** A field that passes the guard `!x || typeof x !== 'string'`: a non-empty string. */
  predicate IsNonEmptyString(f: Field) {
    f.Str? && f.s != ""
  }

  /** `response.ok`. */
  predicate IsOk(status: int) {
    200 <= status <= 299
  }
}
