/** Small shared datatypes. */
module Common {

  datatype Option<+T> = None | Some(value: T)

  datatype Result<+T> = Ok(value: T) | Err(reason: string)

  /** No element occurs twice. */
  ghost predicate Distinct<T>(s: seq<T>) {
    forall i, j :: 0 <= i < j < |s| ==> s[i] != s[j]
  }

  function Last<T>(s: seq<T>): T
    requires s != []
  {
    s[|s| - 1]
  }

  /** White space as Python sees it in a string: what `\s` matches and what `int()` strips. */
  predicate IsBlank(c: char) {
    || c == ' ' || '\t' <= c <= '\r' || '\U{1c}' <= c <= '\U{1f}' || c == '\U{85}' || c == '\U{a0}'
    || c == '\U{1680}' || '\U{2000}' <= c <= '\U{200a}' || c == '\U{2028}' || c == '\U{2029}' || c == '\U{202f}'
    || c == '\U{205f}' || c == '\U{3000}'
  }

  lemma EmptyOrSomeElement<T>(s: seq<T>)
    ensures s == [] || exists x :: x in s
  {
    if s != [] { assert s[0] in s; }
  }
}

/** JSON values as the decision payloads, step results and documents hold them. */
module JsonValue {

  datatype Json =
    | Null
    | Bool(flag: bool)
    | Number(number: real)
    | Text(text: string)
    | List(items: seq<Json>)
    | Object(fields: map<string, Json>)
}
