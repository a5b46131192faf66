/**
 * JSON-like values as the Python code sees them after `json.loads`, and the
 * few Python operations the rule code applies to them: the `in` test, indexing
 * by a string key, iteration, and `isinstance(v, (int, float))`.
 */
module PyJson {
  import opened Wrappers

  /** The Python exceptions the modelled code can raise; each one aborts the handler. */
  datatype PyError =
    | KeyError
    | TypeError
    | ValueError
    | IndexError
    | ZeroDivisionError
    | AttributeError
    | QueryError   // the database rejects the generated SQL

  /** An object is an association list in insertion order; keys are assumed distinct. */
  datatype Json =
    | JNull
    | JBool(b: bool)
    | JNum(n: real)
    | JStr(s: string)
    | JArr(items: seq<Json>)
    | JObj(fields: seq<(string, Json)>)

  /** `pat in s` for two Python strings: `pat` occurs somewhere in `s`. */
  predicate ContainsText(s: string, pat: string)
    decreases |s|
  {
    if |s| < |pat| then false
    else s[..|pat|] == pat || (|s| > 0 && ContainsText(s[1..], pat))
  }

  /** `pat` occurs in `s` starting at index `i`. */
  ghost predicate OccursAt(s: string, pat: string, i: int) {
    0 <= i <= |s| - |pat| && forall j :: 0 <= j < |pat| ==> s[i + j] == pat[j]
  }

  lemma ShiftOccurs(s: string, pat: string, i: int)
    requires |s| > 0 && i > 0
    ensures OccursAt(s, pat, i) <==> OccursAt(s[1..], pat, i - 1)
  {
  }

  lemma OccursAtStart(s: string, pat: string)
    requires |pat| <= |s|
    ensures OccursAt(s, pat, 0) <==> s[..|pat|] == pat
  {
    if OccursAt(s, pat, 0) {
      assert forall j :: 0 <= j < |pat| ==> s[..|pat|][j] == pat[j];
    }
  }

  /** The recursive substring test agrees with "occurs at some index". */
  lemma {:induction false} ContainsTextIff(s: string, pat: string)
    ensures ContainsText(s, pat) <==> exists i :: OccursAt(s, pat, i)
    decreases |s|
  {
    if |s| < |pat| {
    } else if s[..|pat|] == pat {
      OccursAtStart(s, pat);
    } else {
      OccursAtStart(s, pat);
      assert pat != [] by { assert s[..0] == []; }
      ContainsTextIff(s[1..], pat);
      if ContainsText(s[1..], pat) {
        var i :| OccursAt(s[1..], pat, i);
        ShiftOccurs(s, pat, i + 1);
      } else {
        forall i
          ensures !OccursAt(s, pat, i)
        {
          if i > 0 {
            ShiftOccurs(s, pat, i);
          }
        }
      }
    }
  }

  function Keys(fields: seq<(string, Json)>): (ks: seq<string>)
    ensures |ks| == |fields|
    ensures forall i :: 0 <= i < |fields| ==> ks[i] == fields[i].0
  {
    if fields == [] then [] else [fields[0].0] + Keys(fields[1..])
  }

  predicate HasKey(fields: seq<(string, Json)>, k: string) {
    k in Keys(fields)
  }

  /** The value bound to `k`: the first binding in the association list. */
  function Lookup(fields: seq<(string, Json)>, k: string): (r: Option<Json>)
    ensures r.Some? <==> HasKey(fields, k)
    ensures r.Some? ==> (k, r.value) in fields
  {
    if fields == [] then None
    else if fields[0].0 == k then Some(fields[0].1)
    else Lookup(fields[1..], k)
  }

  /** `key in container`: dict key test, list element test, substring test, else TypeError. */
  function PyIn(key: string, container: Json): (r: Result<bool, PyError>)
    ensures r.Err? <==> !(container.JObj? || container.JArr? || container.JStr?)
    ensures container.JObj? ==> r == Ok(HasKey(container.fields, key))
    ensures container.JArr? ==> r == Ok(JStr(key) in container.items)
    ensures container.JStr? ==> r == Ok(ContainsText(container.s, key))
    ensures r.Err? ==> r.error == TypeError
  {
    match container
    case JObj(fields) => Ok(HasKey(fields, key))
    case JArr(items) => Ok(JStr(key) in items)
    case JStr(s) => Ok(ContainsText(s, key))
    case _ => Err(TypeError)
  }

  /** `container[key]` with a string key: only a dict can be indexed by a string. */
  function PyIndex(container: Json, key: string): (r: Result<Json, PyError>)
    ensures r.Ok? <==> container.JObj? && HasKey(container.fields, key)
    ensures r.Ok? ==> (key, r.value) in container.fields
    ensures container.JObj? && !HasKey(container.fields, key) ==> r == Err(KeyError)
    ensures !container.JObj? ==> r == Err(TypeError)
  {
    match container
    case JObj(fields) =>
      (match Lookup(fields, key)
       case Some(v) => Ok(v)
       case None => Err(KeyError))
    case _ => Err(TypeError)
  }

  /** `dict.get(key)`: missing keys read as `None`. */
  function PyGet(fields: seq<(string, Json)>, key: string): (r: Json)
    ensures !HasKey(fields, key) ==> r == JNull
    ensures HasKey(fields, key) ==> (key, r) in fields
  {
    Lookup(fields, key).GetOr(JNull)
  }

  function CharStrings(s: string): (r: seq<Json>)
    ensures |r| == |s|
    ensures forall i :: 0 <= i < |s| ==> r[i] == JStr([s[i]])
  {
    if s == [] then [] else [JStr([s[0]])] + CharStrings(s[1..])
  }

  function KeyStrings(fields: seq<(string, Json)>): (r: seq<Json>)
    ensures |r| == |fields|
    ensures forall i :: 0 <= i < |fields| ==> r[i] == JStr(fields[i].0)
  {
    if fields == [] then [] else [JStr(fields[0].0)] + KeyStrings(fields[1..])
  }

  /** What `for x in v` iterates over: list items, dict keys, or one-letter strings. */
  function PyIter(v: Json): (r: Result<seq<Json>, PyError>)
    ensures r.Err? <==> !(v.JObj? || v.JArr? || v.JStr?)
    ensures v.JArr? ==> r == Ok(v.items)
  {
    match v
    case JArr(items) => Ok(items)
    case JObj(fields) => Ok(KeyStrings(fields))
    case JStr(s) => Ok(CharStrings(s))
    case _ => Err(TypeError)
  }

  /** Python truthiness: `None`, `False`, zero and empty containers are falsy. */
  predicate Truthy(v: Json) {
    match v
    case JNull => false
    case JBool(b) => b
    case JNum(n) => n != 0.0
    case JStr(s) => s != []
    case JArr(items) => items != []
    case JObj(fields) => fields != []
  }

  /** `isinstance(v, (int, float))`; a Python bool is an int. */
  predicate IsNumber(v: Json) {
    v.JNum? || v.JBool?
  }
}
