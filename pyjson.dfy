/** Decoded JSON values as the Notion client hands them to the script, and the
    Python operations the script applies to them (`d[k]`, `d.get(k)`, `k in d`,
    `x[0]`, `len(x)`, truthiness), each with the exception Python raises when the
    value has the wrong shape. */
module PyJson {

  datatype Option<+T> = None | Some(value: T) {
    function GetOr(fallback: T): T {
      if Some? then value else fallback
    }
  }

  /** Python's None, bool, number, str, list and dict. A dict is the ordered list of
      its (key, value) pairs, because the script iterates over `properties.items()`
      in insertion order. Numbers only matter for their truthiness here. */
  datatype Json =
    | JNull
    | JBool(b: bool)
    | JNum(n: int)
    | JStr(s: string)
    | JArr(items: seq<Json>)
    | JObj(fields: seq<(string, Json)>)

  /** The exceptions the script's lookups can raise. */
  datatype Exc = KeyError | IndexError | TypeError | AttributeError

  /** The outcome of evaluating a Python expression: its value, or the exception it
      raised. Failure-compatible, so `var x :- e;` propagates the exception. */
  datatype Py<+T> = Ok(value: T) | Raise(exc: Exc) {
    predicate IsFailure() {
      Raise?
    }

    function PropagateFailure<U>(): Py<U>
      requires Raise?
    {
      Raise(exc)
    }

    function Extract(): T
      requires Ok?
    {
      value
    }
  }

  /** Python truthiness: None, False, 0, "", [] and {} are false. */
  predicate Truthy(j: Json) {
    match j
    case JNull => false
    case JBool(b) => b
    case JNum(n) => n != 0
    case JStr(s) => s != ""
    case JArr(items) => items != []
    case JObj(fields) => fields != []
  }

  /** The position of the first pair with key `key`, or |fields| when there is none. */
  function KeyIndex(fields: seq<(string, Json)>, key: string): (i: nat)
    ensures i <= |fields|
    ensures i < |fields| ==> fields[i].0 == key
    ensures forall j :: 0 <= j < i ==> fields[j].0 != key
  {
    if fields == [] then 0
    else if fields[0].0 == key then 0
    else 1 + KeyIndex(fields[1..], key)
  }

  /** `j[key]` with a string key: a missing key is a KeyError, and only a dict can be
      indexed by a string. */
  function Lookup(j: Json, key: string): Py<Json> {
    match j
    case JObj(fields) =>
      var i := KeyIndex(fields, key);
      if i < |fields| then Ok(fields[i].1) else Raise(KeyError)
    case _ => Raise(TypeError)
  }

  /** `j.get(key)`: None for a missing key; only a dict has the method. */
  function Get(j: Json, key: string): Py<Json> {
    match j
    case JObj(fields) =>
      var i := KeyIndex(fields, key);
      if i < |fields| then Ok(fields[i].1) else Ok(JNull)
    case _ => Raise(AttributeError)
  }

  /** `j.items()`: only a dict has the method. */
  function Items(j: Json): Py<seq<(string, Json)>> {
    match j
    case JObj(fields) => Ok(fields)
    case _ => Raise(AttributeError)
  }

  /** `s in t` for two strings: `s` occurs in `t` as a substring. */
  predicate IsInfix(s: string, t: string)
    decreases |t|
  {
    |s| <= |t| && (t[..|s|] == s || IsInfix(s, t[1..]))
  }

  /** `key in j`: the keys of a dict, the elements of a list, the substrings of a
      str; None, numbers and booleans are not containers. */
  function Contains(key: string, j: Json): Py<bool> {
    match j
    case JObj(fields) => Ok(KeyIndex(fields, key) < |fields|)
    case JArr(items) => Ok(JStr(key) in items)
    case JStr(s) => Ok(IsInfix(key, s))
    case _ => Raise(TypeError)
  }

  /** `j[0]`. A dict with string keys has no key 0. */
  function Index0(j: Json): Py<Json> {
    match j
    case JArr(items) => if items == [] then Raise(IndexError) else Ok(items[0])
    case JStr(s) => if s == "" then Raise(IndexError) else Ok(JStr([s[0]]))
    case JObj(_) => Raise(KeyError)
    case _ => Raise(TypeError)
  }

  /** `len(j)`. */
  function Len(j: Json): Py<nat> {
    match j
    case JArr(items) => Ok(|items|)
    case JStr(s) => Ok(|s|)
    case JObj(fields) => Ok(|fields|)
    case _ => Raise(TypeError)
  }

  /** `try: <r> except <caught>: <handler>` for an expression without side effects. */
  function Catch(r: Py<Json>, caught: set<Exc>, handler: Py<Json>): Py<Json> {
    if r.Raise? && r.exc in caught then handler else r
  }

  /** The value reached from `j` through nested dicts along `keys`, when every step
      is a dict holding that key; a reference notion of "the field at this path",
      used to state what the extractors return. */
  function Path(j: Json, keys: seq<string>): Option<Json>
    decreases |keys|
  {
    if keys == [] then Some(j)
    else
      match j
      case JObj(fields) =>
        var i := KeyIndex(fields, keys[0]);
        if i < |fields| then Path(fields[i].1, keys[1..]) else None
      case _ => None
  }

  /** The content of the first fragment of a Notion rich-text or title list,
      `list[0]['text']['content']`, when the list is a non-empty list and that
      fragment is well formed. */
  function FirstContent(list: Json): Option<Json> {
    match list
    case JArr(items) => if items == [] then None else Path(items[0], ["text", "content"])
    case _ => None
  }

  // Unfolding `Path` one key at a time.

  lemma OneStep(j: Json, key: string)
    ensures Path(j, [key]) == if Lookup(j, key).Ok? then Some(Lookup(j, key).value) else None
  {
    assert [key][1..] == [];
  }

  lemma TwoSteps(j: Json, k1: string, k2: string)
    ensures Path(j, [k1, k2]) == if Lookup(j, k1).Ok? then Path(Lookup(j, k1).value, [k2]) else None
  {
    assert [k1, k2][1..] == [k2];
  }

  lemma ThreeSteps(j: Json, k1: string, k2: string, k3: string)
    ensures Path(j, [k1, k2, k3]) == if Lookup(j, k1).Ok? then Path(Lookup(j, k1).value, [k2, k3]) else None
  {
    assert [k1, k2, k3][1..] == [k2, k3];
  }

  lemma FourSteps(j: Json, k1: string, k2: string, k3: string, k4: string)
    ensures Path(j, [k1, k2, k3, k4]) == if Lookup(j, k1).Ok? then Path(Lookup(j, k1).value, [k2, k3, k4]) else None
  {
    assert [k1, k2, k3, k4][1..] == [k2, k3, k4];
  }

  /** `Lookup` of a key fails with KeyError on a dict and TypeError elsewhere; it
      never raises IndexError or AttributeError. */
  lemma LookupRaises(j: Json, key: string)
    ensures Lookup(j, key).Raise? <==> Path(j, [key]).None?
    ensures Lookup(j, key).Raise? ==> Lookup(j, key).exc in {KeyError, TypeError}
  {
    OneStep(j, key);
  }
}
