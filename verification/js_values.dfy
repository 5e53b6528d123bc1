/**
 * The JavaScript semantics the handlers rely on, applied to values that come
 * out of `JSON.parse`: truthiness, `typeof`, property reads, `String.includes`
 * and `Object.entries`.
 */
module JsValues {
  import opened Wrappers

  /** A value produced by `JSON.parse`. Numbers are kept as reals; an object's own properties form a map. */
  datatype JsonValue =
    | JNull
    | JBool(b: bool)
    | JNum(n: real)
    | JStr(s: string)
    | JArr(elems: seq<JsonValue>)
    | JObj(fields: map<string, JsonValue>)

  /**
   * `v.key` for a `v` that is not null: an object's own property, and
   * `undefined` (None) for everything else. The model reads only the names
   * firstName, lastName, phoneNumber, address, street, city, province,
   * zipCode and country, which no string, number, boolean or array carries.
   */
  function Member(v: JsonValue, key: string): Option<JsonValue>
  {
    match v
    case JObj(fields) => if key in fields then Some(fields[key]) else None
    case _ => None
  }

  /** JavaScript truthiness of a property read; `undefined` (None) is falsy. */
  predicate Truthy(p: Option<JsonValue>)
  {
    match p
    case None => false
    case Some(JNull) => false
    case Some(JBool(b)) => b
    case Some(JNum(n)) => n != 0.0
    case Some(JStr(s)) => s != ""
    case Some(JArr(_)) => true
    case Some(JObj(_)) => true
  }

  /** The `typeof` operator; note that `typeof null` is "object". */
  function TypeOf(p: Option<JsonValue>): string
  {
    match p
    case None => "undefined"
    case Some(JNull) => "object"
    case Some(JBool(_)) => "boolean"
    case Some(JNum(_)) => "number"
    case Some(JStr(_)) => "string"
    case Some(JArr(_)) => "object"
    case Some(JObj(_)) => "object"
  }

  /** `s.includes(part)`: `part` occurs in `s` as a contiguous piece. */
  predicate Includes(s: string, part: string)
    decreases |s|
  {
    |part| <= |s| && (s[..|part|] == part || Includes(s[1..], part))
  }

  /** An occurrence at any offset is found. */
  lemma {:induction false} IncludesAt(s: string, part: string, i: nat)
    requires i + |part| <= |s| && s[i..i + |part|] == part
    ensures Includes(s, part)
    decreases i
  {
    if i > 0 {
      assert s[1..][i - 1..i - 1 + |part|] == s[i..i + |part|];
      IncludesAt(s[1..], part, i - 1);
    }
  }

  /** `part` is found between any prefix and suffix. */
  lemma IncludesBetween(prefix: string, part: string, suffix: string)
    ensures Includes(prefix + part + suffix, part)
  {
    var s := prefix + part + suffix;
    assert s[|prefix|..|prefix| + |part|] == part;
    IncludesAt(s, part, |prefix|);
  }

  /** A string that lacks one of the characters of `part` does not include it. */
  lemma {:induction false} MissingCharExcludes(s: string, part: string, k: nat)
    requires k < |part| && part[k] !in s
    ensures !Includes(s, part)
    decreases |s|
  {
    if |part| <= |s| {
      assert s[..|part|] != part by {
        assert s[..|part|][k] == s[k];
      }
      MissingCharExcludes(s[1..], part, k);
    }
  }

  /** The decimal digit for `d`. */
  function Digit(d: nat): char
    requires d < 10
  {
    (48 + d) as char
  }

  /** The property name of array index `i` ("0", "1", ..., "10", ...). */
  function IndexKey(i: nat): (key: string)
    ensures |key| >= 1
    ensures i >= 10 ==> |key| >= 2
  {
    if i < 10 then [Digit(i)] else IndexKey(i / 10) + [Digit(i % 10)]
  }

  /** Different indices have different property names. */
  lemma {:induction false} IndexKeyInjective(i: nat, j: nat)
    requires IndexKey(i) == IndexKey(j)
    ensures i == j
    decreases i
  {
    if i >= 10 && j >= 10 {
      var ki, kj := IndexKey(i), IndexKey(j);
      assert ki[|ki| - 1] == Digit(i % 10) && kj[|kj| - 1] == Digit(j % 10);
      assert ki[..|ki| - 1] == IndexKey(i / 10);
      assert kj[..|kj| - 1] == IndexKey(j / 10);
      IndexKeyInjective(i / 10, j / 10);
    } else if i < 10 && j < 10 {
      assert IndexKey(i)[0] == Digit(i);
    }
  }

  /** The property names of an array of length `n`: the names of indices 0 to n - 1. */
  ghost function IndexKeys(n: nat): set<string>
  {
    if n == 0 then {} else IndexKeys(n - 1) + {IndexKey(n - 1)}
  }

  /** The name of index `n` is not the name of any smaller index. */
  lemma IndexKeyFresh(n: nat)
    ensures forall i :: 0 <= i < n ==> IndexKey(i) != IndexKey(n)
  {
    forall i | 0 <= i < n
      ensures IndexKey(i) != IndexKey(n)
    {
      if IndexKey(i) == IndexKey(n) {
        IndexKeyInjective(i, n);
      }
    }
  }

  /** An array's elements keyed by their index names. */
  function ArrayEntries(elems: seq<JsonValue>): map<string, JsonValue>
    decreases |elems|
  {
    if elems == [] then map[]
    else ArrayEntries(elems[..|elems| - 1])[IndexKey(|elems| - 1) := elems[|elems| - 1]]
  }

  /** Every index name is a key, no other key is, and each holds its element. */
  lemma {:induction false} ArrayEntriesCorrect(elems: seq<JsonValue>)
    ensures ArrayEntries(elems).Keys == IndexKeys(|elems|)
    ensures forall i :: 0 <= i < |elems| ==> IndexKey(i) in ArrayEntries(elems) && ArrayEntries(elems)[IndexKey(i)] == elems[i]
    decreases |elems|
  {
    if elems != [] {
      var n := |elems| - 1;
      var prior := elems[..n];
      ArrayEntriesCorrect(prior);
      IndexKeyFresh(n);
      forall i | 0 <= i < n
        ensures IndexKey(i) in ArrayEntries(elems) && ArrayEntries(elems)[IndexKey(i)] == elems[i]
      {
        assert prior[i] == elems[i];
      }
    }
  }

  /**
   * `Object.fromEntries(Object.entries(v))` for an object or an array: an
   * object's own properties, or an array's elements under their index names.
   */
  function Entries(v: JsonValue): (m: map<string, JsonValue>)
    requires v.JObj? || v.JArr?
    ensures v.JObj? ==> m == v.fields
    ensures v.JArr? ==> m.Keys == IndexKeys(|v.elems|)
    ensures v.JArr? ==> forall i :: 0 <= i < |v.elems| ==> IndexKey(i) in m && m[IndexKey(i)] == v.elems[i]
  {
    match v
    case JObj(fields) => fields
    case JArr(elems) => ArrayEntriesCorrect(elems); ArrayEntries(elems)
  }
}
