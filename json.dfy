/** Request bodies as the route handlers see them after `await request.json()`, and the
    few JavaScript operations the handlers apply to them: truthiness, property reads
    through destructuring, and object spread. */
module JsonValue {
  import opened Options
  import opened Decimal

  /** A parsed JSON value. JSON numbers are kept exactly, as reals. */
  datatype Json =
    | JNull
    | JBool(b: bool)
    | JNum(n: real)
    | JStr(s: string)
    | JArr(items: seq<Json>)
    | JObj(fields: map<string, Json>)

  /** What `await request.json()` yields: a value, or a thrown parse error. */
  datatype Body = Unparseable | Parsed(value: Json)

  /** JavaScript truthiness of a property value (what `!v` negates); `None` is
      `undefined`. */
  predicate Truthy(v: Option<Json>): (r: bool)
    // the falsy values are exactly undefined, null, false, 0 and the empty string
    ensures !r <==> v in {None, Some(JNull), Some(JBool(false)), Some(JNum(0.0)), Some(JStr(""))}
  {
    match v
    case None => false
    case Some(JNull) => false
    case Some(JBool(b)) => b
    case Some(JNum(n)) => n != 0.0
    case Some(JStr(s)) => s != ""
    case Some(JArr(_)) => true
    case Some(JObj(_)) => true
  }

  /** Object destructuring `const { ... } = v` throws only for `null` (and `undefined`,
      which JSON cannot produce). */
  predicate Destructurable(v: Json): (r: bool)
    ensures !r <==> v == JNull
    // every other non-object value destructures to `undefined` for every property
    ensures r && !v.JObj? ==> forall key :: Field(v, key) == None
  {
    !v.JNull?
  }

  /** The property `key` read from a JSON value: an own field of an object, and
      `undefined` for every other kind of value (none of the property names the routes
      read is inherited from a prototype). */
  function Field(v: Json, key: string): (r: Option<Json>)
    ensures r.Some? ==> v.JObj? && key in v.fields && r.value == v.fields[key]
    ensures v.JObj? && key in v.fields ==> r.Some?
  {
    if v.JObj? && key in v.fields then Some(v.fields[key]) else None
  }

  /** The indices below `n`, written in decimal. */
  function IndexKeys(n: nat): set<string> {
    set i | 0 <= i < n :: Dec(i)
  }

  /** One more index adds its own key. */
  lemma IndexKeysStep(n: nat)
    ensures IndexKeys(n + 1) == IndexKeys(n) + {Dec(n)}
  {
    forall k | k in IndexKeys(n + 1) ensures k in IndexKeys(n) + {Dec(n)} {
      var i :| 0 <= i < n + 1 && k == Dec(i);
      if i < n { assert k in IndexKeys(n); }
    }
  }

  /** Every index key reads back as a number. */
  lemma IndexKeysParse(n: nat)
    ensures forall k :: k in IndexKeys(n) ==> ParseDecimal(k).Some?
  {
    forall k | k in IndexKeys(n) ensures ParseDecimal(k).Some? {
      var i :| 0 <= i < n && k == Dec(i);
      DecRoundTrip(i);
    }
  }

  /** Adding the element at index `n` under its key to a map that holds the first `n`
      elements under theirs gives the map of the first `n + 1`. */
  lemma AddIndexed(m: map<string, Json>, items: seq<Json>, n: nat)
    requires n < |items|
    requires m.Keys == IndexKeys(n) && forall i :: 0 <= i < n ==> m[Dec(i)] == items[i]
    ensures m[Dec(n) := items[n]].Keys == IndexKeys(n + 1)
    ensures forall i :: 0 <= i < n + 1 ==> m[Dec(n) := items[n]][Dec(i)] == items[i]
  {
    IndexKeysStep(n);
    forall i | 0 <= i < n ensures m[Dec(n) := items[n]][Dec(i)] == items[i] {
      DecInjective(i, n);
    }
  }

  /** Elements keyed by their index written in decimal, as spread copies them. */
  function Indexed(items: seq<Json>): (m: map<string, Json>)
    ensures m.Keys == IndexKeys(|items|)
    ensures forall i :: 0 <= i < |items| ==> m[Dec(i)] == items[i]
    ensures forall k :: k in m ==> ParseDecimal(k).Some?
    decreases |items|
  {
    IndexKeysParse(|items|);
    if items == [] then map[]
    else
      var last := |items| - 1;
      var init := items[..last];
      var m := Indexed(init);
      assert forall i :: 0 <= i < last ==> m[Dec(i)] == items[i];
      AddIndexed(m, items, last);
      m[Dec(last) := items[last]]
  }

  /** A string's characters as one-character strings. */
  function Chars(s: string): (cs: seq<Json>)
    ensures |cs| == |s| && forall i :: 0 <= i < |s| ==> cs[i] == JStr([s[i]])
  {
    seq(|s|, i requires 0 <= i < |s| => JStr([s[i]]))
  }

  /** The own enumerable properties `{ ...v }` copies: an object's fields, an array's
      elements or a string's characters under their indices, and nothing for `null`,
      booleans and numbers. */
  function Spread(v: Json): (m: map<string, Json>)
    ensures v.JObj? ==> m == v.fields
    // an array's elements under "0", "1", ...
    ensures v.JArr? ==> m.Keys == IndexKeys(|v.items|)
                        && forall i :: 0 <= i < |v.items| ==> m[Dec(i)] == v.items[i]
    // a string's characters, one-character strings under "0", "1", ...
    ensures v.JStr? ==> m.Keys == IndexKeys(|v.s|)
                        && forall i :: 0 <= i < |v.s| ==> m[Dec(i)] == JStr([v.s[i]])
    // nothing from null, booleans and numbers
    ensures v.JNull? || v.JBool? || v.JNum? ==> m == map[]
    ensures !v.JObj? ==> forall k :: k in m ==> ParseDecimal(k).Some?
  {
    match v
    case JObj(fields) => fields
    case JArr(items) => Indexed(items)
    case JStr(s) => Indexed(Chars(s))
    case _ => map[]
  }
}
