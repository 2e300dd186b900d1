/**
 * JSON values in the sense of RFC 8259, and the accessors of Android's
 * org.json `JSONObject`/`JSONArray` that the two wire codecs use, at the
 * level of values (the text form and its UTF-8 bytes are not modelled).
 *
 * Numbers are integers; an object maps each member name to one value.
 */
module Json {
  import opened Wrappers
  import JavaInt

  datatype Json =
    | JNull
    | JBool(b: bool)
    | JNum(n: int)
    | JStr(s: string)
    | JArr(items: seq<Json>)
    | JObj(members: map<string, Json>)

  /** The member `key` of an object, if the value is an object that has one. */
  function Member(o: Json, key: string): (r: Option<Json>)
    ensures r.Some? <==> o.JObj? && key in o.members
    ensures r.Some? ==> r.value == o.members[key]
  {
    if o.JObj? && key in o.members then Some(o.members[key]) else None
  }

  /** Decimal text of an integer, as `Integer.toString`/`Long.toString` print it. */
  function DecimalText(n: int): (r: string)
    ensures |r| > 0
    decreases if n < 0 then -n + 1 else n
  {
    if n < 0 then "-" + DecimalText(-n)
    else if n < 10 then [('0' as int + n) as char]
    else DecimalText(n / 10) + [('0' as int + n % 10) as char]
  }

  /**
   * The text org.json gives for a value read as a string: a string is
   * itself, `null`, booleans and numbers are printed; arrays and objects
   * (printed as JSON text there) are not modelled and yield None.
   */
  function AsText(v: Json): (r: Option<string>)
    ensures v.JStr? ==> r == Some(v.s)
    ensures v.JArr? || v.JObj? ==> r.None?
  {
    match v
    case JStr(s) => Some(s)
    case JNull => Some("null")
    case JBool(b) => Some(if b then "true" else "false")
    case JNum(n) => Some(DecimalText(n))
    case _ => None
  }

  /** `getString(key)`: fails (None) when the member is missing. */
  function GetString(o: Json, key: string): (r: Option<string>)
    ensures Member(o, key).None? ==> r.None?
    ensures Member(o, key).Some? ==> r == AsText(Member(o, key).value)
  {
    match Member(o, key)
    case None => None
    case Some(v) => AsText(v)
  }

  /** `optString(key, fallback)`: the fallback when the member is missing. */
  function OptString(o: Json, key: string, fallback: Option<string>): (r: Option<string>)
    ensures Member(o, key).None? ==> r == fallback
    ensures forall s :: Member(o, key) == Some(JStr(s)) ==> r == Some(s)
  {
    match Member(o, key)
    case None => fallback
    case Some(v) => if AsText(v).Some? then AsText(v) else fallback
  }

  /** `getInt(key)`: a number, narrowed to a 32-bit `Int` as `intValue()` does. */
  function GetInt(o: Json, key: string): (r: Option<int>)
    ensures r.Some? <==> Member(o, key).Some? && Member(o, key).value.JNum?
    ensures r.Some? ==> JavaInt.IsInt32(r.value)
    ensures r.Some? ==> r.value == JavaInt.Wrap32(Member(o, key).value.n)
  {
    match Member(o, key)
    case Some(JNum(n)) => Some(JavaInt.Wrap32(n))
    case _ => None
  }

  /** `optInt(key, fallback)`. */
  function OptInt(o: Json, key: string, fallback: int): (r: int)
    ensures GetInt(o, key).None? ==> r == fallback
    ensures GetInt(o, key).Some? ==> r == GetInt(o, key).value
  {
    GetInt(o, key).GetOr(fallback)
  }

  /** `getLong(key)`: a number, narrowed to a 64-bit `Long`. */
  function GetLong(o: Json, key: string): (r: Option<int>)
    ensures r.Some? <==> Member(o, key).Some? && Member(o, key).value.JNum?
    ensures r.Some? ==> JavaInt.IsInt64(r.value)
    ensures r.Some? ==> r.value == JavaInt.Wrap64(Member(o, key).value.n)
  {
    match Member(o, key)
    case Some(JNum(n)) => Some(JavaInt.Wrap64(n))
    case _ => None
  }

  /** `getBoolean(key)`. */
  function GetBoolean(o: Json, key: string): (r: Option<bool>)
    ensures r.Some? <==> Member(o, key).Some? && Member(o, key).value.JBool?
    ensures r.Some? ==> r.value == Member(o, key).value.b
  {
    match Member(o, key)
    case Some(JBool(b)) => Some(b)
    case _ => None
  }

  /** `optBoolean(key, fallback)`. */
  function OptBoolean(o: Json, key: string, fallback: bool): (r: bool)
    ensures GetBoolean(o, key).None? ==> r == fallback
    ensures GetBoolean(o, key).Some? ==> r == GetBoolean(o, key).value
  {
    GetBoolean(o, key).GetOr(fallback)
  }

  /** `getJSONArray(key)`. */
  function GetArray(o: Json, key: string): (r: Option<seq<Json>>)
    ensures r.Some? <==> Member(o, key).Some? && Member(o, key).value.JArr?
    ensures r.Some? ==> r.value == Member(o, key).value.items
  {
    match Member(o, key)
    case Some(JArr(items)) => Some(items)
    case _ => None
  }

  /** `getJSONObject(key)`: the member when it is itself an object. */
  function GetObject(o: Json, key: string): (r: Option<Json>)
    ensures r.Some? <==> Member(o, key).Some? && Member(o, key).value.JObj?
    ensures r.Some? ==> r.value.JObj? && r == Member(o, key)
  {
    match Member(o, key)
    case Some(JObj(m)) => Some(JObj(m))
    case _ => None
  }

  /** A JSON array of strings, as `JSONArray(list)` builds it from a `List<String>`. */
  function StringArray(ss: seq<string>): (r: Json)
    ensures r.JArr? && |r.items| == |ss|
    ensures forall i :: 0 <= i < |ss| ==> r.items[i] == JStr(ss[i])
  {
    JArr(seq(|ss|, i requires 0 <= i < |ss| => JStr(ss[i])))
  }

  /**
   * The strings of an array, read element by element with `getString(i)`;
   * None when some element has no text.
   */
  function ArrayStrings(items: seq<Json>): (r: Option<seq<string>>)
    ensures r.Some? ==> |r.value| == |items|
    ensures r.Some? <==> forall i :: 0 <= i < |items| ==> AsText(items[i]).Some?
    ensures r.Some? ==> forall i :: 0 <= i < |items| ==> AsText(items[i]) == Some(r.value[i])
  {
    if items == [] then Some([])
    else
      match (AsText(items[0]), ArrayStrings(items[1..]))
      case (Some(s), Some(rest)) => Some([s] + rest)
      case _ =>
        assert forall i :: 1 <= i < |items| ==> items[i] == items[1..][i - 1];
        None
  }

  /**
   * The copy loop of the parsers (`for (i in 0 until a.length()) list.add(a.getString(i))`),
   * which stops at the first element that has no text.
   */
  method ReadStringArray(items: seq<Json>) returns (r: Option<seq<string>>)
    ensures r == ArrayStrings(items)
  {
    var acc: seq<string> := [];
    var i := 0;
    assert items[i..] == items;
    assert ArrayStrings(items) == Concat(acc, ArrayStrings(items[i..])) by {
      assert ArrayStrings(items).Some? ==> acc + ArrayStrings(items).value == ArrayStrings(items).value;
    }
    while i < |items|
      invariant 0 <= i <= |items|
      invariant ArrayStrings(items) == Concat(acc, ArrayStrings(items[i..]))
    {
      var t := AsText(items[i]);
      ArrayStringsStep(items, i);
      if t.None? {
        return None;
      }
      ConcatStep(acc, t.value, ArrayStrings(items[i + 1..]));
      acc := acc + [t.value];
      i := i + 1;
    }
    assert items[i..] == [] && acc + [] == acc;
    r := Some(acc);
  }

  function Concat(prefix: seq<string>, rest: Option<seq<string>>): Option<seq<string>>
  {
    if rest.Some? then Some(prefix + rest.value) else None
  }

  lemma ArrayStringsStep(items: seq<Json>, i: nat)
    requires i < |items|
    ensures AsText(items[i]).None? ==> ArrayStrings(items[i..]).None?
    ensures AsText(items[i]).Some? ==>
              ArrayStrings(items[i..]) == Concat([AsText(items[i]).value], ArrayStrings(items[i + 1..]))
  {
    assert items[i..][0] == items[i] && items[i..][1..] == items[i + 1..];
  }

  lemma ConcatStep(acc: seq<string>, x: string, rest: Option<seq<string>>)
    ensures Concat(acc, Concat([x], rest)) == Concat(acc + [x], rest)
  {
    if rest.Some? {
      assert acc + ([x] + rest.value) == (acc + [x]) + rest.value;
    }
  }

  /** Reading back an array built from strings gives the same strings, in order. */
  lemma {:induction false} ArrayStringsRoundTrip(ss: seq<string>)
    ensures ArrayStrings(StringArray(ss).items) == Some(ss)
  {
    if ss != [] {
      var items := StringArray(ss).items;
      ArrayStringsRoundTrip(ss[1..]);
      assert items[1..] == StringArray(ss[1..]).items;
      assert AsText(items[0]) == Some(ss[0]);
      assert [ss[0]] + ss[1..] == ss;
    }
  }
}
