/** The JavaScript values the data-loading scripts read from `JSON.parse`,
    and the few object operations they use: property read, property write,
    `Object.entries` and object spread. An object is the list of its own
    properties in `Object.keys` order. */
module JsValue {
  import opened Seqs
  import opened Strings

  datatype Value =
    | Undefined
    | Null
    | Bool(b: bool)
    | Number(n: real)
    | Str(s: string)
    | Array(items: seq<Value>)
    | Object(fields: seq<Field>)

  datatype Field = Field(key: string, value: Value)

  function KeyOf(f: Field): string { f.key }

  function Keys(fs: seq<Field>): seq<string> { Map(fs, KeyOf) }

  /** A JavaScript object never holds the same key twice. */
  predicate DistinctKeys(fs: seq<Field>) { NoDups(Keys(fs)) }

  /** `typeof v === "object" && v !== null`: arrays count as objects. */
  predicate IsObject(v: Value) { v.Array? || v.Object? }

  /** `!!v` (NaN is not modelled). */
  predicate Truthy(v: Value) {
    match v
    case Undefined => false
    case Null => false
    case Bool(b) => b
    case Number(n) => n != 0.0
    case Str(s) => |s| > 0
    case _ => true
  }

  /** `o[k]` on an object's properties: `undefined` when absent. */
  function Get(fs: seq<Field>, k: string): (v: Value)
    ensures k !in Keys(fs) ==> v == Undefined
    decreases |fs|
  {
    if |fs| == 0 then Undefined
    else if fs[0].key == k then fs[0].value
    else Get(fs[1..], k)
  }

  /** `o[k] = v`: an existing property keeps its place, a new one goes last. */
  function Put(fs: seq<Field>, k: string, v: Value): (r: seq<Field>)
    ensures Get(r, k) == v
    ensures forall k' :: k' != k ==> Get(r, k') == Get(fs, k')
    decreases |fs|
  {
    if |fs| == 0 then [Field(k, v)]
    else if fs[0].key == k then [Field(k, v)] + fs[1..]
    else [fs[0]] + Put(fs[1..], k, v)
  }

  lemma {:induction false} KeysCons(f: Field, fs: seq<Field>)
    ensures Keys([f] + fs) == [f.key] + Keys(fs)
  {
    assert ([f] + fs)[1..] == fs;
  }

  /** Writing a property keeps the keys in place and appends a new one. */
  lemma {:induction false} PutKeys(fs: seq<Field>, k: string, v: Value)
    ensures k in Keys(fs) ==> Keys(Put(fs, k, v)) == Keys(fs)
    ensures k !in Keys(fs) ==> Keys(Put(fs, k, v)) == Keys(fs) + [k]
    decreases |fs|
  {
    if |fs| > 0 {
      KeysCons(fs[0], fs[1..]);
      assert fs == [fs[0]] + fs[1..];
      if fs[0].key == k {
        KeysCons(Field(k, v), fs[1..]);
      } else {
        PutKeys(fs[1..], k, v);
        KeysCons(fs[0], Put(fs[1..], k, v));
      }
    }
  }

  /** Writing a property of an object leaves it an object: keys stay distinct. */
  lemma PutDistinct(fs: seq<Field>, k: string, v: Value)
    ensures forall k' :: k' in Keys(Put(fs, k, v)) <==> k' in Keys(fs) || k' == k
    ensures DistinctKeys(fs) ==> DistinctKeys(Put(fs, k, v))
  {
    PutKeys(fs, k, v);
    var r := Keys(Put(fs, k, v));
    if DistinctKeys(fs) && k !in Keys(fs) {
      assert forall i :: 0 <= i < |Keys(fs)| ==> r[i] == Keys(fs)[i];
    }
  }

  /** `{...target, ...source}`: the properties of `source` written in order. */
  function Assign(target: seq<Field>, source: seq<Field>): (r: seq<Field>)
    ensures forall k :: k in Keys(r) <==> k in Keys(target) || k in Keys(source)
    ensures DistinctKeys(target) ==> DistinctKeys(r)
    decreases |source|
  {
    if |source| == 0 then target
    else
      PutDistinct(target, source[0].key, source[0].value);
      KeysCons(source[0], source[1..]);
      assert source == [source[0]] + source[1..];
      Assign(Put(target, source[0].key, source[0].value), source[1..])
  }

  /** A property of `source` wins over one of `target`; the others keep their value. */
  lemma {:induction false} AssignGet(target: seq<Field>, source: seq<Field>, k: string)
    requires DistinctKeys(source)
    ensures Get(Assign(target, source), k) == if k in Keys(source) then Get(source, k) else Get(target, k)
    decreases |source|
  {
    if |source| > 0 {
      KeysCons(source[0], source[1..]);
      assert source == [source[0]] + source[1..];
      AssignGet(Put(target, source[0].key, source[0].value), source[1..], k);
    }
  }

  /** `Object.entries(v)` as spread copies them: an object's properties, an
      array's or a string's indices, nothing for any other value. */
  function OwnEntries(v: Value): (r: seq<Field>)
    ensures v.Object? ==> r == v.fields
    ensures !IsObject(v) && !v.Str? ==> r == []
  {
    match v
    case Object(fs) => fs
    case Array(xs) => seq(|xs|, i requires 0 <= i < |xs| => Field(NatToString(i), xs[i]))
    case Str(s) => seq(|s|, i requires 0 <= i < |s| => Field(NatToString(i), Str([s[i]])))
    case _ => []
  }

  /** `row[col]` on an object or array row. */
  function Property(v: Value, k: string): Value {
    Get(OwnEntries(v), k)
  }
}
