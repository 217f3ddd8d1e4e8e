/** Column handling of scripts/data-loading/load-all-data.ts: `filterRowColumns`
    moves the properties naming columns the table lacks out of a row (into its
    `data` JSONB column when it has one), and `extractInvalidColumn` reads such
    a column's name out of the database's error message. */
module ColumnFilter {
  import opened Wrappers
  import opened Seqs
  import opened JsValue

  /** The property is not one of the invalid columns. */
  function IsValidField(invalid: set<string>): Field -> bool {
    (f: Field) => f.key !in invalid
  }

  function IsInvalidField(invalid: set<string>): Field -> bool {
    (f: Field) => f.key in invalid
  }

  /** The `for (const [key, value] of Object.entries(row))` loop writes each
      property into exactly one of two objects; this is `filtered`, which
      receives the valid ones. */
  function Filtered(row: seq<Field>, invalid: set<string>): (r: seq<Field>)
    ensures forall k :: k in Keys(r) ==> k !in invalid
    decreases |row|
  {
    if |row| == 0 then []
    else
      var p := Filtered(row[..|row| - 1], invalid);
      var f := row[|row| - 1];
      if f.key !in invalid then
        PutDistinct(p, f.key, f.value);
        Put(p, f.key, f.value)
      else p
  }

  /** The loop's `extra`, which receives the invalid properties. */
  function Extra(row: seq<Field>, invalid: set<string>): seq<Field>
    decreases |row|
  {
    if |row| == 0 then []
    else
      var p := Extra(row[..|row| - 1], invalid);
      var f := row[|row| - 1];
      if f.key in invalid then Put(p, f.key, f.value) else p
  }

  /** Writing a new key appends it. */
  lemma {:induction false} PutNew(fs: seq<Field>, k: string, v: Value)
    requires k !in Keys(fs)
    ensures Put(fs, k, v) == fs + [Field(k, v)]
    decreases |fs|
  {
    if |fs| > 0 {
      KeysCons(fs[0], fs[1..]);
      assert fs == [fs[0]] + fs[1..];
      PutNew(fs[1..], k, v);
    }
  }

  lemma FilterKeys(fs: seq<Field>, p: Field -> bool, k: string)
    ensures k in Keys(Filter(fs, p)) ==> k in Keys(fs)
  {
    if k in Keys(Filter(fs, p)) {
      var i :| 0 <= i < |Filter(fs, p)| && Keys(Filter(fs, p))[i] == k;
      var f := Filter(fs, p)[i];
      assert f in fs;
      var j :| 0 <= j < |fs| && fs[j] == f;
      assert Keys(fs)[j] == k;
    }
  }

  lemma {:induction false} DistinctPrefix(fs: seq<Field>, n: nat)
    requires n <= |fs| && DistinctKeys(fs)
    ensures DistinctKeys(fs[..n])
    ensures n < |fs| ==> fs[n].key !in Keys(fs[..n])
  {
    assert forall i :: 0 <= i < n ==> Keys(fs[..n])[i] == Keys(fs)[i];
  }

  /** For an object (distinct keys) the loop is two filters: the valid
      properties and the invalid ones, each in the row's order. */
  lemma SplitEntriesIsFilter(row: seq<Field>, invalid: set<string>)
    requires DistinctKeys(row)
    ensures Filtered(row, invalid) == Filter(row, IsValidField(invalid))
    ensures Extra(row, invalid) == Filter(row, IsInvalidField(invalid))
  {
    SplitFirst(row, invalid);
    SplitSecond(row, invalid);
  }

  lemma {:induction false} SplitFirst(row: seq<Field>, invalid: set<string>)
    requires DistinctKeys(row)
    ensures Filtered(row, invalid) == Filter(row, IsValidField(invalid))
    decreases |row|
  {
    if |row| > 0 {
      var init := row[..|row| - 1];
      var f := row[|row| - 1];
      var p := IsValidField(invalid);
      DistinctPrefix(row, |row| - 1);
      SplitFirst(init, invalid);
      FilterLast(row, p);
      if f.key !in invalid {
        FilterKeys(init, p, f.key);
        PutNew(Filter(init, p), f.key, f.value);
      }
    }
  }

  lemma {:induction false} SplitSecond(row: seq<Field>, invalid: set<string>)
    requires DistinctKeys(row)
    ensures Extra(row, invalid) == Filter(row, IsInvalidField(invalid))
    decreases |row|
  {
    if |row| > 0 {
      var init := row[..|row| - 1];
      var f := row[|row| - 1];
      var p := IsInvalidField(invalid);
      DistinctPrefix(row, |row| - 1);
      SplitSecond(init, invalid);
      FilterLast(row, p);
      if f.key in invalid {
        FilterKeys(init, p, f.key);
        PutNew(Filter(init, p), f.key, f.value);
      }
    }
  }

  /** The `data` object: `{...(filtered.data || {}), ...extra}`. */
  function MergedData(filtered: seq<Field>, extra: seq<Field>): Value {
    var base := Get(filtered, "data");
    var spread := if Truthy(base) then base else Object([]);
    Object(Assign(Assign([], OwnEntries(spread)), extra))
  }

  /** `filterRowColumns(row, invalidColumns)`. */
  function FilterRowColumns(row: seq<Field>, invalid: set<string>): (r: seq<Field>)
    ensures forall k :: k in Keys(r) ==> k !in invalid
  {
    var filtered := Filtered(row, invalid);
    var extra := Extra(row, invalid);
    if |extra| > 0 && "data" !in invalid then
      PutDistinct(filtered, "data", MergedData(filtered, extra));
      Put(filtered, "data", MergedData(filtered, extra))
    else filtered
  }

  /** Some property of the row names an invalid column. */
  predicate HasInvalid(row: seq<Field>, invalid: set<string>) {
    exists i :: 0 <= i < |row| && row[i].key in invalid
  }

  lemma FilterEmpty(row: seq<Field>, invalid: set<string>)
    ensures |Filter(row, IsInvalidField(invalid))| > 0 <==> HasInvalid(row, invalid)
  {
    if HasInvalid(row, invalid) {
      var i :| 0 <= i < |row| && row[i].key in invalid;
      assert IsInvalidField(invalid)(row[i]);
    }
  }

  lemma FilterAllKept(row: seq<Field>, p: Field -> bool)
    requires forall i :: 0 <= i < |row| ==> p(row[i])
    ensures Filter(row, p) == row
    decreases |row|
  {
    if |row| > 0 {
      FilterAllKept(row[1..], p);
      assert row == [row[0]] + row[1..];
    }
  }

  /** When no property is moved into `data` (none is invalid, or `data` is
      itself invalid), the result is the row without its invalid properties,
      in order; in particular a row with no invalid property comes back as it
      was. */
  lemma FilterRowColumnsDrop(row: seq<Field>, invalid: set<string>)
    requires DistinctKeys(row)
    requires !HasInvalid(row, invalid) || "data" in invalid
    ensures FilterRowColumns(row, invalid) == Filter(row, IsValidField(invalid))
    ensures !HasInvalid(row, invalid) ==> FilterRowColumns(row, invalid) == row
  {
    SplitEntriesIsFilter(row, invalid);
    FilterEmpty(row, invalid);
    if !HasInvalid(row, invalid) {
      FilterAllKept(row, IsValidField(invalid));
    }
  }

  lemma FilterGet(fs: seq<Field>, p: Field -> bool, k: string)
    requires DistinctKeys(fs)
    requires forall i :: 0 <= i < |fs| && fs[i].key == k ==> p(fs[i])
    ensures Get(Filter(fs, p), k) == Get(fs, k)
    decreases |fs|
  {
    if |fs| > 0 {
      KeysCons(fs[0], fs[1..]);
      assert fs == [fs[0]] + fs[1..];
      assert DistinctKeys(fs[1..]) by {
        assert forall i :: 0 <= i < |fs| - 1 ==> Keys(fs[1..])[i] == Keys(fs)[i + 1];
      }
      FilterGet(fs[1..], p, k);
      if fs[0].key != k && p(fs[0]) {
        assert Filter(fs, p) == [fs[0]] + Filter(fs[1..], p);
      }
      if fs[0].key == k {
        assert p(fs[0]);
      }
    }
  }

  lemma GetInvalidFilter(fs: seq<Field>, invalid: set<string>, k: string)
    requires DistinctKeys(fs)
    ensures Get(Filter(fs, IsInvalidField(invalid)), k) == if k in invalid then Get(fs, k) else Undefined
  {
    if k in invalid {
      FilterGet(fs, IsInvalidField(invalid), k);
    }
  }

  /** Every valid property other than `data` keeps its value. */
  lemma FilterRowColumnsKeeps(row: seq<Field>, invalid: set<string>, k: string)
    requires DistinctKeys(row) && k !in invalid && k != "data"
    ensures Get(FilterRowColumns(row, invalid), k) == Get(row, k)
  {
    SplitEntriesIsFilter(row, invalid);
    FilterGet(row, IsValidField(invalid), k);
  }

  /** The merged `data` object: `extra` over the spread of the old `data`. */
  lemma MergedDataGet(filtered: seq<Field>, extra: seq<Field>, k: string)
    requires DistinctKeys(extra)
    ensures var m := MergedData(filtered, extra); var base := Get(filtered, "data");
      && m.Object?
      && (k in Keys(extra) ==> Get(m.fields, k) == Get(extra, k))
      && (k !in Keys(extra) && base.Object? && DistinctKeys(base.fields) ==> Get(m.fields, k) == Get(base.fields, k))
      && (k !in Keys(extra) && base == Undefined ==> Get(m.fields, k) == Undefined)
  {
    var base := Get(filtered, "data");
    var spread := if Truthy(base) then base else Object([]);
    AssignGet(Assign([], OwnEntries(spread)), extra, k);
    if base.Object? && DistinctKeys(base.fields) {
      AssignGet([], base.fields, k);
    }
  }

  /** The keys of `extra` are the row's keys that are invalid. */
  lemma ExtraKeys(row: seq<Field>, invalid: set<string>, k: string)
    ensures k in Keys(Filter(row, IsInvalidField(invalid))) <==> k in invalid && k in Keys(row)
  {
    var p := IsInvalidField(invalid);
    FilterKeys(row, p, k);
    if k in Keys(Filter(row, p)) {
      var i :| 0 <= i < |Filter(row, p)| && Keys(Filter(row, p))[i] == k;
      assert p(Filter(row, p)[i]);
    }
    if k in invalid && k in Keys(row) {
      var j :| 0 <= j < |row| && Keys(row)[j] == k;
      assert p(row[j]);
      var f := row[j];
      assert f in Filter(row, p);
      var i :| 0 <= i < |Filter(row, p)| && Filter(row, p)[i] == f;
      assert Keys(Filter(row, p))[i] == k;
    }
  }

  /** When some property is invalid and `data` is not: the result has a
      `data` object holding every invalid property's value, over the row's own
      `data` object where the two share a key, and the row's other `data`
      properties untouched. */
  lemma FilterRowColumnsMerges(row: seq<Field>, invalid: set<string>, k: string)
    requires DistinctKeys(row) && HasInvalid(row, invalid) && "data" !in invalid
    ensures var data := Get(FilterRowColumns(row, invalid), "data");
      && data.Object?
      && (k in invalid && k in Keys(row) ==> Get(data.fields, k) == Get(row, k))
      && (k !in invalid && Get(row, "data").Object? && DistinctKeys(Get(row, "data").fields) ==>
            Get(data.fields, k) == Get(Get(row, "data").fields, k))
      && (k !in invalid && Get(row, "data") == Undefined ==> Get(data.fields, k) == Undefined)
  {
    SplitEntriesIsFilter(row, invalid);
    FilterEmpty(row, invalid);
    var filtered := Filter(row, IsValidField(invalid));
    var extra := Filter(row, IsInvalidField(invalid));
    assert DistinctKeys(extra) by {
      SplitEntriesDistinct(row, invalid);
    }
    assert Get(FilterRowColumns(row, invalid), "data") == MergedData(filtered, extra);
    assert Get(filtered, "data") == Get(row, "data") by {
      FilterGet(row, IsValidField(invalid), "data");
    }
    ExtraKeys(row, invalid, k);
    MergedDataGet(filtered, extra, k);
    GetInvalidFilter(row, invalid, k);
  }

  /** The invalid properties of an object have distinct keys. */
  lemma SplitEntriesDistinct(row: seq<Field>, invalid: set<string>)
    requires DistinctKeys(row)
    ensures DistinctKeys(Filter(row, IsInvalidField(invalid)))
  {
    FilterIsSubsequence(row, IsInvalidField(invalid));
    SubsequenceDistinct(Filter(row, IsInvalidField(invalid)), row);
  }

  lemma SubsequenceDistinct(r: seq<Field>, s: seq<Field>)
    requires IsSubsequence(r, s) && DistinctKeys(s)
    ensures DistinctKeys(r)
  {
    SubsequenceNoDupsMap(r, s, KeyOf);
  }


  // ---- extractInvalidColumn ----

  const Prefix: string := "Could not find the '"
  const Suffix: string := "' column"

  predicate QuoteFree(s: string) {
    forall i :: 0 <= i < |s| ==> s[i] != '\''
  }

  /** Length of the longest quote-free prefix: what `[^']+` consumes. */
  function RunLength(t: string): (n: nat)
    ensures n <= |t| && QuoteFree(t[..n]) && (n < |t| ==> t[n] == '\'')
    decreases |t|
  {
    if |t| == 0 || t[0] == '\'' then 0
    else
      var n := RunLength(t[1..]);
      assert t[..n + 1] == [t[0]] + t[1..][..n];
      n + 1
  }

  /** The pattern `Could not find the '([^']+)' column` matched at position `p`. */
  function MatchAt(msg: string, p: nat): (r: Option<string>)
    requires p <= |msg|
    ensures r.Some? ==> (|r.value| > 0 && QuoteFree(r.value)
      && p + |Prefix + r.value + Suffix| <= |msg| && msg[p..p + |Prefix + r.value + Suffix|] == Prefix + r.value + Suffix)
  {
    if |msg| - p >= |Prefix| && msg[p..p + |Prefix|] == Prefix then
      var rest := msg[p + |Prefix|..];
      var n := RunLength(rest);
      if n > 0 && |rest| - n >= |Suffix| && rest[n..n + |Suffix|] == Suffix then
        assert msg[p..p + |Prefix| + n + |Suffix|] == msg[p..p + |Prefix|] + rest[..n] + rest[n..n + |Suffix|];
        Some(rest[..n])
      else None
    else None
  }

  /** The leftmost match at or after position `p`. */
  function ExtractFrom(msg: string, p: nat): Option<string>
    requires p <= |msg|
    decreases |msg| - p
  {
    match MatchAt(msg, p)
    case Some(name) => Some(name)
    case None => if p == |msg| then None else ExtractFrom(msg, p + 1)
  }

  /** `extractInvalidColumn(errorMessage)`: the first match's column name, or null. */
  function ExtractInvalidColumn(msg: string): Option<string> {
    ExtractFrom(msg, 0)
  }

  /** The pattern occurs at `p` with column name `name`. */
  predicate OccursAt(msg: string, p: nat, name: string) {
    |name| > 0 && QuoteFree(name)
    && p + |Prefix + name + Suffix| <= |msg| && msg[p..p + |Prefix + name + Suffix|] == Prefix + name + Suffix
  }

  lemma {:induction false} ExtractFromSound(msg: string, p: nat) returns (q: nat)
    requires p <= |msg| && ExtractFrom(msg, p).Some?
    ensures p <= q && OccursAt(msg, q, ExtractFrom(msg, p).value)
    decreases |msg| - p
  {
    if MatchAt(msg, p).Some? {
      q := p;
    } else {
      q := ExtractFromSound(msg, p + 1);
    }
  }

  /** A returned name is non-empty, quote-free, and quoted in the message as
      `Could not find the '<name>' column`. */
  lemma ExtractInvalidColumnSound(msg: string) returns (p: nat)
    requires ExtractInvalidColumn(msg).Some?
    ensures OccursAt(msg, p, ExtractInvalidColumn(msg).value)
  {
    p := ExtractFromSound(msg, 0);
  }

  lemma MatchAtOccurs(msg: string, p: nat, name: string)
    requires OccursAt(msg, p, name)
    ensures MatchAt(msg, p) == Some(name)
  {
    var w := Prefix + name + Suffix;
    var rest := msg[p + |Prefix|..];
    SubSlice(msg, p, p + |w|, 0, |Prefix|);
    assert w[..|Prefix|] == Prefix;
    SubSlice(msg, p, p + |w|, |Prefix|, |w|);
    assert rest[..|name| + |Suffix|] == msg[p + |Prefix|..p + |w|];
    assert w[|Prefix|..] == name + Suffix;
    var ns := rest[..|name| + |Suffix|];
    assert ns == name + Suffix;
    assert rest[..|name|] == ns[..|name|] == name;
    assert rest[|name|..|name| + |Suffix|] == ns[|name|..] == Suffix;
    assert rest[|name|] == ns[|name|] == Suffix[0] == '\'';
    RunLengthOf(rest, |name|);
  }

  lemma SubSlice(s: string, a: nat, b: nat, i: nat, j: nat)
    requires a <= b <= |s| && i <= j <= b - a
    ensures s[a..b][i..j] == s[a + i..a + j]
  {
    forall k | 0 <= k < j - i
      ensures s[a..b][i..j][k] == s[a + i..a + j][k]
    {
    }
  }

  lemma {:induction false} RunLengthOf(t: string, n: nat)
    requires n < |t| && t[n] == '\'' && forall i :: 0 <= i < n ==> t[i] != '\''
    ensures RunLength(t) == n
    decreases n
  {
    if n > 0 {
      RunLengthOf(t[1..], n - 1);
    }
  }

  lemma {:induction false} ExtractFromComplete(msg: string, p: nat, q: nat, name: string)
    requires p <= q && OccursAt(msg, q, name)
    ensures ExtractFrom(msg, p).Some?
    decreases q - p
  {
    if p == q {
      MatchAtOccurs(msg, q, name);
    } else if MatchAt(msg, p).None? {
      ExtractFromComplete(msg, p + 1, q, name);
    }
  }

  /** A name is found exactly when the message holds the pattern somewhere,
      and a message that starts with it yields its name: the round-trip of
      the error text the database sends. */
  lemma ExtractInvalidColumnComplete(msg: string, q: nat, name: string, tail: string)
    ensures OccursAt(msg, q, name) ==> ExtractInvalidColumn(msg).Some?
    ensures |name| > 0 && QuoteFree(name) ==> ExtractInvalidColumn(Prefix + name + Suffix + tail) == Some(name)
  {
    if OccursAt(msg, q, name) {
      ExtractFromComplete(msg, 0, q, name);
    }
    if |name| > 0 && QuoteFree(name) {
      var m := Prefix + name + Suffix + tail;
      assert m[0..|Prefix + name + Suffix|] == Prefix + name + Suffix;
      MatchAtOccurs(m, 0, name);
    }
  }
}
