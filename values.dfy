/** The loosely typed rows the result table yields: each row is a Python dict
    from column name to value, read with dict.get and a default. */
module Values {
  import opened Numerals

  /** A column value: text, an integer, or SQL NULL (Python None). */
  datatype Value = Text(s: string) | Int(n: int) | Null

  /** A dict: its keys in insertion order and the key-to-value map. */
  datatype Record = Record(keys: seq<string>, fields: map<string, Value>)

  predicate WellFormed(r: Record) {
    (forall i, j :: 0 <= i < j < |r.keys| ==> r.keys[i] != r.keys[j]) &&
    (forall k :: k in r.keys ==> k in r.fields) && (forall k :: k in r.fields ==> k in r.keys)
  }

  type Row = r: Record | WellFormed(r) witness Record([], map[])

  /** dict.get(key, default): the default is used only when the key is absent. */
  function Get(r: Row, key: string, default: Value): Value {
    if key in r.fields then r.fields[key] else default
  }

  /** Python's str() of a value; str(None) is "None". */
  function Str(v: Value): string {
    match v
    case Text(s) => s
    case Int(n) => IntToText(n)
    case Null => "None"
  }

  /** The values of a dict in its key order (dict.values()). */
  function ValuesOf(r: Row): (vs: seq<Value>)
    ensures |vs| == |r.keys|
    ensures forall j :: 0 <= j < |r.keys| ==> r.keys[j] in r.fields && vs[j] == r.fields[r.keys[j]]
  {
    seq(|r.keys|, j requires 0 <= j < |r.keys| => assert r.keys[j] in r.fields; r.fields[r.keys[j]])
  }

  /** Every stored value is listed, at the position of its key. */
  lemma {:induction false} ValuesCover(r: Row, k: string)
    requires k in r.fields
    ensures exists j :: 0 <= j < |r.keys| && r.keys[j] == k && ValuesOf(r)[j] == r.fields[k]
  {
    var j :| 0 <= j < |r.keys| && r.keys[j] == k;
    assert ValuesOf(r)[j] == r.fields[k];
  }

  /** dict.values() lists as many values as the dict holds entries. */
  lemma {:induction false} ValuesCount(r: Row)
    ensures |ValuesOf(r)| == |r.fields|
  {
    DistinctKeysCount(r.keys);
    assert r.fields.Keys == set k | k in r.keys;
  }

  lemma {:induction false} DistinctKeysCount(s: seq<string>)
    requires forall i, j :: 0 <= i < j < |s| ==> s[i] != s[j]
    ensures |set k | k in s| == |s|
  {
    if s != [] {
      var t := s[..|s| - 1];
      var x := s[|s| - 1];
      DistinctKeysCount(t);
      assert x !in t;
      assert (set k | k in s) == (set k | k in t) + {x};
    }
  }
}
