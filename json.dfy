/**
 * JSON-like values as the resource layer sees them (`request.json`, `request.form`,
 * `request.args` and the dicts built by `to_dict`), and the few `dict` operations
 * the model needs. A Python `dict` is an insertion-ordered sequence of entries:
 * assigning to an existing key replaces its value where it stands, assigning to a
 * new key appends it.
 */
module Json {
  import opened Wrappers

  datatype Value =
    | Null
    | Bool(b: bool)
    | Num(n: int)
    | Str(s: string)
    | List(items: seq<Value>)
    | Object(entries: Dict)

  datatype Entry = Entry(key: string, val: Value)

  type Dict = seq<Entry>

  /** `k in d`. */
  predicate HasKey(d: Dict, k: string) {
    exists i :: 0 <= i < |d| && d[i].key == k
  }

  /** Every key occurs once, as in every Python `dict`. */
  predicate UniqueKeys(d: Dict) {
    forall i, j :: 0 <= i < j < |d| ==> d[i].key != d[j].key
  }

  /** `d.get(k)`: the value of the first entry holding `k`, if there is one. */
  function Get(d: Dict, k: string): Option<Value> {
    if d == [] then None
    else if d[0].key == k then Some(d[0].val)
    else Get(d[1..], k)
  }

  /** `d.get(k)` finds a value exactly when `k in d`, and that value is an entry of `d`. */
  lemma {:induction false} GetSpec(d: Dict, k: string)
    ensures Get(d, k).Some? <==> HasKey(d, k)
    ensures Get(d, k).Some? ==> exists i :: 0 <= i < |d| && d[i] == Entry(k, Get(d, k).value)
  {
    if d != [] && d[0].key != k {
      GetSpec(d[1..], k);
      HasKeyTail(d, k);
      if Get(d, k).Some? {
        var i :| 0 <= i < |d| - 1 && d[1..][i] == Entry(k, Get(d, k).value);
        assert d[i + 1] == d[1..][i];
      }
    }
  }

  /** `d[k] = v`: afterwards `k` holds `v` and every other key what it held before. */
  function Set(d: Dict, k: string, v: Value): (r: Dict)
    ensures Get(r, k) == Some(v)
    ensures forall k' :: k' != k ==> Get(r, k') == Get(d, k')
  {
    if d == [] then [Entry(k, v)]
    else if d[0].key == k then [Entry(k, v)] + d[1..]
    else [d[0]] + Set(d[1..], k, v)
  }

  lemma HasKeyTail(d: Dict, k: string)
    requires d != [] && d[0].key != k
    ensures HasKey(d, k) <==> HasKey(d[1..], k)
  {
    if HasKey(d, k) {
      var i :| 0 <= i < |d| && d[i].key == k;
      assert d[1..][i - 1] == d[i];
    }
    if HasKey(d[1..], k) {
      var i :| 0 <= i < |d| - 1 && d[1..][i].key == k;
      assert d[i + 1] == d[1..][i];
    }
  }

  lemma UniqueTail(d: Dict)
    requires d != [] && UniqueKeys(d)
    ensures UniqueKeys(d[1..])
    ensures !HasKey(d[1..], d[0].key)
  {
    forall i, j | 0 <= i < j < |d| - 1 ensures d[1..][i].key != d[1..][j].key {
      assert d[1..][i] == d[i + 1] && d[1..][j] == d[j + 1];
    }
    forall i | 0 <= i < |d| - 1 ensures d[1..][i].key != d[0].key {
      assert d[1..][i] == d[i + 1];
    }
  }

  /** `d[k] = v` on a new key appends it at the end. */
  lemma {:induction false} SetNew(d: Dict, k: string, v: Value)
    requires !HasKey(d, k)
    ensures Set(d, k, v) == d + [Entry(k, v)]
  {
    if d != [] {
      assert d[0].key != k;
      HasKeyTail(d, k);
      SetNew(d[1..], k, v);
      assert d == [d[0]] + d[1..];
    }
  }

  /** `d[k] = v` on an existing key replaces its entry where it stands. */
  lemma {:induction false} SetExisting(d: Dict, k: string, v: Value)
    requires HasKey(d, k)
    ensures |Set(d, k, v)| == |d|
  {
    if d[0].key != k {
      HasKeyTail(d, k);
      SetExisting(d[1..], k, v);
    }
  }

  /** `d[k] = v` keeps the keys of a dict unique. */
  lemma {:induction false} SetUnique(d: Dict, k: string, v: Value)
    requires UniqueKeys(d)
    ensures UniqueKeys(Set(d, k, v))
  {
    var r := Set(d, k, v);
    if d == [] {
    } else if d[0].key == k {
      forall i, j | 0 <= i < j < |r| ensures r[i].key != r[j].key {
        assert r[j] == d[j];
        if i > 0 {
          assert r[i] == d[i];
        }
      }
    } else {
      var t := d[1..];
      var rt := Set(t, k, v);
      UniqueTail(d);
      SetUnique(t, k, v);
      assert r == [d[0]] + rt;
      assert !HasKey(rt, d[0].key) by {
        assert Get(rt, d[0].key) == Get(t, d[0].key);
        GetSpec(rt, d[0].key);
        GetSpec(t, d[0].key);
      }
      forall i, j | 0 <= i < j < |r| ensures r[i].key != r[j].key {
        assert r[j] == rt[j - 1];
        if i > 0 {
          assert r[i] == rt[i - 1];
        }
      }
    }
  }

  /** `d.update(e)`: the entries of `e` assigned into `d` one after another. */
  function Update(d: Dict, e: Dict): Dict
    decreases |e|
  {
    if e == [] then d else Update(Set(d, e[0].key, e[0].val), e[1..])
  }

  /** After `d.update(e)` a key of `e` holds `e`'s value and any other key keeps `d`'s. */
  lemma {:induction false} UpdateGet(d: Dict, e: Dict, k: string)
    requires UniqueKeys(e)
    ensures Get(Update(d, e), k) == if HasKey(e, k) then Get(e, k) else Get(d, k)
    decreases |e|
  {
    if e != [] {
      var d1 := Set(d, e[0].key, e[0].val);
      assert UniqueKeys(e[1..]) by {
        forall i, j | 0 <= i < j < |e| - 1 ensures e[1..][i].key != e[1..][j].key {
          assert e[1..][i] == e[i + 1] && e[1..][j] == e[j + 1];
        }
      }
      UpdateGet(d1, e[1..], k);
      assert HasKey(e, k) <==> e[0].key == k || HasKey(e[1..], k) by {
        if HasKey(e, k) && e[0].key != k {
          var i :| 0 <= i < |e| && e[i].key == k;
          assert e[1..][i - 1] == e[i];
        }
        if HasKey(e[1..], k) {
          var i :| 0 <= i < |e| - 1 && e[1..][i].key == k;
          assert e[i + 1] == e[1..][i];
        }
      }
      if e[0].key == k {
        forall i | 0 <= i < |e| - 1 ensures e[1..][i].key != k {
          assert e[1..][i] == e[i + 1];
        }
      }
    }
  }

  /** `d.update(e)` keeps the keys of the result unique. */
  lemma {:induction false} UpdateUnique(d: Dict, e: Dict)
    requires UniqueKeys(d)
    ensures UniqueKeys(Update(d, e))
    decreases |e|
  {
    if e != [] {
      SetUnique(d, e[0].key, e[0].val);
      UpdateUnique(Set(d, e[0].key, e[0].val), e[1..]);
    }
  }

  /** The keys of a dict, in order. */
  function Keys(d: Dict): (ks: seq<string>)
    ensures |ks| == |d| && forall i :: 0 <= i < |d| ==> ks[i] == d[i].key
  {
    if d == [] then [] else [d[0].key] + Keys(d[1..])
  }

  /** In a dict with unique keys, `d[k]` is the value of the one entry holding `k`. */
  lemma {:induction false} GetAt(d: Dict, i: nat)
    requires UniqueKeys(d) && i < |d|
    ensures Get(d, d[i].key) == Some(d[i].val)
  {
    if i > 0 {
      UniqueTail(d);
      assert d[1..][i - 1] == d[i];
      GetAt(d[1..], i - 1);
    }
  }

  /** Every entry of a dict with unique keys is found by its key, and no other key is there. */
  lemma GetEntries(d: Dict)
    requires UniqueKeys(d)
    ensures forall i :: 0 <= i < |d| ==> Get(d, d[i].key) == Some(d[i].val)
    ensures forall k :: HasKey(d, k) <==> k in Keys(d)
  {
    forall i | 0 <= i < |d| ensures Get(d, d[i].key) == Some(d[i].val) {
      GetAt(d, i);
    }
    forall k ensures HasKey(d, k) <==> k in Keys(d) {
      if k in Keys(d) {
        var i :| 0 <= i < |Keys(d)| && Keys(d)[i] == k;
        assert d[i].key == k;
      }
    }
  }

  /** No key occurs twice in a list of keys. */
  predicate Distinct(keys: seq<string>) {
    forall i, j :: 0 <= i < j < |keys| ==> keys[i] != keys[j]
  }

  /** The dict literal `{keys[0]: vals[0], keys[1]: vals[1], ...}`. */
  function FromPairs(keys: seq<string>, vals: seq<Value>): (r: Dict)
    requires |keys| == |vals|
    ensures |r| == |keys| && forall i :: 0 <= i < |r| ==> r[i] == Entry(keys[i], vals[i])
    ensures Keys(r) == keys
    ensures forall k :: HasKey(r, k) <==> k in keys
    ensures Distinct(keys) ==> UniqueKeys(r)
  {
    var r := seq(|keys|, i requires 0 <= i < |keys| => Entry(keys[i], vals[i]));
    assert Keys(r) == keys;
    assert forall k :: k in keys ==> exists i :: 0 <= i < |keys| && keys[i] == k;
    r
  }

  /** In a dict literal with distinct keys, the key at position `i` holds the value at `i`. */
  lemma GetPair(keys: seq<string>, vals: seq<Value>, i: nat, k: string)
    requires |keys| == |vals| && Distinct(keys) && i < |keys| && keys[i] == k
    ensures Get(FromPairs(keys, vals), k) == Some(vals[i])
  {
    GetAt(FromPairs(keys, vals), i);
  }

  /** After `d.update(e)` a key is present exactly when it was in `d` or is in `e`. */
  lemma UpdateHasKey(d: Dict, e: Dict, k: string)
    requires UniqueKeys(e)
    ensures HasKey(Update(d, e), k) <==> HasKey(e, k) || HasKey(d, k)
  {
    UpdateGet(d, e, k);
    GetSpec(Update(d, e), k);
    GetSpec(e, k);
    GetSpec(d, k);
  }
}
