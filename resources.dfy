/**
 * The key handling of `ResourceBase`: `transform_key`, which renames every key of
 * a JSON-like value with `camel_to_snake` (on the request side) or `snake_to_camel`
 * (on the response side), and `payload`, which merges the request's json body,
 * form and query arguments.
 */
module Resources {
  import opened Wrappers
  import opened Json
  import KeyCase

  /** The two functions `transform_key` is handed as its `method` argument. */
  datatype KeyMethod = CamelToSnake | SnakeToCamel

  /** `method(key)`. */
  function Rename(m: KeyMethod, key: string): string {
    match m
    case CamelToSnake => KeyCase.CamelToSnake(key)
    case SnakeToCamel => KeyCase.Camelized(key)
  }

  /** `transform_key(data, method)`: a dict is rebuilt with renamed keys and
      transformed values, a list has its dict elements rebuilt, anything else
      comes back as it was. */
  function TransformKey(v: Value, m: KeyMethod): (r: Value)
    ensures r.Object? <==> v.Object?
    ensures r.List? <==> v.List?
    ensures v.List? ==> |r.items| == |v.items|
    ensures !v.Object? && !v.List? ==> r == v
    decreases v, 1
  {
    match v
    case Object(d) => Object(RenameEntries(d, m))
    case List(items) => List(TransformItems(items, m))
    case _ => v
  }

  /** The dict comprehension `{method(key): transform_key(value, method) for key, value
      in d.items()}`, which assigns the entries of `d` into a new dict in order. */
  function RenameEntries(d: Dict, m: KeyMethod): (r: Dict)
    ensures |r| <= |d|
    decreases d, 0
  {
    if d == [] then []
    else
      var e := d[|d| - 1];
      var r0 := RenameEntries(d[..|d| - 1], m);
      var r := Set(r0, Rename(m, e.key), TransformKey(e.val, m));
      assert |r| <= |r0| + 1 by {
        if HasKey(r0, Rename(m, e.key)) {
          SetExisting(r0, Rename(m, e.key), TransformKey(e.val, m));
        } else {
          SetNew(r0, Rename(m, e.key), TransformKey(e.val, m));
        }
      }
      r
  }

  /** The list branch of `transform_key`: each dict element is replaced by its
      transformed copy, and every other element, nested lists included, stays. */
  function TransformItems(items: seq<Value>, m: KeyMethod): (r: seq<Value>)
    ensures |r| == |items|
    ensures forall i :: 0 <= i < |items| && items[i].Object? ==> r[i] == TransformKey(items[i], m)
    ensures forall i :: 0 <= i < |items| && !items[i].Object? ==> r[i] == items[i]
    decreases items, 0
  {
    seq(|items|, i requires 0 <= i < |items| =>
      if items[i].Object? then Object(RenameEntries(items[i].entries, m)) else items[i])
  }

  /** The list branch as the source runs it: `data[index] = {...}` for every dict
      element, overwriting the list in place. */
  method TransformList(a: array<Value>, m: KeyMethod)
    modifies a
    ensures a[..] == TransformItems(old(a[..]), m)
  {
    ghost var before := a[..];
    ghost var target := TransformItems(before, m);
    for index := 0 to a.Length
      invariant forall i :: 0 <= i < index ==> a[i] == target[i]
      invariant forall i :: index <= i < a.Length ==> a[i] == before[i]
    {
      var item := a[index];
      if item.Object? {
        a[index] := Object(RenameEntries(item.entries, m));
      }
      assert a[index] == target[index] by {
        assert target[index] == if item.Object? then TransformKey(item, m) else item;
      }
    }
    assert a[..] == target;
  }

  // ---------------------------------------------------------------------------
  // Properties of the dict branch

  /** The renamed dict has unique keys. */
  lemma {:induction false} RenameEntriesUnique(d: Dict, m: KeyMethod)
    ensures UniqueKeys(RenameEntries(d, m))
  {
    if d != [] {
      var e, d0 := d[|d| - 1], d[..|d| - 1];
      RenameEntriesUnique(d0, m);
      SetUnique(RenameEntries(d0, m), Rename(m, e.key), TransformKey(e.val, m));
    }
  }

  /** The renamed dict holds exactly the renamed keys. */
  lemma {:induction false} RenameEntriesKeys(d: Dict, m: KeyMethod)
    ensures forall k :: HasKey(RenameEntries(d, m), k) <==>
                        exists i :: 0 <= i < |d| && Rename(m, d[i].key) == k
  {
    if d != [] {
      var e, d0 := d[|d| - 1], d[..|d| - 1];
      var r0 := RenameEntries(d0, m);
      var k0 := Rename(m, e.key);
      var r := RenameEntries(d, m);
      assert r == Set(r0, k0, TransformKey(e.val, m));
      RenameEntriesKeys(d0, m);
      forall k ensures HasKey(r, k) <==> exists i :: 0 <= i < |d| && Rename(m, d[i].key) == k {
        KeyStep(d, d0, m, k);
      }
    }
  }

  lemma KeyStep(d: Dict, d0: Dict, m: KeyMethod, k: string)
    requires d != [] && d0 == d[..|d| - 1]
    requires forall k :: HasKey(RenameEntries(d0, m), k) <==>
                         exists i :: 0 <= i < |d0| && Rename(m, d0[i].key) == k
    ensures HasKey(RenameEntries(d, m), k) <==> exists i :: 0 <= i < |d| && Rename(m, d[i].key) == k
  {
    var e := d[|d| - 1];
    var r0 := RenameEntries(d0, m);
    var r := RenameEntries(d, m);
    assert r == Set(r0, Rename(m, e.key), TransformKey(e.val, m));
    GetSpec(r, k);
    GetSpec(r0, k);
    RenamedLast(d, d0, m, k);
  }

  /** A key is the renaming of some key of `d` when it renames the last key or a key before it. */
  lemma RenamedLast(d: Dict, d0: Dict, m: KeyMethod, k: string)
    requires d != [] && d0 == d[..|d| - 1]
    ensures (exists i :: 0 <= i < |d| && Rename(m, d[i].key) == k) <==>
            (exists i :: 0 <= i < |d0| && Rename(m, d0[i].key) == k) || Rename(m, d[|d| - 1].key) == k
  {
    if exists i :: 0 <= i < |d0| && Rename(m, d0[i].key) == k {
      var i :| 0 <= i < |d0| && Rename(m, d0[i].key) == k;
      assert d[i] == d0[i];
    }
    if exists i :: 0 <= i < |d| && Rename(m, d[i].key) == k {
      var i :| 0 <= i < |d| && Rename(m, d[i].key) == k;
      if i < |d| - 1 {
        assert d0[i] == d[i];
      }
    }
  }

  /** `method` gives distinct names to the distinct keys of `d`. */
  predicate RenameInjective(d: Dict, m: KeyMethod) {
    forall i, j :: 0 <= i < j < |d| ==> Rename(m, d[i].key) != Rename(m, d[j].key)
  }

  /** What the comprehension makes of one entry. */
  function RenamedEntry(e: Entry, m: KeyMethod): Entry {
    Entry(Rename(m, e.key), TransformKey(e.val, m))
  }

  /** When no two keys collide after renaming, the comprehension keeps every entry,
      in its place, with the renamed key and the transformed value. */
  lemma {:induction false} RenameEntriesExact(d: Dict, m: KeyMethod)
    requires RenameInjective(d, m)
    ensures |RenameEntries(d, m)| == |d|
    ensures forall i :: 0 <= i < |d| ==> RenameEntries(d, m)[i] == RenamedEntry(d[i], m)
  {
    if d != [] {
      var e, d0 := d[|d| - 1], d[..|d| - 1];
      assert RenameInjective(d0, m) by {
        forall i, j | 0 <= i < j < |d0| ensures Rename(m, d0[i].key) != Rename(m, d0[j].key) {
          assert d0[i] == d[i] && d0[j] == d[j];
        }
      }
      RenameEntriesExact(d0, m);
      var r0 := RenameEntries(d0, m);
      RenameEntriesKeys(d0, m);
      assert !HasKey(r0, Rename(m, e.key)) by {
        forall i | 0 <= i < |d0| ensures Rename(m, d0[i].key) != Rename(m, e.key) {
          assert d0[i] == d[i];
        }
      }
      SetNew(r0, Rename(m, e.key), TransformKey(e.val, m));
      forall i | 0 <= i < |d| ensures RenameEntries(d, m)[i] == RenamedEntry(d[i], m) {
        if i < |d| - 1 {
          assert d0[i] == d[i];
        }
      }
    }
  }

  // ---------------------------------------------------------------------------
  // Response keys reach the request side unchanged

  /** Every key `transform_key` visits in `v` is a round-trip key of
      `KeyCase.SnakeCamelRoundTrip`, and every dict it visits has unique keys. */
  predicate SnakeKeys(v: Value)
    decreases v, 1
  {
    match v
    case Object(d) => SnakeEntries(d)
    case List(items) => forall i :: 0 <= i < |items| && items[i].Object? ==> SnakeEntries(items[i].entries)
    case _ => true
  }

  predicate SnakeEntries(d: Dict)
    decreases d, 0
  {
    UniqueKeys(d) &&
    (forall i :: 0 <= i < |d| ==> KeyCase.RoundTripKey(d[i].key)) &&
    (forall i :: 0 <= i < |d| ==> SnakeKeys(d[i].val))
  }

  /** `snake_to_camel` is one-to-one on round-trip keys, so no two keys of a
      snake-case dict collide on the response side. */
  lemma CamelInjective(d: Dict)
    requires SnakeEntries(d)
    ensures RenameInjective(d, SnakeToCamel)
  {
    forall i, j | 0 <= i < j < |d| ensures Rename(SnakeToCamel, d[i].key) != Rename(SnakeToCamel, d[j].key) {
      KeyCase.SnakeCamelRoundTrip(d[i].key);
      KeyCase.SnakeCamelRoundTrip(d[j].key);
    }
  }

  /** Back on the request side, the camelCase keys of such a dict do not collide either. */
  lemma SnakeInjective(d: Dict, once: Dict)
    requires SnakeEntries(d)
    requires |once| == |d| && forall i :: 0 <= i < |d| ==> once[i] == RenamedEntry(d[i], SnakeToCamel)
    ensures RenameInjective(once, CamelToSnake)
  {
    forall i, j | 0 <= i < j < |once| ensures Rename(CamelToSnake, once[i].key) != Rename(CamelToSnake, once[j].key) {
      KeyCase.SnakeCamelRoundTrip(d[i].key);
      KeyCase.SnakeCamelRoundTrip(d[j].key);
    }
  }

  /** A value whose keys are all round-trip keys comes out of `response` (keys to
      camelCase) and back through the request side (keys to snake_case) unchanged. */
  lemma {:induction false} ResponseRequestRoundTrip(v: Value)
    requires SnakeKeys(v)
    ensures TransformKey(TransformKey(v, SnakeToCamel), CamelToSnake) == v
    decreases v, 1
  {
    match v
    case Object(d) =>
      EntriesRoundTrip(d);
    case List(items) =>
      var once := TransformItems(items, SnakeToCamel);
      var twice := TransformItems(once, CamelToSnake);
      forall i | 0 <= i < |items| ensures twice[i] == items[i] {
        if items[i].Object? {
          EntriesRoundTrip(items[i].entries);
        }
      }
    case _ =>
  }

  lemma {:induction false} EntriesRoundTrip(d: Dict)
    requires SnakeEntries(d)
    ensures RenameEntries(RenameEntries(d, SnakeToCamel), CamelToSnake) == d
    decreases d, 0
  {
    var once := RenameEntries(d, SnakeToCamel);
    CamelInjective(d);
    RenameEntriesExact(d, SnakeToCamel);
    SnakeInjective(d, once);
    RenameEntriesExact(once, CamelToSnake);
    var twice := RenameEntries(once, CamelToSnake);
    forall i | 0 <= i < |d| ensures twice[i] == d[i] {
      KeyCase.SnakeCamelRoundTrip(d[i].key);
      ResponseRequestRoundTrip(d[i].val);
    }
  }

  // ---------------------------------------------------------------------------
  // payload

  /** The request side of `transform_key` on a dict. */
  function Snake(d: Dict): Dict {
    RenameEntries(d, CamelToSnake)
  }

  /** Every key of a snake-cased dict is free of upper-case letters. */
  lemma SnakeNoUpper(d: Dict)
    ensures UniqueKeys(Snake(d))
    ensures forall k :: HasKey(Snake(d), k) ==> KeyCase.NoUpper(k)
  {
    RenameEntriesUnique(d, CamelToSnake);
    RenameEntriesKeys(d, CamelToSnake);
    forall k | HasKey(Snake(d), k) ensures KeyCase.NoUpper(k) {
      var j :| 0 <= j < |d| && Rename(CamelToSnake, d[j].key) == k;
    }
  }

  /** A dict with unique keys, none of them holding an upper-case letter. */
  predicate SnakeDict(p: Dict) {
    UniqueKeys(p) && forall i :: 0 <= i < |p| ==> KeyCase.NoUpper(p[i].key)
  }

  /** One `if source: payload.update(transform_key(source, camel_to_snake))` step: keys
      of the source win over what `p` held, and no key with an upper-case letter enters. */
  lemma MergeStep(p: Dict, q: Dict, source: Dict)
    requires q == if source != [] then Update(p, Snake(source)) else p
    requires SnakeDict(p)
    ensures SnakeDict(q)
    ensures forall k :: Get(q, k) == if HasKey(Snake(source), k) then Get(Snake(source), k) else Get(p, k)
  {
    SnakeNoUpper(source);
    if source != [] {
      UpdateUnique(p, Snake(source));
      forall i | 0 <= i < |q| ensures KeyCase.NoUpper(q[i].key) {
        assert HasKey(q, q[i].key);
        UpdateHasKey(p, Snake(source), q[i].key);
        if !HasKey(Snake(source), q[i].key) {
          var j :| 0 <= j < |p| && p[j].key == q[i].key;
        }
      }
      forall k ensures Get(q, k) == if HasKey(Snake(source), k) then Get(Snake(source), k) else Get(p, k) {
        UpdateGet(p, Snake(source), k);
      }
    } else {
      assert Snake(source) == [];
    }
  }

  /** `payload`: an empty dict updated with the snake-cased json body, then the
      form, then the query arguments, each only when it is non-empty. */
  method Payload(json: Dict, form: Dict, args: Dict) returns (p: Dict)
    ensures SnakeDict(p)
    ensures forall k :: Get(p, k) ==
              if HasKey(Snake(args), k) then Get(Snake(args), k)
              else if HasKey(Snake(form), k) then Get(Snake(form), k)
              else Get(Snake(json), k)
  {
    p := [];
    if json != [] {
      p := Update(p, Snake(json));
    }
    MergeStep([], p, json);
    ghost var p1 := p;
    if form != [] {
      p := Update(p, Snake(form));
    }
    MergeStep(p1, p, form);
    ghost var p2 := p;
    if args != [] {
      p := Update(p, Snake(args));
    }
    MergeStep(p2, p, args);
    forall k ensures Get(Snake(json), k).Some? <==> HasKey(Snake(json), k) {
      GetSpec(Snake(json), k);
    }
  }
}
