/**
 * A plain JavaScript object as the list of its own properties in creation
 * order: assigning to an existing key keeps its place, assigning to a new key
 * appends it. `Object.keys`, `Object.assign` and JSON output do not list them
 * in creation order but in EnumerationOrder of it: the keys that are array
 * indices first, ascending by value, then the other keys in creation order.
 * The two orders coincide when no key is an array index.
 */
module JsObject {
  import opened Wrappers
  import opened JsText

  type Props<V> = seq<(string, V)>

  function Keys<V>(o: Props<V>): (ks: seq<string>)
    ensures |ks| == |o| && forall i :: 0 <= i < |o| ==> ks[i] == o[i].0
  {
    if o == [] then [] else [o[0].0] + Keys(o[1..])
  }

  /** Every key occurs once, as in any JavaScript object. */
  predicate UniqueKeys<V>(o: Props<V>) {
    forall i, j :: 0 <= i < j < |o| ==> o[i].0 != o[j].0
  }

  /** Property read `o[k]`; None stands for `undefined`. */
  function Get<V>(o: Props<V>, k: string): (r: Option<V>)
    ensures r.Some? <==> k in Keys(o)
    ensures r.Some? ==> exists i :: 0 <= i < |o| && o[i] == (k, r.value)
  {
    if o == [] then None
    else if o[0].0 == k then Some(o[0].1)
    else
      var r := Get(o[1..], k);
      assert r.Some? ==> exists i :: 1 <= i < |o| && o[i] == (k, r.value) by {
        if r.Some? {
          var i :| 0 <= i < |o[1..]| && o[1..][i] == (k, r.value);
          assert o[i + 1] == (k, r.value);
        }
      }
      r
  }

  /** Property write `o[k] = v`. */
  function Put<V>(o: Props<V>, k: string, v: V): (r: Props<V>)
  {
    if o == [] then [(k, v)]
    else if o[0].0 == k then [(k, v)] + o[1..]
    else [o[0]] + Put(o[1..], k, v)
  }

  lemma {:induction false} PutGet<V>(o: Props<V>, k: string, v: V, j: string)
    ensures Get(Put(o, k, v), j) == if j == k then Some(v) else Get(o, j)
  {
    if o != [] && o[0].0 != k {
      PutGet(o[1..], k, v, j);
    }
  }

  /** A write keeps the places of the existing keys and appends a new key last. */
  lemma {:induction false} PutKeys<V>(o: Props<V>, k: string, v: V)
    ensures Keys(Put(o, k, v)) == if k in Keys(o) then Keys(o) else Keys(o) + [k]
  {
    if o != [] && o[0].0 != k {
      PutKeys(o[1..], k, v);
      assert Keys(o) == [o[0].0] + Keys(o[1..]);
    }
  }

  lemma PutUnique<V>(o: Props<V>, k: string, v: V)
    requires UniqueKeys(o)
    ensures UniqueKeys(Put(o, k, v))
  {
    var r := Put(o, k, v);
    PutKeys(o, k, v);
    forall i, j | 0 <= i < j < |r| ensures r[i].0 != r[j].0 {
      assert Keys(r)[i] == r[i].0 && Keys(r)[j] == r[j].0;
      if k !in Keys(o) && j == |o| {
        assert Keys(o)[i] == Keys(r)[i];
      } else {
        assert Keys(o)[i] == Keys(r)[i] && Keys(o)[j] == Keys(r)[j];
      }
    }
  }

  /** The keys of `source` that `target` does not have yet, in `source` order. */
  function NewKeys<V>(target: Props<V>, source: Props<V>): seq<string>
    decreases |source|
  {
    if source == [] then []
    else if source[0].0 in Keys(target) then NewKeys(target, source[1..])
    else [source[0].0] + NewKeys(Put(target, source[0].0, source[0].1), source[1..])
  }

  /** `Object.assign(target, source)`: one property write per source property, in order. */
  function Assigned<V>(target: Props<V>, source: Props<V>): Props<V>
    decreases |source|
  {
    if source == [] then target else Assigned(Put(target, source[0].0, source[0].1), source[1..])
  }

  lemma {:induction false} AssignedGet<V>(target: Props<V>, source: Props<V>, k: string)
    requires UniqueKeys(source)
    ensures Get(Assigned(target, source), k) == if k in Keys(source) then Get(source, k) else Get(target, k)
    decreases |source|
  {
    if source != [] {
      var t := Put(target, source[0].0, source[0].1);
      assert UniqueKeys(source[1..]);
      AssignedGet(t, source[1..], k);
      PutGet(target, source[0].0, source[0].1, k);
      if k == source[0].0 {
        assert k !in Keys(source[1..]);
      }
      assert Keys(source) == [source[0].0] + Keys(source[1..]);
    }
  }

  lemma {:induction false} AssignedKeys<V>(target: Props<V>, source: Props<V>)
    ensures Keys(Assigned(target, source)) == Keys(target) + NewKeys(target, source)
    decreases |source|
  {
    if source != [] {
      var t := Put(target, source[0].0, source[0].1);
      PutKeys(target, source[0].0, source[0].1);
      AssignedKeys(t, source[1..]);
      if source[0].0 in Keys(target) {
        NewKeysOfSameKeys(target, t, source[1..]);
      }
    }
  }

  /** NewKeys depends only on the target's keys. */
  lemma {:induction false} NewKeysOfSameKeys<V>(a: Props<V>, b: Props<V>, source: Props<V>)
    requires Keys(a) == Keys(b)
    ensures NewKeys(a, source) == NewKeys(b, source)
    decreases |source|
  {
    if source != [] {
      var k, v := source[0].0, source[0].1;
      if k in Keys(a) {
        NewKeysOfSameKeys(a, b, source[1..]);
      } else {
        PutKeys(a, k, v);
        PutKeys(b, k, v);
        NewKeysOfSameKeys(Put(a, k, v), Put(b, k, v), source[1..]);
      }
    }
  }

  lemma {:induction false} AssignedUnique<V>(target: Props<V>, source: Props<V>)
    requires UniqueKeys(target)
    ensures UniqueKeys(Assigned(target, source))
    decreases |source|
  {
    if source != [] {
      PutUnique(target, source[0].0, source[0].1);
      AssignedUnique(Put(target, source[0].0, source[0].1), source[1..]);
    }
  }

  /** After an assignment an object has exactly the keys of the target and those of the source. */
  lemma AssignedKeySet<V>(target: Props<V>, source: Props<V>, k: string)
    requires UniqueKeys(source)
    ensures k in Keys(Assigned(target, source)) <==> k in Keys(target) || k in Keys(source)
  {
    AssignedGet(target, source, k);
  }

  /** Every property's key is allowed exactly when every key is. */
  lemma KeysWithin<V>(o: Props<V>, allowed: seq<string>)
    ensures (forall i :: 0 <= i < |o| ==> o[i].0 in allowed) <==> (forall k :: k in Keys(o) ==> k in allowed)
  {
    if forall i :: 0 <= i < |o| ==> o[i].0 in allowed {
      forall k | k in Keys(o) ensures k in allowed {
        var i :| 0 <= i < |o| && Keys(o)[i] == k;
      }
    }
  }

  /** Writing a new key appends it. */
  lemma {:induction false} PutNew<V>(o: Props<V>, k: string, v: V)
    requires k !in Keys(o)
    ensures Put(o, k, v) == o + [(k, v)]
  {
    if o != [] {
      assert Keys(o)[0] == o[0].0;
      assert k !in Keys(o[1..]) by {
        assert Keys(o) == [o[0].0] + Keys(o[1..]);
      }
      PutNew(o[1..], k, v);
      assert [o[0]] + (o[1..] + [(k, v)]) == o + [(k, v)];
    }
  }

  /** Assigning properties whose keys the target lacks appends them in order. */
  lemma {:induction false} AssignedDisjoint<V>(target: Props<V>, source: Props<V>)
    requires UniqueKeys(source)
    requires forall k :: k in Keys(source) ==> k !in Keys(target)
    ensures Assigned(target, source) == target + source
    decreases |source|
  {
    if source != [] {
      var k, v := source[0].0, source[0].1;
      assert k in Keys(source);
      PutNew(target, k, v);
      var t := target + [(k, v)];
      forall j | j in Keys(source[1..]) ensures j !in Keys(t) {
        assert j in Keys(source);
        assert Keys(t) == Keys(target) + [k];
      }
      AssignedDisjoint(t, source[1..]);
      assert t + source[1..] == target + source;
    }
  }

  /**
   * `Object.assign(target, source)` as the loop it is: afterwards each key of
   * `source` reads its source value, every other key keeps its target value,
   * the target's keys keep their places and the new keys follow in source
   * order.
   */
  method Assign<V>(target: Props<V>, source: Props<V>) returns (r: Props<V>)
    requires UniqueKeys(target) && UniqueKeys(source)
    ensures r == Assigned(target, source)
    ensures UniqueKeys(r)
    ensures forall k :: Get(r, k) == if k in Keys(source) then Get(source, k) else Get(target, k)
    ensures Keys(r) == Keys(target) + NewKeys(target, source)
  {
    r := target;
    var i := 0;
    while i < |source|
      invariant 0 <= i <= |source|
      invariant Assigned(r, source[i..]) == Assigned(target, source)
    {
      assert source[i..][1..] == source[i + 1..];
      r := Put(r, source[i].0, source[i].1);
      i := i + 1;
    }
    assert source[i..] == [];
    forall k ensures Get(r, k) == if k in Keys(source) then Get(source, k) else Get(target, k) {
      AssignedGet(target, source, k);
    }
    AssignedKeys(target, source);
    AssignedUnique(target, source);
  }

  // ----- enumeration order -----

  /** A canonical array index: "0", or digits without a leading zero, of value below 2^32 - 1. */
  predicate IsArrayIndex(k: string) {
    k != [] && AllDigits(k) && (k[0] != '0' || k == "0") && DigitsValue(k) < 0xFFFF_FFFF
  }

  predicate AllIndices(ks: seq<string>) {
    forall i :: 0 <= i < |ks| ==> IsArrayIndex(ks[i])
  }

  /** Array indices ascending by value. */
  predicate Ascending(ks: seq<string>)
    requires AllIndices(ks)
  {
    forall i, j :: 0 <= i < j < |ks| ==> DigitsValue(ks[i]) <= DigitsValue(ks[j])
  }

  /** Inserts an array index into a list of array indices, before the first larger one. */
  function InsertIndex(k: string, sorted: seq<string>): (r: seq<string>)
    requires IsArrayIndex(k) && AllIndices(sorted)
    ensures AllIndices(r) && |r| == |sorted| + 1
    ensures forall x :: x in r <==> x == k || x in sorted
    ensures r[0] == k || (sorted != [] && r[0] == sorted[0])
  {
    if sorted == [] || DigitsValue(k) <= DigitsValue(sorted[0]) then [k] + sorted
    else [sorted[0]] + InsertIndex(k, sorted[1..])
  }

  /** A list led by its least element is ascending when its tail is. */
  lemma AscendingCons(h: string, t: seq<string>)
    requires IsArrayIndex(h) && AllIndices(t) && Ascending(t)
    requires t != [] ==> DigitsValue(h) <= DigitsValue(t[0])
    ensures AllIndices([h] + t) && Ascending([h] + t)
  {
    var r := [h] + t;
    forall i, j | 0 <= i < j < |r| ensures DigitsValue(r[i]) <= DigitsValue(r[j]) {
      if i == 0 && j > 1 {
        assert DigitsValue(t[0]) <= DigitsValue(t[j - 1]);
      }
    }
  }

  lemma {:induction false} InsertIndexAscending(k: string, sorted: seq<string>)
    requires IsArrayIndex(k) && AllIndices(sorted) && Ascending(sorted)
    ensures Ascending(InsertIndex(k, sorted))
  {
    if sorted == [] || DigitsValue(k) <= DigitsValue(sorted[0]) {
      AscendingCons(k, sorted);
    } else {
      var tail := sorted[1..];
      assert Ascending(tail);
      InsertIndexAscending(k, tail);
      var rest := InsertIndex(k, tail);
      assert rest[0] == k || rest[0] == sorted[1];
      AscendingCons(sorted[0], rest);
    }
  }

  /** The keys of ks that are array indices, ascending by value. */
  function IndexKeys(ks: seq<string>): (r: seq<string>)
    ensures AllIndices(r)
    ensures forall x :: x in r <==> x in ks && IsArrayIndex(x)
  {
    if ks == [] then []
    else if IsArrayIndex(ks[0]) then InsertIndex(ks[0], IndexKeys(ks[1..]))
    else IndexKeys(ks[1..])
  }

  lemma {:induction false} IndexKeysAscending(ks: seq<string>)
    ensures Ascending(IndexKeys(ks))
  {
    if ks != [] {
      IndexKeysAscending(ks[1..]);
      if IsArrayIndex(ks[0]) {
        InsertIndexAscending(ks[0], IndexKeys(ks[1..]));
      }
    }
  }

  /** The keys of ks that are not array indices, in their order in ks. */
  function OtherKeys(ks: seq<string>): (r: seq<string>)
    ensures forall x :: x in r <==> x in ks && !IsArrayIndex(x)
  {
    if ks == [] then []
    else (if IsArrayIndex(ks[0]) then [] else [ks[0]]) + OtherKeys(ks[1..])
  }

  /** The order `Object.keys` and JSON output list keys created in the order ks. */
  function EnumerationOrder(ks: seq<string>): seq<string> {
    IndexKeys(ks) + OtherKeys(ks)
  }

  /**
   * Enumeration lists the same keys as creation order: the array indices
   * first and ascending, then the others in creation order; without array
   * indices it is creation order itself.
   */
  lemma EnumerationOrderFacts(ks: seq<string>)
    ensures forall x :: x in EnumerationOrder(ks) <==> x in ks
    ensures var n := |IndexKeys(ks)|;
      && AllIndices(EnumerationOrder(ks)[..n]) && Ascending(EnumerationOrder(ks)[..n])
      && EnumerationOrder(ks)[n..] == OtherKeys(ks)
    ensures (forall i :: 0 <= i < |ks| ==> !IsArrayIndex(ks[i])) ==> EnumerationOrder(ks) == ks
  {
    IndexKeysAscending(ks);
    var e := EnumerationOrder(ks);
    assert e[..|IndexKeys(ks)|] == IndexKeys(ks);
    if forall i :: 0 <= i < |ks| ==> !IsArrayIndex(ks[i]) {
      OtherKeysWithoutIndices(ks);
    }
  }

  lemma {:induction false} OtherKeysWithoutIndices(ks: seq<string>)
    requires forall i :: 0 <= i < |ks| ==> !IsArrayIndex(ks[i])
    ensures IndexKeys(ks) == [] && OtherKeys(ks) == ks
  {
    if ks != [] {
      assert !IsArrayIndex(ks[0]);
      OtherKeysWithoutIndices(ks[1..]);
    }
  }

  /** The body `{"name": .., "3": ..}` is listed with "3" first. */
  lemma IndexKeyListedFirst()
    ensures EnumerationOrder(["name", "3"]) == ["3", "name"]
  {
    assert IsArrayIndex("3") by {
      assert DigitsValue("3") == 3 by { assert "3"[..0] == []; }
    }
    assert !IsArrayIndex("name") by { assert !IsDigit('n'); }
    assert ["name", "3"][1..] == ["3"];
    assert IndexKeys(["3"]) == ["3"] by { assert ["3"][1..] == []; }
  }
}
