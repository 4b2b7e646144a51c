/**
 * The JSON-like values the host hands to the plugin. An object keeps its keys
 * in declaration order (the order `Object.keys` reports), so it is a sequence
 * of key/value pairs rather than a map.
 */
module JsonValues {
  import opened Wrappers

  datatype Json =
    | Str(s: string)
    | Num(n: int)
    | Bool(b: bool)
    | Null
    | Arr(items: seq<Json>)
    | Obj(fields: seq<(string, Json)>)

  /** The own properties of an object, in declaration order. */
  type Fields = seq<(string, Json)>

  function Keys(fs: Fields): (ks: seq<string>)
    ensures |ks| == |fs|
    ensures forall i :: 0 <= i < |fs| ==> ks[i] == fs[i].0
  {
    seq(|fs|, i requires 0 <= i < |fs| => fs[i].0)
  }

  /** `hasOwnProperty(k)` */
  predicate HasKey(fs: Fields, k: string)
  {
    k in Keys(fs)
  }

  /** The keys of a real object are pairwise different. */
  predicate DistinctKeys(fs: Fields)
  {
    forall i, j :: 0 <= i < j < |fs| ==> fs[i].0 != fs[j].0
  }

  /** Every object inside the value, at any depth, has distinct keys, as real objects do. */
  predicate WellFormed(j: Json)
  {
    match j
    case Arr(items) => forall i :: 0 <= i < |items| ==> WellFormed(items[i])
    case Obj(fs) => DistinctKeys(fs) && forall i :: 0 <= i < |fs| ==> WellFormed(fs[i].1)
    case _ => true
  }

  /** The own properties of a well-formed object. */
  predicate WellFormedFields(fs: Fields)
  {
    DistinctKeys(fs) && forall i :: 0 <= i < |fs| ==> WellFormed(fs[i].1)
  }

  /** Every property value is well-formed; the keys may repeat. */
  predicate ValuesWellFormed(fs: Fields)
  {
    forall i :: 0 <= i < |fs| ==> WellFormed(fs[i].1)
  }

  lemma ValuesWellFormedAppend(a: Fields, b: Fields)
    requires ValuesWellFormed(a) && ValuesWellFormed(b)
    ensures ValuesWellFormed(a + b)
  {
    forall i | 0 <= i < |a + b| ensures WellFormed((a + b)[i].1) {
      if i >= |a| {
        assert (a + b)[i] == b[i - |a|];
      }
    }
  }

  /** Property access `o[k]` on an object's own properties. */
  function Lookup(fs: Fields, k: string): (r: Option<Json>)
    ensures r.Some? <==> HasKey(fs, k)
  {
    if fs == [] then None
    else
      assert Keys(fs) == [fs[0].0] + Keys(fs[1..]);
      if fs[0].0 == k then Some(fs[0].1) else Lookup(fs[1..], k)
  }

  /** A property read on an object whose values are well-formed yields a well-formed value. */
  lemma {:induction false} LookupWellFormed(fs: Fields, k: string)
    requires forall i :: 0 <= i < |fs| ==> WellFormed(fs[i].1)
    ensures Lookup(fs, k).Some? ==> WellFormed(Lookup(fs, k).value)
  {
    if fs != [] && fs[0].0 != k {
      assert forall i :: 0 <= i < |fs| - 1 ==> fs[1..][i] == fs[i + 1];
      LookupWellFormed(fs[1..], k);
    }
  }

  lemma KeysAppend(a: Fields, b: Fields)
    ensures Keys(a + b) == Keys(a) + Keys(b)
  {
  }

  lemma HasKeyAppend(a: Fields, b: Fields, k: string)
    ensures HasKey(a + b, k) <==> HasKey(a, k) || HasKey(b, k)
  {
    KeysAppend(a, b);
  }

  lemma HasKeyCons(fs: Fields, k: string)
    requires fs != []
    ensures HasKey(fs, k) <==> fs[0].0 == k || HasKey(fs[1..], k)
  {
    assert Keys(fs) == [fs[0].0] + Keys(fs[1..]);
  }

  /** Looking a key up in a concatenation finds the first part's binding first. */
  lemma {:induction false} LookupAppend(a: Fields, b: Fields, k: string)
    ensures Lookup(a + b, k) == if HasKey(a, k) then Lookup(a, k) else Lookup(b, k)
  {
    if a != [] {
      assert (a + b)[0] == a[0];
      assert (a + b)[1..] == a[1..] + b;
      HasKeyCons(a, k);
      if a[0].0 != k {
        LookupAppend(a[1..], b, k);
      }
    } else {
      assert a + b == b;
    }
  }

  /** A pair whose key does not occur earlier is what its key looks up. */
  lemma {:induction false} LookupFirstAt(fs: Fields, j: nat)
    requires j < |fs| && !HasKey(fs[..j], fs[j].0)
    ensures Lookup(fs, fs[j].0) == Some(fs[j].1)
  {
    assert fs == fs[..j] + fs[j..];
    LookupAppend(fs[..j], fs[j..], fs[j].0);
    assert fs[j..][0] == fs[j];
  }

  /** In an object with distinct keys, every pair is what its key looks up. */
  lemma {:induction false} LookupAt(fs: Fields, i: nat)
    requires DistinctKeys(fs) && i < |fs|
    ensures Lookup(fs, fs[i].0) == Some(fs[i].1)
  {
    if i > 0 {
      assert DistinctKeys(fs[1..]);
      LookupAt(fs[1..], i - 1);
    }
  }

  /** The first key of an object with distinct keys does not occur again. */
  lemma FirstKeyNotInRest(fs: Fields)
    requires DistinctKeys(fs) && fs != []
    ensures !HasKey(fs[1..], fs[0].0) && DistinctKeys(fs[1..])
  {
    forall j | 0 <= j < |fs| - 1 ensures Keys(fs[1..])[j] != fs[0].0 {
      assert fs[1..][j] == fs[j + 1];
    }
  }

  /** Prepending a pair whose key is new keeps the keys distinct. */
  lemma ConsDistinct(p: (string, Json), fs: Fields)
    requires DistinctKeys(fs) && !HasKey(fs, p.0)
    ensures DistinctKeys([p] + fs)
  {
    var r := [p] + fs;
    forall i, j | 0 <= i < j < |r| ensures r[i].0 != r[j].0 {
      if i == 0 {
        assert Keys(fs)[j - 1] == r[j].0;
      }
    }
  }

  /** The properties after the first of a well-formed object form a well-formed object. */
  lemma WellFormedTail(fs: Fields)
    requires WellFormedFields(fs) && fs != []
    ensures WellFormedFields(fs[1..]) && WellFormed(fs[0].1)
  {
    FirstKeyNotInRest(fs);
    forall i | 0 <= i < |fs| - 1 ensures WellFormed(fs[1..][i].1) {
      assert fs[1..][i] == fs[i + 1];
    }
  }

  /** Prepending a well-formed pair with a new key to a well-formed object keeps it well-formed. */
  lemma WellFormedCons(p: (string, Json), fs: Fields)
    requires WellFormedFields(fs) && WellFormed(p.1) && !HasKey(fs, p.0)
    ensures WellFormedFields([p] + fs)
  {
    ConsDistinct(p, fs);
    forall i | 0 <= i < |[p] + fs| ensures WellFormed(([p] + fs)[i].1) {
      if i > 0 {
        assert ([p] + fs)[i] == fs[i - 1];
      }
    }
  }

  /** `delete o[k]`: the object without its own property `k`. */
  function RemoveKey(fs: Fields, k: string): (r: Fields)
    ensures !HasKey(r, k)
    ensures forall k' :: k' != k ==> Lookup(r, k') == Lookup(fs, k')
  {
    if fs == [] then []
    else
      var rest := RemoveKey(fs[1..], k);
      assert Keys(fs) == [fs[0].0] + Keys(fs[1..]);
      if fs[0].0 == k then rest
      else
        assert Keys([fs[0]] + rest) == [fs[0].0] + Keys(rest);
        [fs[0]] + rest
  }

  /**
   * Deleting a property leaves only keys that were there, so distinct keys
   * stay distinct and a well-formed object stays well-formed.
   */
  lemma {:induction false} RemoveKeyShape(fs: Fields, k: string)
    ensures forall k' :: HasKey(RemoveKey(fs, k), k') ==> HasKey(fs, k')
    ensures DistinctKeys(fs) ==> DistinctKeys(RemoveKey(fs, k))
    ensures WellFormedFields(fs) ==> WellFormedFields(RemoveKey(fs, k))
  {
    if fs != [] {
      var rest := RemoveKey(fs[1..], k);
      RemoveKeyShape(fs[1..], k);
      if fs[0].0 != k {
        assert RemoveKey(fs, k) == [fs[0]] + rest;
        forall k' | HasKey([fs[0]] + rest, k') ensures HasKey(fs, k') {
          HasKeyCons([fs[0]] + rest, k');
          assert ([fs[0]] + rest)[1..] == rest;
          HasKeyCons(fs, k');
        }
        if DistinctKeys(fs) {
          FirstKeyNotInRest(fs);
          ConsDistinct(fs[0], rest);
        }
        if WellFormedFields(fs) {
          WellFormedTail(fs);
          WellFormedCons(fs[0], rest);
        }
      } else {
        forall k' | HasKey(rest, k') ensures HasKey(fs, k') {
          HasKeyCons(fs, k');
        }
        if DistinctKeys(fs) {
          FirstKeyNotInRest(fs);
        }
        if WellFormedFields(fs) {
          WellFormedTail(fs);
        }
      }
    }
  }

  /** Appending is associative; stated on property lists so callers need not unfold anything. */
  lemma Reassociate(a: Fields, b: Fields, c: Fields)
    ensures a + (b + c) == (a + b) + c
  {
  }

  /** The decimal digits of `n`, as `Object.keys` names an array index. */
  function NatToString(n: nat): string
  {
    if n < 10 then ["0123456789"[n]]
    else NatToString(n / 10) + ["0123456789"[n % 10]]
  }
}
