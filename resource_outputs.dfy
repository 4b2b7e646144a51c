/**
 * Resource-level extraction: what `parseResourceOutputs` collects from the
 * non-standard `Outputs` property of each resource and what the resources
 * look like once that property has been deleted.
 */
module ResourceOutputs {
  import opened Wrappers
  import opened JsonValues
  import opened NormaliseErrors

  /**
   * `Object.keys(v)` paired with the values, for a value that passed
   * `typeof v === 'object'` and is not null: an object's own properties, or
   * an array's indices written in decimal.
   */
  function Members(v: Json): (ms: Fields)
    requires v.Obj? || v.Arr?
    ensures v.Arr? ==> |ms| == |v.items| && forall i :: 0 <= i < |ms| ==> ms[i].1 == v.items[i]
    ensures WellFormed(v) ==> forall i :: 0 <= i < |ms| ==> WellFormed(ms[i].1)
  {
    if v.Obj? then v.fields
    else seq(|v.items|, i requires 0 <= i < |v.items| => (NatToString(i), v.items[i]))
  }

  /**
   * The resource makes the extraction loop throw a TypeError: a `null`
   * resource fails on `hasOwnProperty`, a `null` `Outputs` on `Object.keys`.
   */
  predicate Crashes(r: Json)
  {
    r.Null? || (r.Obj? && Lookup(r.fields, "Outputs") == Some(Null))
  }

  /** The resource has an own `Outputs` property that is a non-null object or an array. */
  predicate CarriesOutputs(r: Json)
  {
    r.Obj? && Lookup(r.fields, "Outputs").Some?
    && (Lookup(r.fields, "Outputs").value.Obj? || Lookup(r.fields, "Outputs").value.Arr?)
  }

  /** The `{ key, value }` pairs one resource contributes, in its own declaration order. */
  function OutputsOf(r: Json): Fields
  {
    if CarriesOutputs(r) then Members(Lookup(r.fields, "Outputs").value) else []
  }

  /** The resource after `delete Resources[key].Outputs`, when the loop deletes it. */
  function Strip(r: Json): (s: Json)
    ensures CarriesOutputs(r) ==> s.Obj? && !HasKey(s.fields, "Outputs")
    ensures CarriesOutputs(r) ==> forall k :: k != "Outputs" ==> Lookup(s.fields, k) == Lookup(r.fields, k)
    ensures !CarriesOutputs(r) ==> s == r
    ensures !CarriesOutputs(s) && (Crashes(s) <==> Crashes(r))
    ensures r.Obj? && DistinctKeys(r.fields) ==> s.Obj? && DistinctKeys(s.fields)
    ensures WellFormed(r) ==> WellFormed(s)
  {
    if CarriesOutputs(r) then
      RemoveKeyShape(r.fields, "Outputs");
      Obj(RemoveKey(r.fields, "Outputs"))
    else r
  }

  /** Index of the first resource the loop throws on, or `|res|`. */
  function FirstCrash(res: Fields): (c: nat)
    ensures c <= |res|
    ensures c < |res| ==> Crashes(res[c].1)
    ensures forall j :: 0 <= j < c ==> !Crashes(res[j].1)
  {
    if res == [] then 0
    else if Crashes(res[0].1) then 0
    else 1 + FirstCrash(res[1..])
  }

  /** The `Resources` object once the first `n` resources have been visited. */
  function StripUpTo(res: Fields, n: nat): (r: Fields)
    requires n <= |res|
    ensures |r| == |res| && Keys(r) == Keys(res)
  {
    seq(|res|, i requires 0 <= i < |res| => if i < n then (res[i].0, Strip(res[i].1)) else res[i])
  }

  /** Every resource's pairs, resources in declaration order. */
  function AllPairs(res: Fields): Fields
  {
    if res == [] then [] else OutputsOf(res[0].1) + AllPairs(res[1..])
  }

  /**
   * The loop of `parseResourceOutputs`: either the collected pairs, or the
   * TypeError of the first crashing resource; in both cases the resources as
   * left behind (those visited before a crash have lost their `Outputs`).
   */
  function Extract(res: Fields): (out: (Result<Fields, NormaliseError>, Fields))
    ensures Keys(out.1) == Keys(res)
    ensures out.0.Err? ==> out.0.error == TypeError
    ensures out.0.Ok? <==> forall i :: 0 <= i < |res| ==> !Crashes(res[i].1)
    ensures out.0.Ok? ==> forall i :: 0 <= i < |out.1| ==> !CarriesOutputs(out.1[i].1)
  {
    var c := FirstCrash(res);
    (if c < |res| then Err(TypeError) else Ok(AllPairs(res)), StripUpTo(res, c))
  }

  /** Visiting resource `i` collects its pairs ahead of the later resources'. */
  lemma {:induction false} AllPairsStep(res: Fields, i: nat)
    requires i < |res|
    ensures AllPairs(res[i..]) == OutputsOf(res[i].1) + AllPairs(res[i + 1..])
  {
    assert res[i..][0] == res[i];
    assert res[i..][1..] == res[i + 1..];
  }

  /** The pairs collected before resource `i`, followed by its own, are those collected before resource `i + 1`. */
  lemma {:induction false} CollectStep(res: Fields, i: nat, collected: Fields)
    requires i < |res| && collected + AllPairs(res[i..]) == AllPairs(res)
    ensures (collected + OutputsOf(res[i].1)) + AllPairs(res[i + 1..]) == AllPairs(res)
  {
    AllPairsStep(res, i);
    Reassociate(collected, OutputsOf(res[i].1), AllPairs(res[i + 1..]));
  }


  /** Visiting resource `i` strips it and nothing else. */
  lemma {:induction false} StripStep(res: Fields, i: nat)
    requires i < |res|
    ensures StripUpTo(res, i + 1) == StripUpTo(res, i)[i := (res[i].0, Strip(res[i].1))]
  {
  }

  /** Extraction over two runs of resources collects the first run's pairs first. */
  lemma {:induction false} AllPairsAppend(a: Fields, b: Fields)
    ensures AllPairs(a + b) == AllPairs(a) + AllPairs(b)
  {
    if a == [] {
      assert a + b == b;
    } else {
      assert (a + b)[0] == a[0];
      assert (a + b)[1..] == a[1..] + b;
      AllPairsAppend(a[1..], b);
    }
  }

  /** The pairs of resource `i` sit between those of the resources before and after it. */
  lemma {:induction false} AllPairsSplit(res: Fields, i: nat)
    requires i < |res|
    ensures AllPairs(res) == AllPairs(res[..i]) + OutputsOf(res[i].1) + AllPairs(res[i + 1..])
  {
    var rest := [res[i]] + res[i + 1..];
    assert res == res[..i] + rest;
    AllPairsAppend(res[..i], rest);
    assert rest[1..] == res[i + 1..];
    assert AllPairs(rest) == OutputsOf(res[i].1) + AllPairs(res[i + 1..]);
  }

  /**
   * Pair `j` of resource `i` is collected at position `at`, after every pair
   * of the resources before it.
   */
  lemma {:induction false} AllPairsAt(res: Fields, i: nat, j: nat) returns (at: nat)
    requires i < |res| && j < |OutputsOf(res[i].1)|
    ensures at == |AllPairs(res[..i])| + j
    ensures at < |AllPairs(res)| && AllPairs(res)[at] == OutputsOf(res[i].1)[j]
  {
    var before, own, after := AllPairs(res[..i]), OutputsOf(res[i].1), AllPairs(res[i + 1..]);
    AllPairsSplit(res, i);
    at := |before| + j;
    assert AllPairs(res) == before + own + after;
    assert (before + own + after)[at] == own[j];
  }

  /** A well-formed resource contributes pairs with well-formed values. */
  lemma OutputsOfWellFormed(r: Json)
    requires WellFormed(r)
    ensures ValuesWellFormed(OutputsOf(r))
  {
    if CarriesOutputs(r) {
      LookupWellFormed(r.fields, "Outputs");
    }
  }

  /** The pairs collected from well-formed resources hold well-formed values. */
  lemma {:induction false} AllPairsWellFormed(res: Fields)
    requires ValuesWellFormed(res)
    ensures ValuesWellFormed(AllPairs(res))
  {
    if res != [] {
      assert ValuesWellFormed(res[1..]) by {
        assert forall i :: 0 <= i < |res| - 1 ==> res[1..][i] == res[i + 1];
      }
      AllPairsWellFormed(res[1..]);
      OutputsOfWellFormed(res[0].1);
      ValuesWellFormedAppend(OutputsOf(res[0].1), AllPairs(res[1..]));
    }
  }

  /** Deleting `Outputs` keeps a well-formed `Resources` object well-formed. */
  lemma StripUpToWellFormed(res: Fields, n: nat)
    requires n <= |res| && WellFormedFields(res)
    ensures WellFormedFields(StripUpTo(res, n))
  {
    var r := StripUpTo(res, n);
    assert forall i :: 0 <= i < |r| ==> r[i].0 == Keys(res)[i];
  }

  /** Resources none of which carries `Outputs` contribute no pairs. */
  lemma {:induction false} NoOutputsNoPairs(res: Fields)
    requires forall i :: 0 <= i < |res| ==> !CarriesOutputs(res[i].1)
    ensures AllPairs(res) == []
  {
    if res != [] {
      assert forall i :: 0 <= i < |res| - 1 ==> res[1..][i] == res[i + 1];
      NoOutputsNoPairs(res[1..]);
    }
  }

  /**
   * A second extraction over resources that a successful one left behind
   * finds nothing and changes nothing.
   */
  lemma ExtractStripped(res: Fields)
    requires FirstCrash(res) == |res|
    ensures Extract(StripUpTo(res, |res|)) == (Ok([]), StripUpTo(res, |res|))
  {
    var stripped := StripUpTo(res, |res|);
    forall i | 0 <= i < |stripped|
      ensures !Crashes(stripped[i].1) && !CarriesOutputs(stripped[i].1)
    {
      assert stripped[i].1 == Strip(res[i].1);
    }
    NoOutputsNoPairs(stripped);
    assert StripUpTo(stripped, |stripped|) == stripped;
  }
}
