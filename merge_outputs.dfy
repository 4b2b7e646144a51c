/**
 * The merge loop of `parseStackOutputs`: resource-level pairs are added to
 * the stack-level outputs as `{ Value: v }`, failing on the first key that
 * is already present.
 */
module MergeOutputs {
  import opened Wrappers
  import opened JsonValues
  import opened NormaliseErrors

  /** `{ Value: v }`: resource-level outputs never use the export-name shorthand. */
  function Wrap(v: Json): Json
  {
    Obj([("Value", v)])
  }

  function WrapAll(pairs: Fields): (r: Fields)
    ensures |r| == |pairs| && Keys(r) == Keys(pairs)
    ensures forall i :: 0 <= i < |r| ==> r[i] == (pairs[i].0, Wrap(pairs[i].1))
    ensures (forall i :: 0 <= i < |pairs| ==> WellFormed(pairs[i].1)) ==> forall i :: 0 <= i < |r| ==> WellFormed(r[i].1)
  {
    seq(|pairs|, i requires 0 <= i < |pairs| => (pairs[i].0, Wrap(pairs[i].1)))
  }

  /**
   * Pair `j` hits a key that is already in the accumulated outputs: one of
   * the stack-level outputs or one of the earlier pairs.
   */
  predicate Collides(outputs: Fields, pairs: Fields, j: nat)
    requires j < |pairs|
  {
    HasKey(outputs, pairs[j].0) || HasKey(pairs[..j], pairs[j].0)
  }

  function FirstCollisionFrom(outputs: Fields, pairs: Fields, from: nat): (j: nat)
    requires from <= |pairs|
    ensures from <= j <= |pairs|
    ensures j < |pairs| ==> Collides(outputs, pairs, j)
    ensures forall i :: from <= i < j ==> !Collides(outputs, pairs, i)
    decreases |pairs| - from
  {
    if from == |pairs| then from
    else if Collides(outputs, pairs, from) then from
    else FirstCollisionFrom(outputs, pairs, from + 1)
  }

  /** Index of the first colliding pair, or `|pairs|` when the keys are all new. */
  function FirstCollision(outputs: Fields, pairs: Fields): (j: nat)
    ensures j <= |pairs|
    ensures j < |pairs| ==> Collides(outputs, pairs, j)
    ensures forall i :: 0 <= i < j ==> !Collides(outputs, pairs, i)
  {
    FirstCollisionFrom(outputs, pairs, 0)
  }

  /** A colliding pair repeats a key of the stack-level outputs or of an earlier pair. */
  lemma {:induction false} CollisionRepeatsKey(outputs: Fields, pairs: Fields, j: nat)
    requires j < |pairs| && Collides(outputs, pairs, j)
    ensures HasKey(pairs, pairs[j].0)
    ensures !DistinctKeys(outputs + pairs)
  {
    var m := outputs + pairs;
    assert Keys(pairs)[j] == pairs[j].0;
    assert m[|outputs| + j] == pairs[j];
    if HasKey(outputs, pairs[j].0) {
      var a :| 0 <= a < |outputs| && Keys(outputs)[a] == pairs[j].0;
      assert m[a] == outputs[a];
    } else {
      var a :| 0 <= a < j && Keys(pairs[..j])[a] == pairs[j].0;
      assert m[|outputs| + a] == pairs[a];
    }
  }

  /**
   * The outcome of the merge loop: a DuplicateKey error names a resource
   * output whose key is genuinely repeated; a success lists the stack-level
   * keys followed by the resource-level keys.
   */
  function Merged(outputs: Fields, pairs: Fields): (r: Result<Fields, NormaliseError>)
    ensures r.Err? ==> r.error.DuplicateKey? && HasKey(pairs, r.error.key)
    ensures r.Err? ==> !DistinctKeys(outputs + pairs)
    ensures r.Ok? ==> Keys(r.value) == Keys(outputs) + Keys(pairs)
  {
    var j := FirstCollision(outputs, pairs);
    if j < |pairs| then
      CollisionRepeatsKey(outputs, pairs, j);
      Err(DuplicateKey(pairs[j].0))
    else
      KeysAppend(outputs, WrapAll(pairs));
      Ok(outputs + WrapAll(pairs))
  }

  /** The `for (const resOp of resourceOutputs)` loop of `parseStackOutputs`. */
  method MergeResourceOutputs(stackOutputs: Fields, resourceOutputs: Fields)
    returns (r: Result<Fields, NormaliseError>)
    ensures r == Merged(stackOutputs, resourceOutputs)
  {
    var outputs := stackOutputs;
    var i := 0;
    while i < |resourceOutputs|
      invariant 0 <= i <= |resourceOutputs|
      invariant forall j :: 0 <= j < i ==> !Collides(stackOutputs, resourceOutputs, j)
      invariant outputs == stackOutputs + WrapAll(resourceOutputs[..i])
    {
      var (key, value) := resourceOutputs[i];
      MergeStep(stackOutputs, resourceOutputs, i);
      // every stored output is an object, so `outputs[key]` is truthy exactly when the key is present
      if HasKey(outputs, key) {
        assert FirstCollision(stackOutputs, resourceOutputs) == i;
        return Err(DuplicateKey(key));
      }
      outputs := outputs + [(key, Wrap(value))];
      i := i + 1;
    }
    assert resourceOutputs[..i] == resourceOutputs;
    assert FirstCollision(stackOutputs, resourceOutputs) == |resourceOutputs|;
    return Ok(outputs);
  }

  /**
   * Visiting pair `i` finds its key in the accumulated outputs exactly when
   * it collides, and otherwise appends it wrapped.
   */
  lemma {:induction false} MergeStep(outputs: Fields, pairs: Fields, i: nat)
    requires i < |pairs|
    ensures HasKey(outputs + WrapAll(pairs[..i]), pairs[i].0) <==> Collides(outputs, pairs, i)
    ensures (outputs + WrapAll(pairs[..i])) + [(pairs[i].0, Wrap(pairs[i].1))] == outputs + WrapAll(pairs[..i + 1])
  {
    KeysAppend(outputs, WrapAll(pairs[..i]));
    assert WrapAll(pairs[..i + 1]) == WrapAll(pairs[..i]) + [(pairs[i].0, Wrap(pairs[i].1))];
  }

  /** With no resource-level pairs the merge returns the stack-level outputs. */
  lemma MergedNothing(outputs: Fields)
    ensures Merged(outputs, []) == Ok(outputs)
  {
    assert WrapAll([]) == [];
    assert outputs + [] == outputs;
  }

  /** A successful merge keeps every stack-level output as it was. */
  lemma {:induction false} MergedKeepsStackOutputs(outputs: Fields, pairs: Fields, k: string)
    requires Merged(outputs, pairs).Ok? && HasKey(outputs, k)
    ensures Lookup(Merged(outputs, pairs).value, k) == Lookup(outputs, k)
  {
    LookupAppend(outputs, WrapAll(pairs), k);
  }

  /** After a merge without collision, every resource-level pair `(k, v)` is found as `{ Value: v }`. */
  lemma {:induction false} MergedHasResourceOutput(outputs: Fields, pairs: Fields, j: nat, p: (string, Json))
    requires FirstCollision(outputs, pairs) == |pairs| && j < |pairs| && pairs[j] == p
    ensures Lookup(outputs + WrapAll(pairs), p.0) == Some(Wrap(p.1))
  {
    var w := WrapAll(pairs);
    assert !Collides(outputs, pairs, j);
    LookupAppend(outputs, w, p.0);
    assert Keys(w[..j]) == Keys(pairs[..j]);
    LookupFirstAt(w, j);
  }

  /**
   * A successful merge yields distinct keys: the stack-level keys plus the
   * resource-level keys, which are new and pairwise different.
   */
  lemma {:induction false} MergedKeys(outputs: Fields, pairs: Fields)
    requires Merged(outputs, pairs).Ok?
    ensures Keys(Merged(outputs, pairs).value) == Keys(outputs) + Keys(pairs)
    ensures forall j :: 0 <= j < |pairs| ==> !HasKey(outputs, pairs[j].0)
    ensures DistinctKeys(outputs) ==> DistinctKeys(Merged(outputs, pairs).value)
  {
    var m := outputs + WrapAll(pairs);
    KeysAppend(outputs, WrapAll(pairs));
    forall j | 0 <= j < |pairs| ensures !HasKey(outputs, pairs[j].0) {
      assert !Collides(outputs, pairs, j);
    }
    if DistinctKeys(outputs) {
      forall a, b | 0 <= a < b < |m| ensures m[a].0 != m[b].0 {
        var kb := b - |outputs|;
        if a < |outputs| && b >= |outputs| {
          assert !Collides(outputs, pairs, kb);
          assert Keys(outputs)[a] == m[a].0;
        } else if a >= |outputs| {
          assert !Collides(outputs, pairs, kb);
          assert Keys(pairs[..kb])[a - |outputs|] == m[a].0;
        }
      }
    }
  }

  /** A successful merge of well-formed outputs and well-formed pair values is a well-formed object. */
  lemma {:induction false} MergedWellFormed(outputs: Fields, pairs: Fields)
    requires Merged(outputs, pairs).Ok? && WellFormedFields(outputs)
    requires forall i :: 0 <= i < |pairs| ==> WellFormed(pairs[i].1)
    ensures WellFormedFields(Merged(outputs, pairs).value)
  {
    MergedKeys(outputs, pairs);
    var w := WrapAll(pairs);
    forall i | 0 <= i < |outputs + w| ensures WellFormed((outputs + w)[i].1) {
      if i >= |outputs| {
        assert (outputs + w)[i] == w[i - |outputs|];
      }
    }
  }

  /** Merging the first colliding pair fails with a DuplicateKey error that names its key. */
  lemma {:induction false} MergedReportsFirstCollision(outputs: Fields, pairs: Fields, j: nat)
    requires j < |pairs| && Collides(outputs, pairs, j)
    requires forall i :: 0 <= i < j ==> !Collides(outputs, pairs, i)
    ensures Merged(outputs, pairs) == Err(DuplicateKey(pairs[j].0))
  {
  }

  /**
   * The names every plain object inherits from `Object.prototype`; reading
   * any of them on `{}` yields a function or an object, both truthy.
   */
  const InheritedNames: set<string> := {
    "constructor", "hasOwnProperty", "isPrototypeOf", "propertyIsEnumerable",
    "toLocaleString", "toString", "valueOf", "__proto__",
    "__defineGetter__", "__defineSetter__", "__lookupGetter__", "__lookupSetter__"}

  /** The guard `if (outputs[resOp.key])` as written: inherited names are truthy too. */
  predicate CollidesAsWritten(outputs: Fields, pairs: Fields, j: nat)
    requires j < |pairs|
  {
    Collides(outputs, pairs, j) || pairs[j].0 in InheritedNames
  }

  function FirstTruthyFrom(outputs: Fields, pairs: Fields, from: nat): (j: nat)
    requires from <= |pairs|
    ensures from <= j <= |pairs|
    ensures j < |pairs| ==> CollidesAsWritten(outputs, pairs, j)
    ensures forall i :: from <= i < j ==> !CollidesAsWritten(outputs, pairs, i)
    decreases |pairs| - from
  {
    if from == |pairs| then from
    else if CollidesAsWritten(outputs, pairs, from) then from
    else FirstTruthyFrom(outputs, pairs, from + 1)
  }

  /**
   * The merge loop as written, with the inherited-name truthiness of its
   * guard. It reports every duplicate the intended merge reports, and
   * differs from it only by failing more often.
   */
  function MergedAsWritten(outputs: Fields, pairs: Fields): (r: Result<Fields, NormaliseError>)
    ensures r.Err? ==> r.error.DuplicateKey? && HasKey(pairs, r.error.key)
    ensures Merged(outputs, pairs).Err? ==> r.Err?
    ensures r.Ok? ==> r == Merged(outputs, pairs)
  {
    var j := FirstTruthyFrom(outputs, pairs, 0);
    if j < |pairs| then
      assert Keys(pairs)[j] == pairs[j].0;
      Err(DuplicateKey(pairs[j].0))
    else
      assert FirstCollision(outputs, pairs) == |pairs| by {
        var a := FirstCollision(outputs, pairs);
        if a < |pairs| {
          assert CollidesAsWritten(outputs, pairs, a);
        }
      }
      Ok(outputs + WrapAll(pairs))
  }

  /**
   * A resource output named `constructor` is reported as a duplicate by the
   * merge as written, although no output of that name exists; the intended
   * merge installs it.
   */
  lemma InheritedNameReportedAsDuplicate(v: Json)
    ensures MergedAsWritten([], [("constructor", v)]) == Err(DuplicateKey("constructor"))
    ensures Merged([], [("constructor", v)]) == Ok([("constructor", Wrap(v))])
  {
    var pairs := [("constructor", v)];
    assert CollidesAsWritten([], pairs, 0);
    assert pairs[..0] == [];
    assert !Collides([], pairs, 0);
    assert [] + WrapAll(pairs) == [("constructor", Wrap(v))];
  }

  /** Away from inherited names the merge as written and the intended merge agree. */
  lemma {:induction false} MergedAsWrittenAgrees(outputs: Fields, pairs: Fields)
    requires forall j :: 0 <= j < |pairs| ==> pairs[j].0 !in InheritedNames
    ensures MergedAsWritten(outputs, pairs) == Merged(outputs, pairs)
  {
    var a, b := FirstCollision(outputs, pairs), FirstTruthyFrom(outputs, pairs, 0);
    if a < b {
      assert CollidesAsWritten(outputs, pairs, a);
    }
  }
}
