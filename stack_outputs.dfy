/**
 * Stack-level classification: the first loop of `parseStackOutputs`, which
 * turns every entry of the template's `Outputs` object into the canonical
 * `{ Value, Export?: { Name } }` shape, drops unsupported ones and rejects
 * malformed shorthand exports.
 */
module StackOutputs {
  import opened Wrappers
  import opened JsonValues
  import opened NormaliseErrors

  /** The CloudFormation output shape: an object with an own `Value` or `Export` property. */
  predicate IsCanonical(v: Json)
  {
    v.Obj? && (HasKey(v.fields, "Value") || HasKey(v.fields, "Export"))
  }

  predicate AllCanonical(fs: Fields)
  {
    forall i :: 0 <= i < |fs| ==> IsCanonical(fs[i].1)
  }

  /** What classification does with one stack output. */
  datatype Decision = Keep(entry: Json) | Drop | Reject(error: NormaliseError)

  /**
   * The per-entry decision. `null` passes the `typeof === 'object'` test and
   * then fails on `hasOwnProperty`, a TypeError.
   */
  function Classify(v: Json): (d: Decision)
    ensures d.Keep? ==> IsCanonical(d.entry)
    ensures d == Keep(v) <==> IsCanonical(v)
    ensures d.Keep? && WellFormed(v) ==> WellFormed(d.entry)
    ensures d == Reject(TypeError) <==> v.Null?
    ensures d == Reject(ShapeError) <==> v.Obj? && !IsCanonical(v) && |v.fields| != 1
    ensures d.Reject? ==> d == Reject(TypeError) || d == Reject(ShapeError)
  {
    match v
    case Obj(fs) =>
      if HasKey(fs, "Value") || HasKey(fs, "Export") then Keep(v)
      else if |fs| != 1 then Reject(ShapeError)
      else
        var shorthand := Obj([("Export", Obj([("Name", Str(fs[0].0))])), ("Value", fs[0].1)]);
        assert Keys(shorthand.fields)[1] == "Value";
        assert DistinctKeys(shorthand.fields) by {
          assert Keys(shorthand.fields) == ["Export", "Value"];
        }
        assert WellFormed(shorthand.fields[0].1);
        Keep(shorthand)
    case Str(_) =>
      var wrapped := Obj([("Value", v)]);
      assert Keys(wrapped.fields)[0] == "Value";
      Keep(wrapped)
    case Null => Reject(TypeError)
    case _ => Drop
  }

  /** Index of the first entry classification throws on, or `|fs|` if there is none. */
  function FirstRejected(fs: Fields): (i: nat)
    ensures i <= |fs|
    ensures i < |fs| ==> Classify(fs[i].1).Reject?
    ensures forall j :: 0 <= j < i ==> !Classify(fs[j].1).Reject?
  {
    if fs == [] then 0
    else if Classify(fs[0].1).Reject? then 0
    else 1 + FirstRejected(fs[1..])
  }

  /** What one entry contributes to the new outputs: its classified form, or nothing. */
  function KeptEntry(p: (string, Json)): Fields
  {
    match Classify(p.1)
    case Keep(e) => [(p.0, e)]
    case _ => []
  }

  /** The entries classification keeps, in their original order. */
  function Kept(fs: Fields): Fields
  {
    if fs == [] then [] else KeptEntry(fs[0]) + Kept(fs[1..])
  }

  /** Classification never adds entries. */
  lemma {:induction false} KeptLength(fs: Fields)
    ensures |Kept(fs)| <= |fs|
  {
    if fs != [] {
      KeptLength(fs[1..]);
    }
  }

  /** Visiting entry `i` appends its contribution to those of the entries before it. */
  lemma {:induction false} KeptStep(fs: Fields, i: nat, outputs: Fields)
    requires i < |fs| && outputs + Kept(fs[i..]) == Kept(fs)
    ensures (outputs + KeptEntry(fs[i])) + Kept(fs[i + 1..]) == Kept(fs)
  {
    assert Kept(fs[i..]) == KeptEntry(fs[i]) + Kept(fs[i + 1..]) by {
      assert fs[i..][0] == fs[i];
      assert fs[i..][1..] == fs[i + 1..];
    }
    Reassociate(outputs, KeptEntry(fs[i]), Kept(fs[i + 1..]));
  }

  /** The outcome of the classification loop: the first rejection, or every kept entry. */
  function ClassifyStack(fs: Fields): (r: Result<Fields, NormaliseError>)
    ensures r.Err? ==> r.error == ShapeError || r.error == TypeError
    ensures r.Ok? ==> AllCanonical(r.value) && |r.value| <= |fs|
    ensures r.Ok? && DistinctKeys(fs) ==> DistinctKeys(r.value)
  {
    var i := FirstRejected(fs);
    if i < |fs| then Err(Classify(fs[i].1).error)
    else
      KeptShape(fs);
      KeptLength(fs);
      Ok(Kept(fs))
  }

  /** What an entry found under a key becomes after classification. */
  function Retained(o: Option<Json>): Option<Json>
  {
    match o
    case Some(v) => if Classify(v).Keep? then Some(Classify(v).entry) else None
    case None => None
  }

  /** The `Object.keys(originalOutputs).forEach` loop of `parseStackOutputs`. */
  method ClassifyStackOutputs(originalOutputs: Fields) returns (r: Result<Fields, NormaliseError>)
    ensures r == ClassifyStack(originalOutputs)
  {
    var outputs: Fields := [];
    var i := 0;
    while i < |originalOutputs|
      invariant 0 <= i <= |originalOutputs|
      invariant forall j :: 0 <= j < i ==> !Classify(originalOutputs[j].1).Reject?
      invariant outputs + Kept(originalOutputs[i..]) == Kept(originalOutputs)
    {
      var (key, value) := originalOutputs[i];
      KeptStep(originalOutputs, i, outputs);
      match Classify(value) {
        case Keep(entry) =>
          assert KeptEntry(originalOutputs[i]) == [(key, entry)];
          outputs := outputs + [(key, entry)];
        case Drop =>
          assert outputs + KeptEntry(originalOutputs[i]) == outputs;
        case Reject(error) =>
          return Err(error);
      }
      i := i + 1;
    }
    assert originalOutputs[i..] == [];
    assert Kept(originalOutputs[i..]) == [];
    assert outputs == Kept(originalOutputs);
    assert FirstRejected(originalOutputs) == |originalOutputs|;
    return Ok(outputs);
  }

  /**
   * On an object with distinct keys, the kept entries answer every lookup
   * with the classified form of the original entry, and nothing else.
   */
  lemma {:induction false} KeptLookup(fs: Fields, k: string)
    requires DistinctKeys(fs)
    ensures Lookup(Kept(fs), k) == Retained(Lookup(fs, k))
  {
    if fs != [] {
      var head := KeptEntry(fs[0]);
      assert Kept(fs) == head + Kept(fs[1..]);
      LookupAppend(head, Kept(fs[1..]), k);
      FirstKeyNotInRest(fs);
      KeptLookup(fs[1..], k);
      HasKeyCons(fs, k);
      if head != [] {
        HasKeyCons(head, k);
        assert head[1..] == [];
      }
    }
  }

  /** Classification keeps a subset of the keys, in order, so distinct keys stay distinct; all kept entries are canonical. */
  lemma {:induction false} KeptShape(fs: Fields)
    ensures forall k :: HasKey(Kept(fs), k) ==> HasKey(fs, k)
    ensures DistinctKeys(fs) ==> DistinctKeys(Kept(fs))
    ensures AllCanonical(Kept(fs))
    ensures WellFormedFields(fs) ==> WellFormedFields(Kept(fs))
  {
    if fs != [] {
      KeptShape(fs[1..]);
      var head, rest := KeptEntry(fs[0]), Kept(fs[1..]);
      assert Kept(fs) == head + rest;
      forall k | HasKey(head + rest, k) ensures HasKey(fs, k) {
        HasKeyAppend(head, rest, k);
        HasKeyCons(fs, k);
        if head != [] {
          HasKeyCons(head, k);
          assert head[1..] == [];
        }
      }
      if DistinctKeys(fs) {
        FirstKeyNotInRest(fs);
        if head != [] {
          ConsDistinct(head[0], rest);
          assert head == [head[0]];
        }
      }
      forall i | 0 <= i < |head + rest| ensures IsCanonical((head + rest)[i].1) {
        if i >= |head| {
          assert (head + rest)[i] == rest[i - |head|];
        }
      }
      if WellFormedFields(fs) {
        WellFormedTail(fs);
        ValuesWellFormedAppend(head, rest);
      }
    }
  }

  /** Classification succeeds exactly when no entry is `null` or a malformed shorthand. */
  lemma ClassifyStackSucceeds(fs: Fields)
    ensures ClassifyStack(fs).Ok? <==> forall j :: 0 <= j < |fs| ==> !Classify(fs[j].1).Reject?
    ensures ClassifyStack(fs).Ok? <==>
      forall j :: 0 <= j < |fs| ==> !(fs[j].1.Null? || (fs[j].1.Obj? && !IsCanonical(fs[j].1) && |fs[j].1.fields| != 1))
  {
  }

  /** A string entry `k: v` becomes exactly `{ Value: v }`, with no `Export`. */
  lemma StringOutputWrapped(fs: Fields, k: string, v: string)
    requires DistinctKeys(fs) && ClassifyStack(fs).Ok?
    requires Lookup(fs, k) == Some(Str(v))
    ensures Lookup(ClassifyStack(fs).value, k) == Some(Obj([("Value", Str(v))]))
    ensures !HasKey(Lookup(ClassifyStack(fs).value, k).value.fields, "Export")
  {
    KeptLookup(fs, k);
    HasKeyCons([("Value", Str(v))], "Export");
  }

  /** An entry that already has an own `Value` or `Export` is copied unchanged, other keys included. */
  lemma CanonicalOutputUnchanged(fs: Fields, k: string, v: Json)
    requires DistinctKeys(fs) && ClassifyStack(fs).Ok?
    requires Lookup(fs, k) == Some(v) && IsCanonical(v)
    ensures Lookup(ClassifyStack(fs).value, k) == Some(v)
  {
    KeptLookup(fs, k);
  }

  /** A non-canonical one-pair object `k: { n: v }` becomes `{ Export: { Name: n }, Value: v }`. */
  lemma ShorthandOutputExported(fs: Fields, k: string, n: string, v: Json)
    requires DistinctKeys(fs) && ClassifyStack(fs).Ok?
    requires Lookup(fs, k) == Some(Obj([(n, v)])) && n != "Value" && n != "Export"
    ensures Lookup(ClassifyStack(fs).value, k) == Some(Obj([("Export", Obj([("Name", Str(n))])), ("Value", v)]))
  {
    var exported := Obj([("Export", Obj([("Name", Str(n))])), ("Value", v)]);
    assert Classify(Obj([(n, v)])) == Keep(exported) by {
      HasKeyCons([(n, v)], "Value");
      HasKeyCons([(n, v)], "Export");
    }
    assert ClassifyStack(fs) == Ok(Kept(fs));
    KeptLookup(fs, k);
  }

  /** Arrays, numbers and booleans are silently left out of the result. */
  lemma UnsupportedOutputOmitted(fs: Fields, k: string, v: Json)
    requires DistinctKeys(fs) && ClassifyStack(fs).Ok?
    requires Lookup(fs, k) == Some(v) && (v.Arr? || v.Num? || v.Bool?)
    ensures !HasKey(ClassifyStack(fs).value, k)
  {
    KeptLookup(fs, k);
  }

  /**
   * A non-canonical object entry with zero or several pairs makes
   * classification fail; it is the ShapeError unless an earlier entry already failed.
   */
  lemma MalformedShorthandRejected(fs: Fields, i: nat)
    requires i < |fs| && fs[i].1.Obj? && !IsCanonical(fs[i].1) && |fs[i].1.fields| != 1
    ensures ClassifyStack(fs).Err?
    ensures (forall j :: 0 <= j < i ==> !Classify(fs[j].1).Reject?) ==> ClassifyStack(fs) == Err(ShapeError)
  {
    assert Classify(fs[i].1) == Reject(ShapeError);
  }

  /** An all-canonical `Outputs` object is classified to itself. */
  lemma {:induction false} CanonicalOutputsFixed(fs: Fields)
    requires AllCanonical(fs)
    ensures ClassifyStack(fs) == Ok(fs)
  {
    if fs != [] {
      assert AllCanonical(fs[1..]) by {
        forall i | 0 <= i < |fs| - 1 ensures IsCanonical(fs[1..][i].1) {
          assert fs[1..][i] == fs[i + 1];
        }
      }
      CanonicalOutputsFixed(fs[1..]);
      assert Classify(fs[0].1) == Keep(fs[0].1);
      assert FirstRejected(fs) == 1 + FirstRejected(fs[1..]) == |fs|;
      assert Kept(fs) == [(fs[0].0, fs[0].1)] + Kept(fs[1..]);
      assert [fs[0]] + fs[1..] == fs;
    }
  }
}
