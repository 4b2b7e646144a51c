/**
 * The `ServerlessExports` plugin's initialise hook: classify the stack-level
 * outputs, extract and delete the resource-level ones, merge them, and
 * install the result as the template's `Outputs`.
 */
module Exports {
  import opened Wrappers
  import opened JsonValues
  import opened NormaliseErrors
  import opened StackOutputs
  import opened ResourceOutputs
  import opened MergeOutputs

  /** The part of `serverless.service.initialServerlessConfig` the hook reads and writes. */
  datatype Config = Config(
    /** the top-level keys other than `resources` (`service`, `provider`, ...) */
    otherSections: seq<string>,
    /** whether the `resources` section is present */
    hasResourcesSection: bool,
    /** `resources.Resources`, keyed by logical id; an absent one is empty */
    resources: Fields,
    /** `resources.Outputs`, the slot the hook replaces */
    outputs: Option<Fields>)

  /** Configurations the host can hand over: real objects, and no contents without a `resources` section. */
  predicate ValidConfig(c: Config)
  {
    && (!c.hasResourcesSection ==> c.resources == [] && c.outputs == None)
    && WellFormedFields(c.resources)
    && (c.outputs.Some? ==> WellFormedFields(c.outputs.value))
  }

  /** `Object.keys(initialServerlessConfig ?? {}).length` is zero. */
  predicate IsEmptyConfig(c: Config)
  {
    c.otherSections == [] && !c.hasResourcesSection
  }

  /** `const { Outputs: originalOutputs = {} } = resources ?? {}` */
  function StackOutputsOf(c: Config): Fields
  {
    if c.outputs.Some? then c.outputs.value else []
  }

  datatype Status = Success | Failure(error: NormaliseError)

  /**
   * `parseStackOutputs`: the merged outputs or the error, and the resources
   * as it leaves them. Resources keep their logical ids; a rejected stack
   * output leaves them untouched; merged outputs are all canonical and come
   * with every resource's `Outputs` deleted; a duplicate is a resource-level key.
   */
  function ParseStack(c: Config): (out: (Result<Fields, NormaliseError>, Fields))
    ensures Keys(out.1) == Keys(c.resources)
    ensures ClassifyStack(StackOutputsOf(c)).Err? ==> out.1 == c.resources
    ensures out.0.Ok? ==> AllCanonical(out.0.value)
    ensures out.0.Ok? ==> forall i :: 0 <= i < |out.1| ==> !CarriesOutputs(out.1[i].1)
    ensures out.0.Err? && out.0.error.DuplicateKey? ==> HasKey(AllPairs(c.resources), out.0.error.key)
  {
    match ClassifyStack(StackOutputsOf(c))
    case Err(e) => (Err(e), c.resources)
    case Ok(stack) =>
      var (extracted, res) := Extract(c.resources);
      match extracted
      case Err(e) => (Err(e), res)
      case Ok(pairs) =>
        WrappedCanonical(stack, pairs);
        (Merged(stack, pairs), res)
  }

  /**
   * `onInit`: how the hook ends and the configuration it leaves. Assigning
   * `resources.Outputs` throws a TypeError when a non-empty configuration has
   * no `resources` section.
   */
  function Normalise(c: Config): (out: (Status, Config))
    ensures out.1.otherSections == c.otherSections && out.1.hasResourcesSection == c.hasResourcesSection
    ensures Keys(out.1.resources) == Keys(c.resources)
    ensures out.0.Failure? ==> out.1.outputs == c.outputs
    ensures out.0.Success? && !IsEmptyConfig(c) ==> out.1.outputs.Some? && AllCanonical(out.1.outputs.value)
    ensures !c.hasResourcesSection ==> out.1.outputs == c.outputs
  {
    if IsEmptyConfig(c) then (Success, c)
    else
      var (r, res) := ParseStack(c);
      match r
      case Err(e) => (Failure(e), c.(resources := res))
      case Ok(merged) =>
        if c.hasResourcesSection then (Success, c.(resources := res, outputs := Some(merged)))
        else (Failure(TypeError), c.(resources := res))
  }

  class ServerlessExports {
    var otherSections: seq<string>
    var hasResourcesSection: bool
    var resources: Fields
    var outputs: Option<Fields>

    function State(): Config
      reads this
    {
      Config(otherSections, hasResourcesSection, resources, outputs)
    }

    ghost predicate Valid()
      reads this
    {
      ValidConfig(State())
    }

    /** Collects every resource's `Outputs` pairs and deletes the property, resource by resource. */
    method ParseResourceOutputs() returns (r: Result<Fields, NormaliseError>)
      requires Valid()
      modifies this`resources
      ensures (r, resources) == Extract(old(resources))
      ensures Valid()
    {
      ExtractKeepsValid(State());
      r := CollectAndDelete();
    }

    /** The loop of `parseResourceOutputs`, which needs nothing of the configuration. */
    method CollectAndDelete() returns (r: Result<Fields, NormaliseError>)
      modifies this`resources
      ensures (r, resources) == Extract(old(resources))
    {
      ghost var original := resources;
      var collected: Fields := [];
      var i := 0;
      assert original[i..] == original;
      while i < |resources|
        invariant 0 <= i <= |resources| == |original|
        invariant forall j :: 0 <= j < i ==> !Crashes(original[j].1)
        invariant resources == StripUpTo(original, i)
        invariant collected + AllPairs(original[i..]) == AllPairs(original)
      {
        var (key, def) := resources[i];
        assert (key, def) == original[i];
        CollectStep(original, i, collected);
        StripStep(original, i);
        match def {
          case Null =>
            // `Resources[key].hasOwnProperty` on null
            return Err(TypeError);
          case Obj(fields) =>
            var o := Lookup(fields, "Outputs");
            if o.Some? && (o.value.Obj? || o.value.Arr? || o.value.Null?) {
              if o.value.Null? {
                // `Object.keys(null)`
                return Err(TypeError);
              }
              assert OutputsOf(def) == Members(o.value);
              collected := collected + Members(o.value);
              resources := resources[i := (key, Obj(RemoveKey(fields, "Outputs")))];
            } else {
              assert OutputsOf(def) == [] && Strip(def) == def;
              assert collected + OutputsOf(def) == collected;
            }
          case _ =>
            assert OutputsOf(def) == [] && Strip(def) == def;
            assert collected + OutputsOf(def) == collected;
        }
        i := i + 1;
      }
      assert original[i..] == [];
      assert AllPairs(original[i..]) == [];
      assert collected == AllPairs(original);
      assert FirstCrash(original) == |original|;
      return Ok(collected);
    }

    /** Classifies the stack-level outputs, extracts the resource-level ones and merges the two. */
    method ParseStackOutputs() returns (r: Result<Fields, NormaliseError>)
      requires Valid()
      modifies this`resources
      ensures (r, resources) == ParseStack(old(State()))
      ensures Valid()
    {
      var originalOutputs := if outputs.Some? then outputs.value else [];
      var stack := ClassifyStackOutputs(originalOutputs);
      if stack.Err? {
        return Err(stack.error);
      }
      var resourceOutputs := ParseResourceOutputs();
      if resourceOutputs.Err? {
        return Err(resourceOutputs.error);
      }
      r := MergeResourceOutputs(stack.value, resourceOutputs.value);
    }

    /** Handler for the `initialize` hook. */
    method OnInit() returns (status: Status)
      requires Valid()
      modifies this
      ensures (status, State()) == Normalise(old(State()))
      ensures Valid()
    {
      NormalisePreservesValid(State());
      if otherSections == [] && !hasResourcesSection {
        return Success;
      }
      var parsed := ParseStackOutputs();
      if parsed.Err? {
        return Failure(parsed.error);
      }
      if !hasResourcesSection {
        // `initialServerlessConfig.resources.Outputs = ...` on undefined
        return Failure(TypeError);
      }
      outputs := Some(parsed.value);
      return Success;
    }
  }

  // The lemmas below are not inductive; `{:induction false}` keeps the
  // solver from trying automatic induction over their sequence parameters.

  /** The resources after a run that got past classification and extraction. */
  function Stripped(c: Config): Fields
  {
    StripUpTo(c.resources, |c.resources|)
  }

  /**
   * A run ends successfully exactly when the configuration is empty, or it
   * has a `resources` section, no stack output is rejected, no resource
   * crashes the extraction and no resource-level key collides.
   */
  lemma {:induction false} RunSucceeds(c: Config)
    ensures var stack, pairs := StackOutputsOf(c), AllPairs(c.resources);
      Normalise(c).0 == Success <==>
        IsEmptyConfig(c)
        || (c.hasResourcesSection && FirstRejected(stack) == |stack| && FirstCrash(c.resources) == |c.resources|
            && FirstCollision(Kept(stack), pairs) == |pairs|)
  {
    var stack := StackOutputsOf(c);
    if !IsEmptyConfig(c) && FirstRejected(stack) == |stack| {
      assert ClassifyStack(stack) == Ok(Kept(stack));
      if FirstCrash(c.resources) == |c.resources| {
        ParseStackPasses(c);
      }
    }
  }

  /** With no rejected stack output and no crashing resource, `parseStackOutputs` returns the merge. */
  lemma {:induction false} ParseStackPasses(c: Config)
    requires FirstRejected(StackOutputsOf(c)) == |StackOutputsOf(c)|
    requires FirstCrash(c.resources) == |c.resources|
    ensures ParseStack(c) == (Merged(Kept(StackOutputsOf(c)), AllPairs(c.resources)), Stripped(c))
  {
    assert ClassifyStack(StackOutputsOf(c)) == Ok(Kept(StackOutputsOf(c)));
    assert Extract(c.resources) == (Ok(AllPairs(c.resources)), Stripped(c));
  }

  /**
   * After a successful run the installed `Outputs` is the kept stack outputs
   * followed by the wrapped resource pairs: distinct keys, every entry
   * canonical; and no resource carries `Outputs` any more.
   */
  lemma {:induction false} SuccessfulRun(c: Config)
    requires ValidConfig(c) && !IsEmptyConfig(c) && Normalise(c).0 == Success
    ensures var stack, pairs := StackOutputsOf(c), AllPairs(c.resources);
      && Normalise(c).1 == c.(resources := Stripped(c), outputs := Some(Kept(stack) + WrapAll(pairs)))
      && Keys(Normalise(c).1.outputs.value) == Keys(Kept(stack)) + Keys(pairs)
      && WellFormedFields(Normalise(c).1.outputs.value)
      && AllCanonical(Normalise(c).1.outputs.value)
      && (forall i :: 0 <= i < |c.resources| ==> !CarriesOutputs(Stripped(c)[i].1))
  {
    var stack, pairs := StackOutputsOf(c), AllPairs(c.resources);
    var kept := Kept(stack);
    var out := kept + WrapAll(pairs);
    RunSucceeds(c);
    ParseStackPasses(c);
    assert Merged(kept, pairs) == Ok(out);
    assert Keys(out) == Keys(kept) + Keys(pairs) by {
      MergedKeys(kept, pairs);
    }
    assert WellFormedFields(out) by {
      KeptShape(stack);
      AllPairsWellFormed(c.resources);
      MergedWellFormed(kept, pairs);
    }
    KeptShape(stack);
    WrappedCanonical(kept, pairs);
  }

  /** Appending wrapped resource pairs to canonical outputs keeps every entry canonical. */
  lemma {:induction false} WrappedCanonical(outputs: Fields, pairs: Fields)
    requires AllCanonical(outputs)
    ensures AllCanonical(outputs + WrapAll(pairs))
  {
    var out := outputs + WrapAll(pairs);
    forall i | 0 <= i < |out| ensures IsCanonical(out[i].1) {
      if i >= |outputs| {
        assert out[i].1 == Wrap(pairs[i - |outputs|].1);
        HasKeyCons([("Value", pairs[i - |outputs|].1)], "Value");
      }
    }
  }

  /**
   * A rejected stack output (a malformed shorthand or `null`) aborts the run
   * before anything is mutated: the error is that of the first rejected
   * entry, and the resources and `Outputs` are as they were.
   */
  lemma {:induction false} RejectedStackOutputChangesNothing(c: Config)
    requires !IsEmptyConfig(c)
    requires FirstRejected(StackOutputsOf(c)) < |StackOutputsOf(c)|
    ensures Normalise(c) == (Failure(Classify(StackOutputsOf(c)[FirstRejected(StackOutputsOf(c))].1).error), c)
  {
    assert ClassifyStack(StackOutputsOf(c)).Err?;
    assert c.(resources := c.resources) == c;
  }

  /**
   * When stack outputs and resources are well-formed but a resource-level key
   * collides, the run fails naming the first colliding key in resource
   * declaration order; by then every resource's `Outputs` has been deleted,
   * while `Outputs` keeps its old value.
   */
  lemma {:induction false} DuplicateKeyAfterExtraction(c: Config)
    requires !IsEmptyConfig(c)
    requires FirstRejected(StackOutputsOf(c)) == |StackOutputsOf(c)|
    requires FirstCrash(c.resources) == |c.resources|
    requires FirstCollision(Kept(StackOutputsOf(c)), AllPairs(c.resources)) < |AllPairs(c.resources)|
    ensures var pairs := AllPairs(c.resources);
      Normalise(c) == (Failure(DuplicateKey(pairs[FirstCollision(Kept(StackOutputsOf(c)), pairs)].0)),
                       c.(resources := Stripped(c)))
    ensures Normalise(c).1.outputs == c.outputs
    ensures forall i :: 0 <= i < |c.resources| ==> !CarriesOutputs(Normalise(c).1.resources[i].1)
  {
    assert ClassifyStack(StackOutputsOf(c)) == Ok(Kept(StackOutputsOf(c)));
  }

  /**
   * After a successful run a stack output that classification keeps is
   * installed in its classified form, whatever the resources declare.
   */
  lemma {:induction false} StackOutputInstalled(c: Config, k: string)
    requires ValidConfig(c) && !IsEmptyConfig(c) && Normalise(c).0 == Success
    requires Retained(Lookup(StackOutputsOf(c), k)).Some?
    ensures Normalise(c).1.outputs == Some(Kept(StackOutputsOf(c)) + WrapAll(AllPairs(c.resources)))
    ensures Lookup(Normalise(c).1.outputs.value, k) == Retained(Lookup(StackOutputsOf(c), k))
  {
    var stack := StackOutputsOf(c);
    SuccessfulRun(c);
    KeptLookup(stack, k);
    MergedKeepsStackOutputs(Kept(stack), AllPairs(c.resources), k);
  }

  /** A merge of all resources' pairs without collision holds pair `j` of resource `i` as `{ Value: v }`. */
  lemma {:induction false} MergedHasResourcePair(stack: Fields, res: Fields, i: nat, j: nat)
    requires FirstCollision(stack, AllPairs(res)) == |AllPairs(res)|
    requires i < |res| && j < |OutputsOf(res[i].1)|
    ensures Lookup(stack + WrapAll(AllPairs(res)), OutputsOf(res[i].1)[j].0) == Some(Wrap(OutputsOf(res[i].1)[j].1))
  {
    var at := AllPairsAt(res, i, j);
    MergedHasResourceOutput(stack, AllPairs(res), at, OutputsOf(res[i].1)[j]);
  }

  /**
   * After a successful run, pair `j` of resource `i`'s `Outputs` (key `k`,
   * value `v`) is installed as `{ Value: v }`, even when `v` looks like a
   * shorthand export.
   */
  lemma {:induction false} ResourceOutputInstalled(c: Config, i: nat, j: nat)
    requires ValidConfig(c) && !IsEmptyConfig(c) && Normalise(c).0 == Success
    requires i < |c.resources| && j < |OutputsOf(c.resources[i].1)|
    ensures Lookup(Normalise(c).1.outputs.value, OutputsOf(c.resources[i].1)[j].0)
         == Some(Obj([("Value", OutputsOf(c.resources[i].1)[j].1)]))
  {
    var stack, pairs := StackOutputsOf(c), AllPairs(c.resources);
    SuccessfulRun(c);
    RunSucceeds(c);
    MergedHasResourcePair(Kept(stack), c.resources, i, j);
  }

  /**
   * After a successful run, a resource that carried an object or array
   * `Outputs` has lost exactly that property, and every other resource is
   * untouched.
   */
  lemma {:induction false} ResourceAfterRun(c: Config, i: nat)
    requires ValidConfig(c) && !IsEmptyConfig(c) && Normalise(c).0 == Success
    requires i < |c.resources|
    ensures var before, after := c.resources[i], Normalise(c).1.resources[i];
      && after.0 == before.0
      && (CarriesOutputs(before.1) ==>
            && after.1.Obj? && !HasKey(after.1.fields, "Outputs")
            && forall k :: k != "Outputs" ==> Lookup(after.1.fields, k) == Lookup(before.1.fields, k))
      && (!CarriesOutputs(before.1) ==> after == before)
  {
    SuccessfulRun(c);
  }

  /** Running the hook on the configuration a successful run left behind changes nothing. */
  lemma {:induction false} NormaliseIdempotent(c: Config)
    requires ValidConfig(c) && Normalise(c).0 == Success
    ensures Normalise(Normalise(c).1) == (Success, Normalise(c).1)
  {
    if !IsEmptyConfig(c) {
      SuccessfulRun(c);
      var after := Normalise(c).1;
      CanonicalOutputsFixed(after.outputs.value);
      ExtractStripped(c.resources);
      MergedNothing(after.outputs.value);
    }
  }

  /** Extracting the resource-level outputs leaves a configuration of the same kind. */
  lemma ExtractKeepsValid(c: Config)
    requires ValidConfig(c)
    ensures ValidConfig(c.(resources := Extract(c.resources).1))
  {
    StripUpToWellFormed(c.resources, FirstCrash(c.resources));
  }

  /** Every run, successful or not, leaves a configuration of the same kind. */
  lemma {:induction false} NormalisePreservesValid(c: Config)
    requires ValidConfig(c)
    ensures ValidConfig(Normalise(c).1)
  {
    if !IsEmptyConfig(c) {
      var stack := StackOutputsOf(c);
      var after := Normalise(c).1;
      var n := FirstCrash(c.resources);
      if ClassifyStack(stack).Ok? {
        assert after.resources == StripUpTo(c.resources, n);
        StripUpToWellFormed(c.resources, n);
        if Normalise(c).0 == Success {
          SuccessfulRun(c);
        }
      }
    }
  }
}
