/** What the hook does on the configurations the repository's test suite uses. */
module Scenarios {
  import opened Wrappers
  import opened JsonValues
  import opened NormaliseErrors
  import opened StackOutputs
  import opened ResourceOutputs
  import opened MergeOutputs
  import opened Exports

  /** A resource `Q` of type `AWS::SQS::Queue` with the given `Outputs` object. */
  function Queue(outputs: Fields): Json
  {
    Obj([("Type", Str("AWS::SQS::Queue")), ("Outputs", Obj(outputs)), ("Properties", Obj([("QueueName", Str("Q"))]))])
  }

  /** `Outputs: { key: 'value' }` becomes `{ key: { Value: 'value' } }`. */
  lemma PrimitiveStackOutput()
    ensures var c := Config([], true, [], Some([("key", Str("value"))]));
      Normalise(c) == (Success, c.(outputs := Some([("key", Obj([("Value", Str("value"))]))])))
  {
    var c := Config([], true, [], Some([("key", Str("value"))]));
    var stack := [("key", Str("value"))];
    assert FirstRejected(stack) == 1;
    assert Kept(stack) == [("key", Obj([("Value", Str("value"))]))];
    assert Extract([]) == (Ok([]), []);
    MergedNothing(Kept(stack));
  }

  /** `Outputs: { logicalId: { myKey: 'myValue' } }` becomes a named export. */
  lemma ShorthandStackOutput()
    ensures var c := Config([], true, [], Some([("logicalId", Obj([("myKey", Str("myValue"))]))]));
      Normalise(c) == (Success, c.(outputs := Some([("logicalId",
        Obj([("Export", Obj([("Name", Str("myKey"))])), ("Value", Str("myValue"))]))])))
  {
    var entry := Obj([("myKey", Str("myValue"))]);
    var stack := [("logicalId", entry)];
    HasKeyCons(entry.fields, "Value");
    HasKeyCons(entry.fields, "Export");
    var exported := Obj([("Export", Obj([("Name", Str("myKey"))])), ("Value", Str("myValue"))]);
    assert Classify(entry) == Keep(exported);
    assert FirstRejected(stack) == 1;
    assert Kept(stack) == [("logicalId", exported)];
    assert Extract([]) == (Ok([]), []);
    MergedNothing(Kept(stack));
  }

  /** Outputs already in `{ Value, Export }` form are installed unchanged. */
  lemma StandardStackOutputUnchanged()
    ensures var stack := [("readOnlyKey", Obj([("Value", Str("ExportValue")), ("Export", Obj([("Name", Str("ExportKey"))]))]))];
      var c := Config([], true, [], Some(stack));
      Normalise(c) == (Success, c)
  {
    var entry := Obj([("Value", Str("ExportValue")), ("Export", Obj([("Name", Str("ExportKey"))]))]);
    var stack := [("readOnlyKey", entry)];
    HasKeyCons(entry.fields, "Value");
    assert AllCanonical(stack);
    CanonicalOutputsFixed(stack);
    assert Extract([]) == (Ok([]), []);
    MergedNothing(stack);
  }

  /** Resources that are strings, or objects without `Outputs`, are left alone and contribute nothing. */
  lemma ResourcesWithoutOutputsUntouched()
    ensures var res := [("queue", Str("Type: AWS::SQS::Queue")), ("Properties", Obj([("QueueName", Str("queue"))]))];
      var c := Config([], true, res, Some([("queueArn", Str("Fn::GetAtt[queue, Arn]"))]));
      Normalise(c) == (Success, c.(outputs := Some([("queueArn", Obj([("Value", Str("Fn::GetAtt[queue, Arn]"))]))])))
  {
    var props := Obj([("QueueName", Str("queue"))]);
    var res := [("queue", Str("Type: AWS::SQS::Queue")), ("Properties", props)];
    var stack := [("queueArn", Str("Fn::GetAtt[queue, Arn]"))];
    var kept := [("queueArn", Obj([("Value", Str("Fn::GetAtt[queue, Arn]"))]))];
    HasKeyCons(props.fields, "Outputs");
    assert !CarriesOutputs(props) && !Crashes(props);
    assert FirstCrash(res) == 2;
    assert AllPairs(res[1..]) == [];
    assert AllPairs(res) == [];
    assert StripUpTo(res, 2) == res;
    assert FirstRejected(stack) == 1;
    assert Kept(stack) == kept;
    MergedNothing(kept);
  }

  /** Extracting from `Q` alone collects its one pair and deletes its `Outputs`. */
  lemma QueueExtracted(v: string)
    ensures Extract([("Q", Queue([("key", Str(v))]))])
         == (Ok([("key", Str(v))]),
             [("Q", Obj([("Type", Str("AWS::SQS::Queue")), ("Properties", Obj([("QueueName", Str("Q"))]))]))])
  {
    var q := Queue([("key", Str(v))]);
    var res := [("Q", q)];
    HasKeyCons(q.fields, "Outputs");
    assert Lookup(q.fields, "Outputs") == Some(Obj([("key", Str(v))]));
    assert !Crashes(q) && CarriesOutputs(q);
    assert FirstCrash(res) == 1;
    assert AllPairs(res) == [("key", Str(v))];
    var fs := q.fields;
    assert fs[1..][1..] == [fs[2]] && fs[2..][1..] == [];
    assert RemoveKey(fs[2..], "Outputs") == [fs[2]];
    assert RemoveKey(fs[1..], "Outputs") == [fs[2]];
    assert RemoveKey(fs, "Outputs") == [fs[0], fs[2]];
    assert StripUpTo(res, 1) == [("Q", Obj(RemoveKey(q.fields, "Outputs")))];
  }

  /** A resource-level `Outputs: { key: v }` is moved to the stack `Outputs` and deleted from `Q`. */
  lemma PrimitiveResourceOutput(v: string)
    ensures var c := Config([], true, [("Q", Queue([("key", Str(v))]))], None);
      Normalise(c) == (Success, Config([], true,
        [("Q", Obj([("Type", Str("AWS::SQS::Queue")), ("Properties", Obj([("QueueName", Str("Q"))]))]))],
        Some([("key", Obj([("Value", Str(v))]))])))
  {
    var pairs := [("key", Str(v))];
    QueueExtracted(v);
    assert ClassifyStack([]) == Ok([]);
    assert FirstCollision([], pairs) == 1;
    assert WrapAll(pairs) == [("key", Obj([("Value", Str(v))]))];
    assert [] + WrapAll(pairs) == WrapAll(pairs);
    assert Merged([], pairs) == Ok([("key", Obj([("Value", Str(v))]))]);
  }

  /** The same key at stack and resource level, whatever the values, fails with `Duplicate export key 'key'`. */
  lemma DuplicateAcrossStackAndResource(v: string, w: string)
    ensures var c := Config([], true, [("Q", Queue([("key", Str(v))]))], Some([("key", Str(w))]));
      Normalise(c).0 == Failure(DuplicateKey("key"))
      && Normalise(c).1.outputs == c.outputs
  {
    var q := Queue([("key", Str(v))]);
    var res := [("Q", q)];
    var stack := [("key", Str(w))];
    HasKeyCons(q.fields, "Outputs");
    assert Lookup(q.fields, "Outputs") == Some(Obj([("key", Str(v))]));
    assert FirstCrash(res) == 1;
    assert AllPairs(res) == [("key", Str(v))];
    assert FirstRejected(stack) == 1;
    assert Kept(stack) == [("key", Obj([("Value", Str(w))]))];
    HasKeyCons(Kept(stack), "key");
    assert Collides(Kept(stack), AllPairs(res), 0);
    assert FirstCollision(Kept(stack), AllPairs(res)) == 0;
  }
}
