# serverless-exports output normaliser, modelled in Dafny

`serverless-exports` is a Serverless Framework plugin. On the `initialize`
hook it rewrites the CloudFormation `Outputs` of the service configuration
into the canonical `{ Value, Export }` shape. Stack-level outputs can be
written in three forms:

- a plain string, which becomes `{ Value: s }`;
- a one-pair shorthand `{ name: value }`, which becomes
  `{ Export: { Name: name }, Value: value }`;
- a canonical entry, which is kept unchanged.

Arrays, numbers and booleans are dropped. Other objects (those with neither
`Value` nor `Export` and not exactly one pair) and `null` make the hook throw.

Resources may also declare an `Outputs` property of their own. The plugin
collects those pairs resource by resource and deletes the property. It then
appends each pair as `{ Value: v }`, and fails on the first key that is
already present.

The model is split into one module per step:

- `JsonValues` holds configuration values: JSON-like values whose objects
  are ordered lists of own properties.
- `StackOutputs` models the per-entry classification and the
  `Object.keys(originalOutputs).forEach` loop of `parseStackOutputs`.
- `ResourceOutputs` holds the reference definitions of the resource-level
  extraction: collected pairs, stripped resources and the first crashing
  resource.
- `MergeOutputs` models the merge loop with its duplicate check.
- `Exports` models the plugin. Class `ServerlessExports` keeps the parts of
  `initialServerlessConfig` that the hook reads and writes as fields.
  `ParseResourceOutputs` (whose loop is `CollectAndDelete`),
  `ParseStackOutputs` and `OnInit` update those fields in place. Each is proved equal to a reference function of the old
  state: `Extract`, `ParseStack`, `Normalise`. The lemmas then state what a
  run promises.
- `Scenarios` states what the hook does on the configurations used by the repository's
  test suite.

Every error the source raises on the configurations modelled here is a
value of `NormaliseError` (the `null` sections it also throws on are listed
under "Left out"):

- `ShapeError` is the thrown `Expected single key value pair to export`.
- `DuplicateKey(k)` is the thrown ``Duplicate export key 'k'``.
- `TypeError` stands for the JavaScript runtime errors the code runs into:
  - a `null` stack output, on `hasOwnProperty`;
  - a `null` resource;
  - a `null` resource `Outputs`, on `Object.keys`;
  - a non-empty configuration without a `resources` section, on the final
    assignment.

The model follows the code in these details, which are easy to misread:

- Only strings are wrapped. Numbers and booleans at stack level are dropped
  like arrays.
- The early return checks whether the whole configuration is empty, not
  whether the `resources` section is.
- A resource whose `Outputs` is a string, number or boolean keeps it. Only
  object-typed `Outputs` are consumed and deleted.
- A resource `Outputs` that is an array passes the `typeof === 'object'`
  test. Its elements are collected under their decimal indices.
- `null` values raise the runtime errors listed above.
- The stack outputs are classified before the resources are visited. So a
  shape error leaves every resource untouched. A duplicate key, however, is
  found only after every resource's `Outputs` has been deleted.

## Model

| member | source | states |
|---|---|---|
| JsonValues.Lookup | src/index.ts:77-81 | a property read finds a value exactly when the key is an own property of the object |
| JsonValues.LookupWellFormed | src/index.ts:80-81 | a property read on an object with well-formed values yields a well-formed value |
| JsonValues.RemoveKey | src/index.ts:84 | `delete` removes the key and keeps every other key's value |
| JsonValues.RemoveKeyShape | src/index.ts:84 | after `delete` only keys that were there remain, distinct keys stay distinct and a well-formed object stays well-formed |
| StackOutputs.Classify | src/index.ts:104-134 | every entry that is kept is canonical (has `Value` or `Export`); an entry is kept as it is exactly when it is already canonical; classification keeps well-formedness; it throws TypeError exactly on `null` and ShapeError exactly on a non-canonical object with other than one pair, and on nothing else |
| StackOutputs.ClassifyStack | src/index.ts:102-135 | the loop fails only with ShapeError or TypeError; on success every output is canonical, there are no more outputs than before, and distinct keys stay distinct |
| StackOutputs.FirstRejected | src/index.ts:102-135 | the entry the loop throws on is the first whose classification is a rejection; no entry before it is rejected |
| StackOutputs.ClassifyStackOutputs | src/index.ts:97-135 | the classification loop returns the first rejection's error, or every kept entry in declaration order |
| StackOutputs.KeptLookup | src/index.ts:102-135 | for distinct keys, the new outputs hold under each key exactly the classified form of the original entry, or nothing when that entry is dropped |
| StackOutputs.KeptShape | src/index.ts:102-135 | the new outputs use only original keys, keep keys distinct and values well-formed, and every entry is canonical |
| StackOutputs.ClassifyStackSucceeds | src/index.ts:104-127 | classification succeeds exactly when no entry is rejected, that is exactly when no entry is `null` and no entry is a non-canonical object with other than one pair |
| StackOutputs.StringOutputWrapped | src/index.ts:128-133 | a string output `s` becomes `{ Value: s }` with no `Export` |
| StackOutputs.CanonicalOutputUnchanged | src/index.ts:110-114 | an output with `Value` or `Export` is kept unchanged |
| StackOutputs.ShorthandOutputExported | src/index.ts:116-126 | a one-pair object `{ n: v }` becomes `{ Export: { Name: n }, Value: v }` |
| StackOutputs.UnsupportedOutputOmitted | src/index.ts:104-108 | array, number and boolean outputs are dropped from the result |
| StackOutputs.MalformedShorthandRejected | src/index.ts:118-120 | a non-canonical object with zero or several pairs makes classification fail, with a ShapeError when it is the first rejected entry |
| StackOutputs.CanonicalOutputsFixed | src/index.ts:110-114 | outputs that are all canonical classify to themselves |
| ResourceOutputs.Members | src/index.ts:80-82 | an array's members are its elements in order; members of a well-formed value are well-formed |
| ResourceOutputs.Strip | src/index.ts:76-84 | deleting `Outputs` from a resource that carries one leaves no `Outputs` and every other property unchanged; a resource that does not carry one stays as it is; crashing and well-formedness are unchanged |
| ResourceOutputs.FirstCrash | src/index.ts:74-79 | the resource the loop throws on is the first `null` resource or resource with a `null` `Outputs` |
| ResourceOutputs.Extract | src/index.ts:67-88 | extraction keeps every resource's logical id in order; it fails only with TypeError, and succeeds exactly when no resource is `null` or has a `null` `Outputs`; after a success no resource carries `Outputs` |
| ResourceOutputs.StripUpTo | src/index.ts:84 | visiting resources changes none of the `Resources` keys or their order |
| ResourceOutputs.AllPairsSplit | src/index.ts:74-86 | the pairs of resource `i` come after all pairs of earlier resources and before those of later ones |
| ResourceOutputs.AllPairsAt | src/index.ts:80-82 | pair `j` of resource `i` is collected at the position right after all pairs of the resources before it, plus `j` |
| ResourceOutputs.AllPairsWellFormed | src/index.ts:80-82 | pairs collected from well-formed resources hold well-formed values |
| ResourceOutputs.StripUpToWellFormed | src/index.ts:84 | deleting `Outputs` keeps `Resources` a well-formed object |
| ResourceOutputs.NoOutputsNoPairs | src/index.ts:76-79 | resources without an object `Outputs` contribute no pairs |
| ResourceOutputs.ExtractStripped | src/index.ts:67-88 | extracting again from resources that were already stripped finds nothing and changes nothing |
| MergeOutputs.WrapAll | src/index.ts:146 | each resource pair `(k, v)` is inserted as `(k, { Value: v })`, in order, keeping well-formedness |
| MergeOutputs.MergeStep | src/index.ts:141-146 | the guard finds the key in the accumulated outputs exactly when the pair collides; otherwise the pair is appended wrapped |
| MergeOutputs.FirstCollision | src/index.ts:140-144 | the pair the merge throws on is the first whose key is already a stack output or an earlier pair |
| MergeOutputs.CollisionRepeatsKey | src/index.ts:140-144 | a pair the merge throws on has a key that occurs twice among the stack outputs followed by the pairs |
| MergeOutputs.Merged | src/index.ts:140-148 | a DuplicateKey error names a resource-level key and only arises when some key really is repeated; a success lists the stack keys followed by the pair keys |
| MergeOutputs.MergeResourceOutputs | src/index.ts:137-148 | the merge loop fails with the first colliding key, or returns the stack outputs followed by every wrapped pair |
| MergeOutputs.MergedNothing | src/index.ts:140-148 | with no resource pairs the stack outputs are returned unchanged |
| MergeOutputs.MergedKeepsStackOutputs | src/index.ts:140-148 | a successful merge overwrites no stack output |
| MergeOutputs.MergedHasResourceOutput | src/index.ts:146 | after a merge without collision every resource pair `(k, v)` is found as `{ Value: v }` |
| MergeOutputs.MergedKeys | src/index.ts:141-146 | a successful merge has the stack keys followed by the pair keys; no pair key is a stack key; distinct keys stay distinct |
| MergeOutputs.MergedWellFormed | src/index.ts:146 | a successful merge of well-formed parts is a well-formed object |
| MergeOutputs.MergedReportsFirstCollision | src/index.ts:141-143 | the error names the key of the first colliding pair |
| MergeOutputs.FirstTruthyFrom | src/index.ts:140-144 | the pair the merge as written throws on is the first whose key is already present or is a name inherited from `Object.prototype` (`CollidesAsWritten`) |
| MergeOutputs.MergedAsWritten | src/index.ts:140-147 | the merge as written (guard `CollidesAsWritten`) names a resource-level key when it fails; it fails on every input where the intended merge fails, and when it succeeds its result is the intended merge's |
| MergeOutputs.InheritedNameReportedAsDuplicate | src/index.ts:141 | the guard as written rejects a resource output named `constructor` although nothing collides, while the intended merge installs it |
| MergeOutputs.MergedAsWrittenAgrees | src/index.ts:141 | when no pair is named after an inherited property, the merge as written and the intended merge agree |
| Exports.ServerlessExports.ParseResourceOutputs | src/index.ts:67-88 | the method collects the pairs of every resource in order and deletes each visited `Outputs`, as `Extract` describes; a well-formed configuration stays well-formed |
| Exports.ServerlessExports.CollectAndDelete | src/index.ts:74-86 | the loop collects the pairs of every resource in order and deletes each visited `Outputs`; on a crashing resource it stops with TypeError, leaving earlier resources stripped |
| Exports.ExtractKeepsValid | src/index.ts:84 | deleting resource `Outputs` leaves a well-formed configuration |
| Exports.ServerlessExports.ParseStackOutputs | src/index.ts:96-149 | the method returns the classification error, the extraction error, or the merge of the kept stack outputs with the collected pairs; the resources are left as extraction leaves them; a well-formed configuration stays well-formed |
| Exports.ServerlessExports.OnInit | src/index.ts:45-51 | the hook does nothing on an empty configuration; otherwise it installs the merged outputs or ends with the error and the resources as they were left; a well-formed configuration stays well-formed |
| Exports.ParseStack | src/index.ts:96-149 | resources keep their logical ids; a rejected stack output leaves them untouched; merged outputs are all canonical and come with no resource carrying `Outputs`; a DuplicateKey error names a collected resource-level key |
| Exports.Normalise | src/index.ts:45-51 | the hook changes no top-level section other than `resources` and no resource's logical id; a failed run leaves `Outputs` as it was; a successful run on a non-empty configuration installs outputs that are all canonical |
| Exports.RunSucceeds | src/index.ts:45-51 | a run succeeds exactly when the configuration is empty, or it has a `resources` section, no stack output is rejected, no resource crashes and no resource key collides |
| Exports.ParseStackPasses | src/index.ts:96-149 | with no rejection and no crash, `parseStackOutputs` returns the merge and leaves every resource stripped |
| Exports.SuccessfulRun | src/index.ts:45-51 | after a successful run `Outputs` is the kept stack outputs followed by the wrapped resource pairs: distinct keys, all well-formed and canonical; no resource carries `Outputs` any more |
| Exports.WrappedCanonical | src/index.ts:146 | appending wrapped resource pairs keeps every output canonical |
| Exports.RejectedStackOutputChangesNothing | src/index.ts:102-135 | a rejected stack output fails the run with that entry's error, before anything changes |
| Exports.DuplicateKeyAfterExtraction | src/index.ts:137-144 | a collision fails the run with the first colliding key; by then every resource's `Outputs` is deleted, and `Outputs` keeps its old value |
| Exports.StackOutputInstalled | src/index.ts:45-51 | after a successful run each kept stack output is installed in its classified form |
| Exports.MergedHasResourcePair | src/index.ts:140-148 | pair `j` of resource `i` is in the merge as `{ Value: v }` |
| Exports.ResourceOutputInstalled | src/index.ts:140-148 | after a successful run every resource-level pair `(k, v)` is installed as `{ Value: v }`, even when `v` looks like a shorthand |
| Exports.ResourceAfterRun | src/index.ts:76-85 | after a successful run a resource that carried an object `Outputs` has lost exactly that property, and every other resource is unchanged |
| Exports.NormaliseIdempotent | src/index.ts:45-51 | running the hook again on the result of a successful run succeeds and changes nothing |
| Exports.NormalisePreservesValid | src/index.ts:45-51 | every run, successful or not, leaves a well-formed configuration |
| Scenarios.PrimitiveStackOutput | tests/index.test.ts:60-77 | `{ key: 'value' }` becomes `{ key: { Value: 'value' } }` |
| Scenarios.ShorthandStackOutput | tests/index.test.ts:78-97 | `{ logicalId: { myKey: 'myValue' } }` becomes a named export |
| Scenarios.StandardStackOutputUnchanged | tests/index.test.ts:98-121 | an output with `Value` and `Export` is installed unchanged |
| Scenarios.ResourcesWithoutOutputsUntouched | tests/index.test.ts:122-148 | string resources and resources without `Outputs` are left alone, and a string stack output is wrapped |
| Scenarios.QueueExtracted | tests/index.test.ts:160-191 | extraction from queue `Q` collects its one pair and deletes its `Outputs` |
| Scenarios.PrimitiveResourceOutput | tests/index.test.ts:160-226 | for any string value, a resource-level `{ key: v }` moves to `Outputs` as `{ Value: v }`, and `Q` loses its `Outputs` |
| Scenarios.DuplicateAcrossStackAndResource | tests/index.test.ts:231-256 | the same key at stack and resource level fails with `DuplicateKey("key")`, and `Outputs` is not replaced |

## Left out

- The logger adapter, the constructor and the hook table (src/index.ts:4-40) are left out. They are host wiring.
- `onBeforePackage` and `onAfterPackage` are left out. They only print to the console.
- Numbers are integers. The source's floating-point values are never inspected, only carried along.
- `undefined` values are left out. Object-typed values stand in for the configuration, so an absent property is simply missing.
- Key order is declaration order. JavaScript lists integer-like keys first in ascending order; that is not modelled.
- A stack `Outputs` that is `null`, a string, a number or an array is left out: `Config.outputs` is either an object or absent. A `null` one would make the hook throw a TypeError at `Object.keys` (src/index.ts:102).
- A `Resources` that is `null` or not an object is left out for the same reason; a `null` one would throw at `Object.keys` (src/index.ts:74). An absent `Resources` is empty, as the source's default `[]` is.
- A `null` `resources` section is left out. It counts as a key in the emptiness test of `onInit` (src/index.ts:46), is then read as empty (`?? {}`), and the final assignment throws a TypeError (src/index.ts:49-50).
- Aliasing is left out. Configuration values are trees, so an object reachable from two places (one resource object under two logical ids, as a YAML alias or a reused JavaScript object gives) is modelled as two copies. On such input the source collects the shared `Outputs` at the first id, deletes it there, and then skips the second id because `hasOwnProperty('Outputs')` is false (src/index.ts:77-84); the model collects the pairs twice and reports a DuplicateKey.
- The configuration is assumed well-formed at every depth: each object has distinct keys. Real objects cannot hold the same key twice.
- Only the guard's truthiness on inherited names is modelled. Other prototype effects are not: assigning a stack output named `__proto__`, or own properties named `hasOwnProperty`.
- The rest of the model uses the intended merge (`MergeOutputs.Merged`) rather than the guard as written (see Findings).

## Findings

| source | as written | input that shows it | evidently intended | confidence | as-written member | corrected member |
|---|---|---|---|---|---|---|
| src/index.ts:141 | the guard `outputs[resOp.key]` also reads the properties `{}` inherits from `Object.prototype`, which are all truthy | a resource with `Outputs: { constructor: 'x' }` and no stack output of that name: the hook throws `Duplicate export key 'constructor'` | report a duplicate only when the key is already an own output | high, not executed | MergeOutputs.InheritedNameReportedAsDuplicate | MergeOutputs.MergedHasResourceOutput |
