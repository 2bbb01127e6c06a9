/** Migration 1 of migrations.js: every instance without a `type` gets the
    type `['nlu']`; an instance that has one keeps it. */
module InstanceMigration {
  import opened Optional

  /** An instance record: its id and its `type` as a list of strings,
      `None` for any falsy value (unset, `null`, `""`, `0`, `false`). */
  datatype Instance = Instance(id: string, instanceType: Option<seq<string>>)

  /** The default written by line 22. */
  const NluOnly: seq<string> := ["nlu"]

  /** Line 22 for one instance. The test `!i.type` holds exactly for a
      falsy type, which `None` stands for: a list, even an empty one, is
      truthy in JavaScript and is kept. */
  function SetDefaultType(i: Instance): (r: Instance)
    ensures r.id == i.id && r.instanceType.Some?
    ensures i.instanceType.Some? ==> r == i
    ensures i.instanceType.None? ==> r.instanceType == Some(NluOnly)
  {
    if i.instanceType.None? then i.(instanceType := Some(NluOnly)) else i
  }

  /** The `forEach` of lines 18-23 over all instances: afterwards every
      instance has a type, and the ones that had one are unchanged. */
  function MigrateInstances(instances: seq<Instance>): (r: seq<Instance>)
    ensures |r| == |instances|
    ensures forall k :: 0 <= k < |r| ==> r[k].id == instances[k].id && r[k].instanceType.Some?
    ensures forall k :: 0 <= k < |r| && instances[k].instanceType.Some? ==> r[k] == instances[k]
    ensures forall k :: 0 <= k < |r| && instances[k].instanceType.None? ==> r[k].instanceType == Some(NluOnly)
  {
    seq(|instances|, k requires 0 <= k < |instances| => SetDefaultType(instances[k]))
  }

  /** Running the migration a second time changes nothing. */
  lemma MigrateInstancesIdempotent(instances: seq<Instance>)
    ensures MigrateInstances(MigrateInstances(instances)) == MigrateInstances(instances)
  {
  }
}
