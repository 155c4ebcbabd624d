/** The option collection the parser works against. Its classes (`Option`,
    `OptionCollection`) are not part of this model; this module states only
    what the parser asks of them: the key list, lookup of a spec by name, each
    spec's id, kind and default value, and the three ways of changing a
    spec's value. */
module OptionSpecs {

  import opened Base

  type OptionId = string

  /** `isFlag`/`isIncremental`/`isRequired`/`isMultiple`/`isOptional`, in the
      order the parser tests them. */
  datatype Kind = Flag | Incremental | Required | Multiple | Optional

  predicate IsFlagKind(k: Kind)
  {
    k == Flag || k == Incremental
  }

  datatype Specs = Specs(
    keys: seq<string>,                 // OptionCollection::keys()
    lookup: map<string, OptionId>,     // OptionCollection::get($name)->getId()
    ids: seq<OptionId>,                // the collection's iteration order
    kind: map<OptionId, Kind>,
    defaults: map<OptionId, Value>,    // Option::$defaultValue (null: none)
    push: (Value, string) -> Value,    // Option::pushValue
    increase: Value -> Value)          // Option::increaseValue
  {
    /** Every name the collection resolves, and every spec it iterates over,
        has a kind and a default. */
    predicate WellFormed()
    {
      && (forall n :: n in lookup ==> lookup[n] in kind)
      && (forall k :: 0 <= k < |ids| ==> ids[k] in kind)
      && kind.Keys == defaults.Keys
    }
  }

  /** A collection together with the current value of each of its specs. */
  class OptionCollection {
    const specs: Specs
    var values: map<OptionId, Value>

    ghost predicate Valid()
      reads this
    {
      specs.WellFormed() && values.Keys == specs.kind.Keys
    }

    /** A fresh collection: no spec has a value yet. */
    constructor(specs: Specs)
      requires specs.WellFormed()
      ensures this.specs == specs && Valid()
      ensures forall id :: id in values ==> values[id] == Null
    {
      this.specs := specs;
      values := map id | id in specs.kind :: Null;
    }

    /** `Option::setValue`. */
    method SetValue(id: OptionId, v: Value)
      requires Valid() && id in specs.kind
      modifies this
      ensures Valid() && values == old(values)[id := v]
    {
      values := values[id := v];
    }

    /** `Option::pushValue`. */
    method PushValue(id: OptionId, v: string)
      requires Valid() && id in specs.kind
      modifies this
      ensures Valid() && values == old(values)[id := specs.push(old(values)[id], v)]
    {
      values := values[id := specs.push(values[id], v)];
    }

    /** `Option::increaseValue`. */
    method IncreaseValue(id: OptionId)
      requires Valid() && id in specs.kind
      modifies this
      ensures Valid() && values == old(values)[id := specs.increase(old(values)[id])]
    {
      values := values[id := specs.increase(values[id])];
    }
  }
}
