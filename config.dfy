/**
 * `deep_merge` of `config.py`: the local configuration merged over the
 * default one.  A configuration is a mapping from keys to values, a value
 * either another mapping or anything else (a string, a number, a list),
 * which the merge never looks into.
 */
module Config {

  /** A configuration value: a nested mapping, or a leaf the merge treats
      as opaque (written here as its text). */
  datatype Value = Leaf(text: string) | Node(entries: map<string, Value>)

  /** Whether the merge goes into key `k` rather than replacing it: both
      sides hold a mapping there. */
  predicate MergesInto(base: map<string, Value>, update: map<string, Value>, k: string) {
    k in update && update[k].Node? && k in base && base[k].Node?
  }

  /** The mapping `deep_merge(base, update)` leaves behind: every key of
      either side; where both hold a mapping, their merge; otherwise the
      `update` value if there is one, else the `base` value. */
  function Merged(base: map<string, Value>, update: map<string, Value>): (r: map<string, Value>)
    decreases Node(update)
  {
    map k | k in base.Keys + update.Keys ::
      if MergesInto(base, update, k) then Node(Merged(base[k].entries, update[k].entries))
      else if k in update then update[k]
      else base[k]
  }

  /** What the merge does to each key: the keys are those of both sides,
      keys only in `base` keep their value, mappings on both sides are
      merged, and any other `update` value replaces the `base` one, also
      when only one side is a mapping. */
  lemma MergedKeys(base: map<string, Value>, update: map<string, Value>)
    ensures Merged(base, update).Keys == base.Keys + update.Keys
    ensures forall k :: k in base && k !in update ==> Merged(base, update)[k] == base[k]
    ensures forall k :: MergesInto(base, update, k) ==>
      Merged(base, update)[k] == Node(Merged(base[k].entries, update[k].entries))
    ensures forall k :: k in update && !MergesInto(base, update, k) ==> Merged(base, update)[k] == update[k]
  {
  }

  /** Merging an empty update leaves `base` as it was. */
  lemma MergeEmpty(base: map<string, Value>)
    ensures Merged(base, map[]) == base
  {
  }

  /** Merging into an empty base gives the update. */
  lemma MergeIntoEmpty(update: map<string, Value>)
    ensures Merged(map[], update) == update
  {
  }

  /** Merging a configuration with itself changes nothing. */
  lemma {:induction false} MergeSelf(base: map<string, Value>)
    ensures Merged(base, base) == base
    decreases Node(base)
  {
    forall k | k in base && base[k].Node?
      ensures Merged(base[k].entries, base[k].entries) == base[k].entries
    {
      MergeSelf(base[k].entries);
    }
    assert Merged(base, base) == base;
  }

  /** `r` holds everything `update` sets: every leaf of `update`, at the
      same path. */
  predicate Overrides(r: map<string, Value>, update: map<string, Value>)
    decreases Node(update)
  {
    forall k :: k in update ==>
      && k in r
      && match update[k]
         case Leaf(_) => r[k] == update[k]
         case Node(u) => r[k].Node? && Overrides(r[k].entries, u)
  }

  /** A mapping overrides itself. */
  lemma {:induction false} OverridesSelf(m: map<string, Value>)
    ensures Overrides(m, m)
    decreases Node(m)
  {
    forall k | k in m && m[k].Node?
      ensures Overrides(m[k].entries, m[k].entries)
    {
      OverridesSelf(m[k].entries);
    }
  }

  /** The update wins everywhere: after the merge every leaf it sets is in
      place, however deep. */
  lemma {:induction false} MergedOverrides(base: map<string, Value>, update: map<string, Value>)
    ensures Overrides(Merged(base, update), update)
    decreases Node(update)
  {
    var r := Merged(base, update);
    forall k | k in update && update[k].Node?
      ensures r[k].Node? && Overrides(r[k].entries, update[k].entries)
    {
      if MergesInto(base, update, k) {
        MergedOverrides(base[k].entries, update[k].entries);
      } else {
        OverridesSelf(update[k].entries);
      }
    }
  }

  /** A dictionary the merge changes in place. */
  class Dict {
    var items: map<string, Value>

    constructor (items: map<string, Value>)
      ensures this.items == items
    {
      this.items := items;
    }

    /** `deep_merge(self, update)`: every key of `update` is written into
        this dictionary, merged with the value already there when both are
        mappings; the dictionary itself is returned. */
    method DeepMerge(update: map<string, Value>) returns (r: Dict)
      modifies this
      ensures r == this && items == Merged(old(items), update)
      decreases Node(update)
    {
      ghost var base := items;
      var remaining := update.Keys;
      while remaining != {}
        invariant remaining <= update.Keys
        invariant items.Keys == base.Keys + (update.Keys - remaining)
        invariant forall k :: k in items ==>
          items[k] == if k in remaining then base[k] else Merged(base, update)[k]
        decreases remaining
      {
        var key :| key in remaining;
        var value := update[key];
        if value.Node? && key in items && items[key].Node? {
          var inner := new Dict(items[key].entries);
          var mergedInner := inner.DeepMerge(value.entries);
          items := items[key := Node(mergedInner.items)];
        } else {
          items := items[key := value];
        }
        remaining := remaining - {key};
      }
      assert items == Merged(base, update);
      return this;
    }
  }

  /** A nested setting replaced, its sibling kept, a new key added. */
  lemma NestedExample()
    ensures Merged(map["t" := Node(map["a" := Leaf("1"), "b" := Leaf("2")])],
                   map["t" := Node(map["a" := Leaf("3")]), "c" := Leaf("4")])
         == map["t" := Node(map["a" := Leaf("3"), "b" := Leaf("2")]), "c" := Leaf("4")]
  {
    assert Merged(map["a" := Leaf("1"), "b" := Leaf("2")], map["a" := Leaf("3")]) == map["a" := Leaf("3"), "b" := Leaf("2")];
  }
}
