/**
  The record logic of an update event: the primary-key filter derived (and
  cached) from the `before` and `after` images, the edits of the `after` image,
  and the field copies made when the event is cloned into an update, insert or
  delete event. A Java map that may be null is an `Option` of a map; a value
  that may be null is an `Option` of a value.
*/
module UpdateEvent {
  import opened Wrappers

  /** A row image: column name to value, a stored value possibly null. */
  type Image<V> = map<string, Option<V>>

  datatype FilterError = NoPrimaryKeys | MissingPrimaryValue(key: string)

  /** Java's `Map.get`: null both for an absent key and for a stored null. */
  function Get<V>(m: Image<V>, key: string): Option<V> {
    if key in m then m[key] else None
  }

  /**
    The value a primary key takes: from `after` whenever `after` exists, even
    if it lacks the key, and from `before` only when there is no `after`.
  */
  function KeyValue<V>(before: Option<Image<V>>, after: Option<Image<V>>, key: string): (r: Option<V>)
    ensures after.Some? && key !in after.value ==> r.None?
    ensures after.Some? && key in after.value ==> r == after.value[key]
    ensures after.None? && before.Some? && key in before.value ==> r == before.value[key]
    ensures r.Some? ==>
      || (after.Some? && key in after.value && after.value[key] == r)
      || (after.None? && before.Some? && key in before.value && before.value[key] == r)
  {
    if after.Some? then Get(after.value, key)
    else if before.Some? then Get(before.value, key)
    else None
  }

  /** Where filling a filter stops: the map built so far and the key that had no value, if any. */
  datatype Fill<V> = Fill(partial: map<string, V>, missing: Option<string>)

  /** Adds the keys to `acc` one by one, stopping at the first key whose value is null. */
  function FillFrom<V>(before: Option<Image<V>>, after: Option<Image<V>>, keys: seq<string>, acc: map<string, V>): (f: Fill<V>)
    ensures acc.Keys <= f.partial.Keys
    ensures forall k :: k in f.partial ==> k in acc || k in keys
    ensures f.missing.Some? ==> f.missing.value in keys && KeyValue(before, after, f.missing.value).None?
  {
    if |keys| == 0 then Fill(acc, None)
    else match KeyValue(before, after, keys[0])
      case Some(v) => FillFrom(before, after, keys[1..], acc[keys[0] := v])
      case None => Fill(acc, Some(keys[0]))
  }

  /** The outcome of building a filter from nothing, as `getFilter` reports it. */
  function FilterOutcome<V>(f: Fill<V>): Result<map<string, V>, FilterError> {
    if f.missing.Some? then Err(MissingPrimaryValue(f.missing.value)) else Ok(f.partial)
  }

  /**
    Filling succeeds exactly when every key has a value; then the filter adds
    exactly those keys, each mapped to its value.
  */
  lemma {:induction false} FillSucceedsIff<V>(before: Option<Image<V>>, after: Option<Image<V>>, keys: seq<string>, acc: map<string, V>)
    ensures var f := FillFrom(before, after, keys, acc);
      && (f.missing.None? <==> forall i :: 0 <= i < |keys| ==> KeyValue(before, after, keys[i]).Some?)
      && (f.missing.None? ==> f.partial.Keys == acc.Keys + set x | x in keys)
      && (f.missing.None? ==> forall i :: 0 <= i < |keys| ==> f.partial[keys[i]] == KeyValue(before, after, keys[i]).value)
    decreases |keys|
  {
    if |keys| > 0 {
      var k := keys[0];
      var rest := keys[1..];
      assert keys == [k] + rest;
      match KeyValue(before, after, k) {
        case Some(v) =>
          FillSucceedsIff(before, after, rest, acc[k := v]);
          var f := FillFrom(before, after, rest, acc[k := v]);
          assert (set x | x in keys) == {k} + set x | x in rest;
          if f.missing.None? {
            forall i | 0 <= i < |keys|
              ensures f.partial[keys[i]] == KeyValue(before, after, keys[i]).value
            {
              if i == 0 {
                if j :| 0 <= j < |rest| && rest[j] == k {
                  assert f.partial[rest[j]] == KeyValue(before, after, rest[j]).value;
                } else {
                  FillKeepsAbsent(before, after, rest, acc[k := v], k);
                }
              } else {
                assert keys[i] == rest[i - 1];
              }
            }
          }
        case None =>
      }
    }
  }

  /** A key no later key overwrites keeps the value it had in the accumulator. */
  lemma {:induction false} FillKeepsAbsent<V>(before: Option<Image<V>>, after: Option<Image<V>>, keys: seq<string>, acc: map<string, V>, k: string)
    requires k in acc && k !in keys
    ensures var f := FillFrom(before, after, keys, acc); k in f.partial && f.partial[k] == acc[k]
    decreases |keys|
  {
    if |keys| > 0 && KeyValue(before, after, keys[0]).Some? {
      assert k !in keys[1..];
      FillKeepsAbsent(before, after, keys[1..], acc[keys[0] := KeyValue(before, after, keys[0]).value], k);
    }
  }

  /**
    On failure filling stops at the first key without a value, reports that
    key, and leaves behind exactly the keys before it.
  */
  lemma {:induction false} FillStopsAtFirstMissing<V>(before: Option<Image<V>>, after: Option<Image<V>>, keys: seq<string>, acc: map<string, V>, j: nat)
    requires j < |keys| && KeyValue(before, after, keys[j]).None?
    requires forall i :: 0 <= i < j ==> KeyValue(before, after, keys[i]).Some?
    ensures var f := FillFrom(before, after, keys, acc);
      && f.missing == Some(keys[j])
      && f.partial.Keys == acc.Keys + set x | x in keys[..j]
    decreases j
  {
    if j == 0 {
      assert keys[..j] == [];
    } else {
      var k := keys[0];
      var v := KeyValue(before, after, k).value;
      var rest := keys[1..];
      assert forall i :: 0 <= i < j - 1 ==> rest[i] == keys[i + 1];
      FillStopsAtFirstMissing(before, after, rest, acc[k := v], j - 1);
      var p, q := keys[..j], rest[..j - 1];
      assert p == [k] + q;
      assert (set x | x in p) == {k} + set x | x in q;
    }
  }

  /**
    An `after` image without the key hides `before`: the key is reported
    missing even when `before` holds a value for it.
  */
  lemma AfterShadowsBefore<V>(before: Image<V>, after: Image<V>, key: string, acc: map<string, V>)
    requires key !in after
    ensures FillFrom(Some(before), Some(after), [key], acc) == Fill(acc, Some(key))
  {
  }

  /**
    `putAfterValue`: the image exists afterwards and maps `name` to `value`;
    every other column is present exactly when it was, with the value it had.
  */
  function PutAfter<V>(after: Option<Image<V>>, name: string, value: Option<V>): (r: Option<Image<V>>)
    ensures r.Some? && name in r.value && r.value[name] == value
    ensures r.value.Keys == (if after.Some? then after.value.Keys else {}) + {name}
    ensures forall k :: k in r.value && k != name ==> after.Some? && r.value[k] == after.value[k]
  {
    Some((if after.Some? then after.value else map[])[name := value])
  }

  /**
    `removeAfterValue`: no image stays none; otherwise `name` is gone and every
    other column is present exactly when it was, with the value it had.
  */
  function RemoveAfter<V>(after: Option<Image<V>>, name: string): (r: Option<Image<V>>)
    ensures r.Some? <==> after.Some?
    ensures r.Some? ==> r.value.Keys == after.value.Keys - {name}
    ensures r.Some? ==> forall k :: k in r.value ==> r.value[k] == after.value[k]
  {
    if after.Some? then Some(after.value - {name}) else None
  }

  /** Removing what was just put restores an image that did not hold the name; with no image, an empty one remains. */
  lemma RemoveUndoesPut<V>(after: Option<Image<V>>, name: string, value: Option<V>)
    requires after.None? || name !in after.value
    ensures RemoveAfter(PutAfter(after, name, value), name) == Some(if after.Some? then after.value else map[])
  {
    var m := if after.Some? then after.value else map[];
    assert m[name := value] - {name} == m;
  }

  /** Putting twice under one name keeps the second value only. */
  lemma PutOverwrites<V>(after: Option<Image<V>>, name: string, v1: Option<V>, v2: Option<V>)
    ensures PutAfter(PutAfter(after, name, v1), name, v2) == PutAfter(after, name, v2)
  {
    var m := if after.Some? then after.value else map[];
    assert m[name := v1][name := v2] == m[name := v2];
  }

  /** What a delete event's `before` becomes when an update is cloned into it. */
  function DeleteBefore<V>(before: Option<Image<V>>, after: Option<Image<V>>, target: Option<Image<V>>): (r: Option<Image<V>>)
    ensures before.Some? ==> r == before
    ensures before.None? && after.Some? ==> r == after
    ensures before.None? && after.None? ==> r == target
  {
    if before.Some? then before else if after.Some? then after else target
  }

  /** The fields an insert event receives from a clone. */
  class InsertRecordEvent<V> {
    var after: Option<Image<V>>
    var removedFields: Option<seq<string>>
    var afterIllegalDateFieldName: Option<seq<string>>

    constructor ()
      ensures after.None? && removedFields.None? && afterIllegalDateFieldName.None?
    {
      after, removedFields, afterIllegalDateFieldName := None, None, None;
    }
  }

  /** The fields a delete event receives from a clone. */
  class DeleteRecordEvent<V> {
    var before: Option<Image<V>>
    var beforeIllegalDateFieldName: Option<seq<string>>

    constructor ()
      ensures before.None? && beforeIllegalDateFieldName.None?
    {
      before, beforeIllegalDateFieldName := None, None;
    }
  }

  class UpdateRecordEvent<V> {
    var before: Option<Image<V>>
    var after: Option<Image<V>>
    /** The cached primary-key filter. */
    var filter: Option<map<string, V>>
    var removedFields: Option<seq<string>>
    var isReplaceEvent: Option<bool>
    var beforeIllegalDateFieldName: Option<seq<string>>
    var afterIllegalDateFieldName: Option<seq<string>>

    constructor ()
      ensures before.None? && after.None? && filter.None? && removedFields.None?
      ensures isReplaceEvent == Some(false)
      ensures beforeIllegalDateFieldName.None? && afterIllegalDateFieldName.None?
    {
      before, after, filter, removedFields := None, None, None, None;
      isReplaceEvent := Some(false);
      beforeIllegalDateFieldName, afterIllegalDateFieldName := None, None;
    }

    /**
      The primary-key filter. No keys is an error whether or not a filter is
      cached; a cached filter is returned as it is; otherwise the filter is
      built key by key and cached, the part built so far staying cached when a
      key has no value.
    */
    method GetFilter(primaryKeys: Option<seq<string>>) returns (r: Result<map<string, V>, FilterError>)
      modifies this
      ensures before == old(before) && after == old(after)
      ensures removedFields == old(removedFields) && isReplaceEvent == old(isReplaceEvent)
      ensures beforeIllegalDateFieldName == old(beforeIllegalDateFieldName)
      ensures afterIllegalDateFieldName == old(afterIllegalDateFieldName)
      ensures primaryKeys.None? || |primaryKeys.value| == 0 ==>
        r == Err(NoPrimaryKeys) && filter == old(filter)
      ensures primaryKeys.Some? && |primaryKeys.value| > 0 && old(filter).Some? ==>
        r == Ok(old(filter).value) && filter == old(filter)
      ensures primaryKeys.Some? && |primaryKeys.value| > 0 && old(filter).None? ==>
        var f := FillFrom(before, after, primaryKeys.value, map[]);
        filter == Some(f.partial) && r == FilterOutcome(f)
    {
      if primaryKeys.None? || |primaryKeys.value| == 0 {
        return Err(NoPrimaryKeys);
      }
      var keys := primaryKeys.value;
      if filter.None? {
        filter := Some(map[]);
        var i := 0;
        while i < |keys|
          invariant 0 <= i <= |keys| && filter.Some?
          invariant FillFrom(before, after, keys[i..], filter.value) == FillFrom(before, after, keys, map[])
          invariant before == old(before) && after == old(after)
          invariant removedFields == old(removedFields) && isReplaceEvent == old(isReplaceEvent)
          invariant beforeIllegalDateFieldName == old(beforeIllegalDateFieldName)
          invariant afterIllegalDateFieldName == old(afterIllegalDateFieldName)
        {
          var key := keys[i];
          var value: Option<V> := None;
          if before.Some? {
            value := Get(before.value, key);
          }
          if after.Some? {
            value := Get(after.value, key);
          }
          assert value == KeyValue(before, after, key);
          if value.Some? {
            assert keys[i..][1..] == keys[i + 1..];
            filter := Some(filter.value[key := value.value]);
          } else {
            return Err(MissingPrimaryValue(key));
          }
          i := i + 1;
        }
      }
      r := Ok(filter.value);
    }

    /** Sets one column of the `after` image, creating the image when there is none. */
    method PutAfterValue(name: string, value: Option<V>)
      modifies this
      ensures after == PutAfter(old(after), name, value)
      ensures before == old(before) && filter == old(filter) && removedFields == old(removedFields)
      ensures isReplaceEvent == old(isReplaceEvent)
      ensures beforeIllegalDateFieldName == old(beforeIllegalDateFieldName)
      ensures afterIllegalDateFieldName == old(afterIllegalDateFieldName)
    {
      if after.None? {
        after := Some(map[]);
      }
      after := Some(after.value[name := value]);
    }

    /** Removes one column of the `after` image, if there is an image. */
    method RemoveAfterValue(name: string)
      modifies this
      ensures after == RemoveAfter(old(after), name)
      ensures before == old(before) && filter == old(filter) && removedFields == old(removedFields)
      ensures isReplaceEvent == old(isReplaceEvent)
      ensures beforeIllegalDateFieldName == old(beforeIllegalDateFieldName)
      ensures afterIllegalDateFieldName == old(afterIllegalDateFieldName)
    {
      if after.Some? {
        after := Some(after.value - {name});
      }
    }

    /**
      Cloning into another update event: each image is copied only when this
      event has one (otherwise the target keeps its own), the other fields
      always; the target's cached filter is not touched.
    */
    method CloneToUpdate(target: UpdateRecordEvent<V>)
      modifies target
      ensures target.before == if old(before).Some? then old(before) else old(target.before)
      ensures target.after == if old(after).Some? then old(after) else old(target.after)
      ensures target.removedFields == old(removedFields) && target.isReplaceEvent == old(isReplaceEvent)
      ensures target.beforeIllegalDateFieldName == old(beforeIllegalDateFieldName)
      ensures target.afterIllegalDateFieldName == old(afterIllegalDateFieldName)
      ensures target.filter == old(target.filter)
    {
      var b, a := before, after;
      var rf, rep, bi, ai := removedFields, isReplaceEvent, beforeIllegalDateFieldName, afterIllegalDateFieldName;
      if b.Some? {
        target.before := b;
      }
      if a.Some? {
        target.after := a;
      }
      target.removedFields := rf;
      target.isReplaceEvent := rep;
      target.beforeIllegalDateFieldName := bi;
      target.afterIllegalDateFieldName := ai;
    }

    /** Cloning into an insert event: `after` only when this event has one, and the after-side fields. */
    method CloneToInsert(target: InsertRecordEvent<V>)
      modifies target
      ensures target.after == if after.Some? then after else old(target.after)
      ensures target.removedFields == removedFields
      ensures target.afterIllegalDateFieldName == afterIllegalDateFieldName
    {
      if after.Some? {
        target.after := after;
      }
      target.removedFields := removedFields;
      target.afterIllegalDateFieldName := afterIllegalDateFieldName;
    }

    /** Cloning into a delete event: `before` if there is one, else `after` if there is one. */
    method CloneToDelete(target: DeleteRecordEvent<V>)
      modifies target
      ensures target.before == DeleteBefore(before, after, old(target.before))
      ensures target.beforeIllegalDateFieldName == beforeIllegalDateFieldName
    {
      if before.Some? {
        target.before := before;
      } else if after.Some? {
        target.before := after;
      }
      target.beforeIllegalDateFieldName := beforeIllegalDateFieldName;
    }
  }
}
