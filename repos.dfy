/** The record store (assistant/repos.py): a map from string keys to values
    with `get`, `set`, `items` and `clear`, loaded from a snapshot file when
    the store is entered and written back when it is exited.

    `Repo` follows `PickleRepo`, whose map is a Python dict: `items` follows
    insertion order, and overwriting a key keeps its place. `ShelveRepo`
    offers the same map contract over a `shelve` database. */
module Repos {
  import opened Outcomes

  /** No key occurs twice. */
  predicate Distinct(keys: seq<string>) {
    forall i, j :: 0 <= i < j < |keys| ==> keys[i] != keys[j]
  }

  /** The saved contents of the store's file: the pickled dict, its keys in
      order and its values. */
  datatype Snapshot<V> = Snapshot(keys: seq<string>, values: map<string, V>) {
    /** What a pickled dict always is: each key once, and exactly the keys of its map. */
    ghost predicate IsDict() {
      Distinct(keys) && forall k :: k in values <==> k in keys
    }
  }

  class Repo<V> {
    /** The dict's keys, in insertion order. */
    var keys: seq<string>
    /** The dict's key-to-value mapping. */
    var values: map<string, V>

    ghost predicate Valid()
      reads this
    {
      Distinct(keys) && forall k :: k in values <==> k in keys
    }

    /** `PickleRepo(filepath)`: the store starts out empty. */
    constructor ()
      ensures Valid() && keys == [] && values == map[]
    {
      keys, values := [], map[];
    }

    /** `__enter__`: load the snapshot from the file, or start empty when
        there is no file (`file` is `None`). */
    method Enter(file: Option<Snapshot<V>>)
      requires file.Some? ==> file.value.IsDict()
      modifies this
      ensures Valid()
      ensures file.None? ==> keys == [] && values == map[]
      ensures file.Some? ==> keys == file.value.keys && values == file.value.values
    {
      match file
      case None => keys, values := [], map[];
      case Some(s) => keys, values := s.keys, s.values;
    }

    /** `__exit__`: the snapshot written to the file is the current map. */
    method Exit() returns (file: Snapshot<V>)
      requires Valid()
      ensures file.IsDict()
      ensures file.keys == keys && file.values == values
    {
      file := Snapshot(keys, values);
    }

    /** `get(id)`: the stored value, or the default `None` for a missing key. */
    method Get(id: string) returns (r: Option<V>)
      requires Valid()
      ensures r.Some? <==> id in keys
      ensures r.Some? ==> r.value == values[id]
    {
      if id in values {
        r := Some(values[id]);
      } else {
        r := None;
      }
    }

    /** `set(id, value)`: `id` now holds exactly `value`; every other key
        keeps its value; a new key goes last, an existing key keeps its place. */
    method Set(id: string, value: V)
      requires Valid()
      modifies this
      ensures Valid()
      ensures values == old(values)[id := value]
      ensures keys == if id in old(values) then old(keys) else old(keys) + [id]
    {
      if id !in values {
        keys := keys + [id];
      }
      values := values[id := value];
    }

    /** `items()`: each stored pair exactly once, in insertion order. */
    function Items(): (r: seq<(string, V)>)
      reads this
      requires Valid()
      ensures |r| == |keys|
      ensures forall i :: 0 <= i < |r| ==> r[i].0 == keys[i] && r[i].0 in values && r[i].1 == values[r[i].0]
      ensures forall k :: k in values <==> exists i :: 0 <= i < |r| && r[i].0 == k
      ensures forall i, j :: 0 <= i < j < |r| ==> r[i].0 != r[j].0
    {
      Pairs(keys, values)
    }

    /** `clear()`: the store is empty afterwards. */
    method Clear()
      requires Valid()
      modifies this
      ensures Valid() && keys == [] && values == map[]
    {
      keys, values := [], map[];
    }
  }

  /** The pairs of `values` taken in the order of `keys`. */
  function Pairs<V>(keys: seq<string>, values: map<string, V>): (r: seq<(string, V)>)
    requires forall k :: k in keys ==> k in values
    ensures |r| == |keys|
    ensures forall i :: 0 <= i < |r| ==> r[i] == (keys[i], values[keys[i]])
  {
    if keys == [] then [] else [(keys[0], values[keys[0]])] + Pairs(keys[1..], values)
  }

  /** Leaving the store and entering it again restores the map as it was
      when it was left. */
  method ExitThenEnter<V>(repo: Repo<V>)
    requires repo.Valid()
    modifies repo
    ensures repo.Valid()
    ensures repo.keys == old(repo.keys) && repo.values == old(repo.values)
  {
    var file := repo.Exit();
    repo.Enter(Some(file));
  }
}
